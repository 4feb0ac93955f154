// The rows and list operations of the in-memory store of
// app/models/mock_dao.py: the `next(...)` searches, list-comprehension
// filters, `max` by creation time and the stable sort by a key, each with
// the facts the store's invariants need.
module MockTables {
  import opened Wrappers
  import opened PyValues

  /** The five tables; `_counters` has one entry per table. */
  datatype Table = Users | BikeModels | BikeSizes | Anthropometry | FitSettings

  datatype Status = Private | Public | Pending

  /** A row of "users"; the password is kept as the host's hash of it. */
  datatype User = User(id: nat, username: string, passwordHash: string, role: string, createdAt: int)

  /** A row of "bike_models". */
  datatype BikeModel = BikeModel(id: nat, userId: int, model: Value, status: Status, isModerated: bool, createdAt: int)

  /** A row of "fit_settings"; the settings are stored as they came. */
  datatype Fit = Fit(
    id: nat, userId: int, bikeId: Value, name: Value,
    seatHight: Value, stemHight: Value, saddleOffset: Value, torsoAngle: Value, shifterAngle: Value,
    createdAt: int)

  /** `next((x for x in s if p(x)), None)`, as an index. */
  function First<T>(s: seq<T>, p: T -> bool): (r: Option<nat>)
    ensures r.Some? ==> r.value < |s| && p(s[r.value]) && forall j :: 0 <= j < r.value ==> !p(s[j])
    ensures r.None? ==> forall j :: 0 <= j < |s| ==> !p(s[j])
  {
    if s == [] then None
    else if p(s[0]) then Some(0)
    else
      match First(s[1..], p)
      case Some(i) => Some(i + 1)
      case None => None
  }

  /** `[x for x in s if p(x)]`. */
  function Filter<T>(s: seq<T>, p: T -> bool): (r: seq<T>)
    ensures |r| <= |s|
  {
    if s == [] then []
    else Filter(s[..|s| - 1], p) + (if p(s[|s| - 1]) then [s[|s| - 1]] else [])
  }

  /** The filter keeps exactly the elements satisfying p. */
  lemma {:induction false} FilterMembers<T>(s: seq<T>, p: T -> bool)
    ensures forall x :: x in Filter(s, p) <==> x in s && p(x)
    ensures forall i :: 0 <= i < |Filter(s, p)| ==> exists k :: 0 <= k < |s| && s[k] == Filter(s, p)[i]
  {
    if s != [] {
      FilterMembers(s[..|s| - 1], p);
      assert s == s[..|s| - 1] + [s[|s| - 1]];
    }
    var f := Filter(s, p);
    forall i | 0 <= i < |f|
      ensures exists k :: 0 <= k < |s| && s[k] == f[i]
    {
      assert f[i] in f;
    }
  }

  /** A filter that keeps every element leaves the list as it was. */
  lemma {:induction false} FilterAll<T>(s: seq<T>, p: T -> bool)
    requires forall i :: 0 <= i < |s| ==> p(s[i])
    ensures Filter(s, p) == s
  {
    if s != [] {
      FilterAll(s[..|s| - 1], p);
      assert s == s[..|s| - 1] + [s[|s| - 1]];
    }
  }

  /** Keys strictly increase along the list. */
  ghost predicate Increasing<T>(s: seq<T>, key: T -> int)
  {
    forall i, j :: 0 <= i < j < |s| ==> key(s[i]) < key(s[j])
  }

  /** No two elements share a key. */
  ghost predicate Distinct<T, K>(s: seq<T>, key: T -> K)
  {
    forall i, j :: 0 <= i < j < |s| ==> key(s[i]) != key(s[j])
  }

  /** Filtering keeps the order: increasing keys stay increasing. */
  lemma {:induction false} FilterIncreasing<T>(s: seq<T>, p: T -> bool, key: T -> int)
    requires Increasing(s, key)
    ensures Increasing(Filter(s, p), key)
  {
    if s != [] {
      var init := s[..|s| - 1];
      FilterIncreasing(init, p, key);
      FilterMembers(init, p);
      var f := Filter(init, p);
      forall j | 0 <= j < |f|
        ensures key(f[j]) < key(s[|s| - 1])
      {
        var k :| 0 <= k < |init| && init[k] == f[j];
      }
    }
  }

  /** Filtering keeps distinct keys distinct. */
  lemma {:induction false} FilterDistinct<T, K>(s: seq<T>, p: T -> bool, key: T -> K)
    requires Distinct(s, key)
    ensures Distinct(Filter(s, p), key)
  {
    if s != [] {
      var init := s[..|s| - 1];
      FilterDistinct(init, p, key);
      FilterMembers(init, p);
      var f := Filter(init, p);
      forall j | 0 <= j < |f|
        ensures key(f[j]) != key(s[|s| - 1])
      {
        var k :| 0 <= k < |init| && init[k] == f[j];
      }
    }
  }

  /** Replacing one element by one with the same key keeps keys distinct. */
  lemma ReplaceDistinct<T, K>(s: seq<T>, i: nat, x: T, key: T -> K)
    requires i < |s| && Distinct(s, key) && key(x) == key(s[i])
    ensures Distinct(s[i := x], key)
  {
    var t := s[i := x];
    forall a, b | 0 <= a < b < |t|
      ensures key(t[a]) != key(t[b])
    {
      assert key(t[a]) == key(s[a]) && key(t[b]) == key(s[b]);
    }
  }

  /** Replacing one element by one with the same key keeps keys increasing. */
  lemma ReplaceIncreasing<T>(s: seq<T>, i: nat, x: T, key: T -> int)
    requires i < |s| && Increasing(s, key) && key(x) == key(s[i])
    ensures Increasing(s[i := x], key)
  {
    var t := s[i := x];
    forall a, b | 0 <= a < b < |t|
      ensures key(t[a]) < key(t[b])
    {
      assert key(t[a]) == key(s[a]) && key(t[b]) == key(s[b]);
    }
  }

  // ---------------------------------------------------------------------
  // `max(rows, key=created_at)`

  /** The index `max` picks: a largest key, the first one on ties. */
  function LatestIndex<T>(s: seq<T>, key: T -> int): (r: nat)
    requires s != []
    ensures r < |s|
  {
    if |s| == 1 then 0
    else
      var i := LatestIndex(s[..|s| - 1], key);
      if key(s[|s| - 1]) > key(s[i]) then |s| - 1 else i
  }

  /** The picked element has the largest key, and every earlier element a
      strictly smaller one. */
  lemma {:induction false} LatestIndexIsFirstMax<T>(s: seq<T>, key: T -> int)
    requires s != []
    ensures var r := LatestIndex(s, key);
      (forall j :: 0 <= j < |s| ==> key(s[j]) <= key(s[r])) &&
      (forall j :: 0 <= j < r ==> key(s[j]) < key(s[r]))
  {
    if |s| > 1 {
      var init := s[..|s| - 1];
      LatestIndexIsFirstMax(init, key);
      assert forall j :: 0 <= j < |init| ==> init[j] == s[j];
    }
  }

  // ---------------------------------------------------------------------
  // `list.sort(key=...)`: a stable sort

  /** A size entry of `get_bike_sizes` with its sort key. */
  datatype Keyed = Keyed(size: Value, id: Value, key: real)

  predicate SortedByKey(s: seq<Keyed>)
  {
    forall i, j :: 0 <= i < j < |s| ==> s[i].key <= s[j].key
  }

  /** x placed after every element whose key is not larger than its own. */
  function Insert(s: seq<Keyed>, x: Keyed): (r: seq<Keyed>)
    ensures multiset(r) == multiset(s) + multiset{x}
  {
    if s == [] || x.key < s[0].key then [x] + s
    else
      assert s == [s[0]] + s[1..];
      [s[0]] + Insert(s[1..], x)
  }

  lemma {:induction false} InsertSorted(s: seq<Keyed>, x: Keyed)
    requires SortedByKey(s)
    ensures SortedByKey(Insert(s, x))
    ensures Insert(s, x) != [] && (Insert(s, x)[0] == x || (s != [] && Insert(s, x)[0] == s[0]))
  {
    if s != [] && x.key >= s[0].key {
      InsertSorted(s[1..], x);
      var r := Insert(s[1..], x);
      assert r[0] == x || r[0] == s[1];
      var t := [s[0]] + r;
      forall j | 1 <= j < |t|
        ensures s[0].key <= t[j].key
      {
        assert t[j] in multiset(r);
        assert t[j] in multiset(s[1..]) + multiset{x};
        if t[j] != x {
          assert t[j] in s[1..];
        }
      }
    }
  }

  /** The sort: each element inserted in list order, so equal keys keep
      their order. */
  function SortByKey(s: seq<Keyed>): (r: seq<Keyed>)
  {
    if s == [] then [] else Insert(SortByKey(s[..|s| - 1]), s[|s| - 1])
  }

  /** The sort orders by key and loses or adds nothing. */
  lemma SortByKeySorts(s: seq<Keyed>)
    ensures SortedByKey(SortByKey(s)) && multiset(SortByKey(s)) == multiset(s)
  {
    SortByKeySorted(s);
    SortByKeyPermutes(s);
  }

  lemma {:induction false} SortByKeySorted(s: seq<Keyed>)
    ensures SortedByKey(SortByKey(s))
  {
    if s != [] {
      var init := s[..|s| - 1];
      SortByKeySorted(init);
      InsertSorted(SortByKey(init), s[|s| - 1]);
    }
  }

  lemma {:induction false} SortByKeyPermutes(s: seq<Keyed>)
    ensures multiset(SortByKey(s)) == multiset(s)
  {
    if s != [] {
      var init, x := s[..|s| - 1], s[|s| - 1];
      assert s == init + [x];
      SortByKeyPermutes(init);
      assert multiset(SortByKey(s)) == multiset(SortByKey(init)) + multiset{x};
    }
  }

  /** The entries of s whose key is k, in their order in s. */
  function WithKey(s: seq<Keyed>, k: real): seq<Keyed>
  {
    if s == [] then [] else (if s[0].key == k then [s[0]] else []) + WithKey(s[1..], k)
  }

  lemma {:induction false} WithKeyAppend(s: seq<Keyed>, t: seq<Keyed>, k: real)
    ensures WithKey(s + t, k) == WithKey(s, k) + WithKey(t, k)
  {
    if s != [] {
      assert (s + t)[1..] == s[1..] + t;
      WithKeyAppend(s[1..], t, k);
    } else {
      assert s + t == t;
    }
  }

  /** In a sorted sequence that starts above k, no entry has key k. */
  lemma {:induction false} WithKeyAbove(s: seq<Keyed>, k: real)
    requires SortedByKey(s) && s != [] && k < s[0].key
    ensures WithKey(s, k) == []
  {
    if |s| > 1 {
      assert s[1].key >= s[0].key;
      WithKeyAbove(s[1..], k);
    }
  }

  /** Insert puts x after every entry of a sorted s with the same key. */
  lemma InsertFrontStable(s: seq<Keyed>, x: Keyed, k: real)
    requires SortedByKey(s) && s != [] && x.key < s[0].key
    ensures WithKey([x] + s, k) == WithKey(s, k) + WithKey([x], k)
  {
    WithKeyAppend([x], s, k);
    if x.key == k {
      WithKeyAbove(s, k);
    } else {
      assert WithKey([x], k) == [];
    }
  }

  lemma {:induction false} InsertStable(s: seq<Keyed>, x: Keyed, k: real)
    requires SortedByKey(s)
    ensures WithKey(Insert(s, x), k) == WithKey(s, k) + WithKey([x], k)
  {
    if s == [] {
      assert Insert(s, x) == [x] + s;
    } else if x.key < s[0].key {
      InsertFrontStable(s, x, k);
    } else {
      InsertStable(s[1..], x, k);
      InsertBehindStable(s[0], s[1..], x, k);
      assert [s[0]] + s[1..] == s;
    }
  }

  lemma ConcatAssoc(a: seq<Keyed>, b: seq<Keyed>, c: seq<Keyed>)
    ensures a + (b + c) == (a + b) + c
  {
  }

  /** The step of InsertStable where x goes behind the head of the sequence. */
  lemma InsertBehindStable(head: Keyed, tail: seq<Keyed>, x: Keyed, k: real)
    requires x.key >= head.key
    requires WithKey(Insert(tail, x), k) == WithKey(tail, k) + WithKey([x], k)
    ensures WithKey(Insert([head] + tail, x), k) == WithKey([head] + tail, k) + WithKey([x], k)
  {
    assert ([head] + tail)[1..] == tail;
    var rest := Insert(tail, x);
    var a, b, c := WithKey([head], k), WithKey(tail, k), WithKey([x], k);
    calc {
      WithKey(Insert([head] + tail, x), k);
      WithKey([head] + rest, k);
      { WithKeyAppend([head], rest, k); }
      a + (b + c);
      { ConcatAssoc(a, b, c); }
      (a + b) + c;
      { WithKeyAppend([head], tail, k); }
      WithKey([head] + tail, k) + c;
    }
  }

  /** The sort is stable: the entries with any one key keep their order. */
  lemma {:induction false} SortByKeyStable(s: seq<Keyed>, k: real)
    ensures WithKey(SortByKey(s), k) == WithKey(s, k)
  {
    if s != [] {
      var init, x := s[..|s| - 1], s[|s| - 1];
      assert s == init + [x];
      WithKeyAppend(init, [x], k);
      SortByKeyStable(init, k);
      assert WithKey(Insert(SortByKey(init), x), k) == WithKey(SortByKey(init), k) + WithKey([x], k) by {
        SortByKeySorted(init);
        InsertStable(SortByKey(init), x, k);
      }
    }
  }
}
