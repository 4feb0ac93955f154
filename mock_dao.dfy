// The in-memory store of app/models/mock_dao.py: the five tables of
// `_mock_db`, the auto-increment `_counters`, and every operation on them.
//
// Rows of "bike_sizes" and "anthropometry" are built by unpacking a
// caller's dictionary, so they are kept as dictionaries (`Record`); the
// other tables have fixed keys and are kept as datatypes. The host's
// password hashing and its clock are parameters: `passwordHash` is what
// `generate_password_hash` returned, `check` is `check_password_hash`,
// `now` is `datetime.now()` as a number.
module MockDao {
  import opened Wrappers
  import opened PyValues
  import opened MockTables

  /** What an operation reports. */
  datatype DaoMessage = UserExists | ModelAndSizeRequired | BikeNotFound | SaveFitFailed

  /** The result dictionaries: `{"success": True}`, the same with the bike
      model's id, a failure with an `errors` list of one field error, or a
      failure with an `error` message. */
  datatype Reply =
    | Done
    | DoneModel(bikeModelId: nat)
    | FieldFailure(field: string, message: DaoMessage)
    | Failure(message: DaoMessage)

  /** `{"id": ..., "role": ...}` of a logged-in user. */
  datatype Identity = Identity(id: nat, role: string)

  /** One `{"size": ..., "id": ...}` entry of `get_bike_sizes`. */
  datatype SizeEntry = SizeEntry(size: Value, id: Value)

  // ---------------------------------------------------------------------
  // Invariants of the tables, as predicates on the table values.

  ghost predicate CountersOk(c: map<Table, nat>)
  {
    forall t: Table :: t in c && c[t] >= 1
  }

  /** Ids are handed out from the counter, so they are at least 1, below the
      counter and increasing along the table; usernames are unique. */
  ghost predicate UsersOk(users: seq<User>, next: nat)
  {
    Increasing(users, (u: User) => u.id) &&
    (forall i :: 0 <= i < |users| ==> 1 <= users[i].id < next) &&
    Distinct(users, (u: User) => u.username)
  }

  /** Model ids as for users; each user has at most one model of a name. */
  ghost predicate ModelsOk(models: seq<BikeModel>, next: nat)
  {
    Increasing(models, (m: BikeModel) => m.id) &&
    (forall i :: 0 <= i < |models| ==> 1 <= models[i].id < next) &&
    Distinct(models, (m: BikeModel) => (m.userId, m.model))
  }

  /** The key of a size row: its model and its size label. */
  function SizeKey(row: Record): (Value, Value)
  {
    (Get(row, "bike_model_id"), Get(row, "size"))
  }

  /** The test of a size row against a model and a size label, with
      Python's `==` on both. */
  predicate SameSize(row: Record, modelId: Value, size: Value)
  {
    PyEq(Get(row, "bike_model_id"), modelId) && PyEq(Get(row, "size"), size)
  }

  /** The first size row of that model and size label, which
      `add_user_bike` updates rather than appending a new one. */
  function SizeRowOf(rows: seq<Record>, modelId: Value, size: Value): Option<nat>
  {
    First(rows, (bs: Record) => SameSize(bs, modelId, size))
  }

  /** Every size row has an id, a model and a size, never a "model" key,
      and no two rows share a model and size. */
  ghost predicate SizesOk(rows: seq<Record>)
  {
    (forall i :: 0 <= i < |rows| ==> SizeRowOk(rows[i])) &&
    Distinct(rows, SizeKey)
  }

  predicate SizeRowOk(row: Record)
  {
    "id" in row && "bike_model_id" in row && "size" in row && "model" !in row
  }

  /** Every anthropometry row names its user and carries its creation time
      as a number. */
  ghost predicate AnthroOk(rows: seq<Record>)
  {
    forall i :: 0 <= i < |rows| ==> "user_id" in rows[i] && "created_at" in rows[i] && rows[i]["created_at"].Int?
  }

  ghost predicate FitsOk(fits: seq<Fit>, next: nat)
  {
    Increasing(fits, (f: Fit) => f.id) &&
    (forall i :: 0 <= i < |fits| ==> 1 <= fits[i].id < next)
  }

  /** `created_at` of an anthropometry row. */
  function CreatedAt(row: Record): int
  {
    if "created_at" in row && row["created_at"].Int? then row["created_at"].i else 0
  }

  /** The geometry a size row takes from `add_user_bike`'s input: every
      key but "model", and the model's id. */
  function Geometry(bike: Record, modelId: nat): (g: Record)
    ensures "model" !in g && "bike_model_id" in g && g["bike_model_id"] == Int(modelId)
    ensures forall k :: k in bike && k != "model" && k != "bike_model_id" ==> k in g && g[k] == bike[k]
  {
    (bike - {"model"})["bike_model_id" := Int(modelId)]
  }

  /** The size table after the upsert of `add_user_bike`: the row of the
      same model and size gets every geometry key but its model and size
      overwritten; otherwise a row with the fresh id is appended. */
  function Upsert(rows: seq<Record>, geometry: Record, size: Value, freshId: nat, now: int): seq<Record>
  {
    match SizeRowOf(rows, Get(geometry, "bike_model_id"), size)
    case Some(i) => rows[i := rows[i] + (geometry - {"bike_model_id", "size"})]
    case None => rows + [map["id" := Int(freshId)] + geometry + map["created_at" := Int(now)]]
  }

  class MockDb {
    var users: seq<User>
    var bikeModels: seq<BikeModel>
    var bikeSizes: seq<Record>
    var anthropometry: seq<Record>
    var fitSettings: seq<Fit>
    var counters: map<Table, nat>

    ghost predicate Valid()
      reads this
    {
      CountersOk(counters) &&
      UsersOk(users, counters[Users]) &&
      ModelsOk(bikeModels, counters[BikeModels]) &&
      SizesOk(bikeSizes) &&
      AnthroOk(anthropometry) &&
      FitsOk(fitSettings, counters[FitSettings])
    }

    /** The empty store with every counter at 1. */
    constructor ()
      ensures Valid()
      ensures users == [] && bikeModels == [] && bikeSizes == [] && anthropometry == [] && fitSettings == []
      ensures forall t: Table :: counters[t] == 1
    {
      users, bikeModels, bikeSizes, anthropometry, fitSettings := [], [], [], [], [];
      var c := map[Users := 1, BikeModels := 1, BikeSizes := 1, Anthropometry := 1, FitSettings := 1];
      forall t: Table
        ensures t in c && c[t] == 1
      {
        match t
        case Users =>
        case BikeModels =>
        case BikeSizes =>
        case Anthropometry =>
        case FitSettings =>
      }
      counters := c;
    }

    /** `_get_next_id`: the table's counter, which then moves on by one. */
    method NextId(t: Table) returns (id: nat)
      requires CountersOk(counters)
      modifies this
      ensures CountersOk(counters)
      ensures id == old(counters[t]) && id >= 1 && counters == old(counters)[t := id + 1]
      ensures users == old(users) && bikeModels == old(bikeModels) && bikeSizes == old(bikeSizes)
      ensures anthropometry == old(anthropometry) && fitSettings == old(fitSettings)
    {
      id := counters[t];
      counters := counters[t := id + 1];
    }

    // -------------------------------------------------------------------
    // Users

    /** `get_user_by_username`: the first user of that name. */
    function GetUserByUsername(username: string): (r: Option<User>)
      reads this
      ensures r.Some? ==> r.value in users && r.value.username == username
      ensures r.None? <==> forall i :: 0 <= i < |users| ==> users[i].username != username
    {
      match First(users, (u: User) => u.username == username)
      case Some(i) => Some(users[i])
      case None => None
    }

    /** `create_user_account`: a duplicate name changes nothing; otherwise
        one user with the next id and role "user" is appended. */
    method CreateUserAccount(username: string, passwordHash: string, now: int) returns (reply: Reply)
      requires Valid()
      modifies this
      ensures Valid()
      ensures old(GetUserByUsername(username)).Some? ==>
        reply == FieldFailure("username", UserExists) && users == old(users) && counters == old(counters)
      ensures old(GetUserByUsername(username)).None? ==>
        reply == Done &&
        users == old(users) + [User(old(counters[Users]), username, passwordHash, "user", now)] &&
        counters == old(counters)[Users := old(counters[Users]) + 1]
      ensures bikeModels == old(bikeModels) && bikeSizes == old(bikeSizes)
      ensures anthropometry == old(anthropometry) && fitSettings == old(fitSettings)
    {
      var existing := GetUserByUsername(username);
      if existing.Some? {
        return FieldFailure("username", UserExists);
      }
      var id := NextId(Users);
      var user := User(id, username, passwordHash, "user", now);
      AppendedKeepsUsers(users, user, id);
      users := users + [user];
      reply := Done;
    }

    /** `authenticate_user`: the user's id and role when the name exists and
        the host accepts the password against the stored hash. */
    function AuthenticateUser(username: string, password: string, check: (string, string) -> bool): (r: Option<Identity>)
      reads this
      ensures r.Some? <==> GetUserByUsername(username).Some? && check(GetUserByUsername(username).value.passwordHash, password)
      ensures r.Some? ==> r.value == Identity(GetUserByUsername(username).value.id, GetUserByUsername(username).value.role)
    {
      match GetUserByUsername(username)
      case Some(u) => if check(u.passwordHash, password) then Some(Identity(u.id, u.role)) else None
      case None => None
    }

    // -------------------------------------------------------------------
    // Bikes

    /** The first model of the user with that name. */
    function FindModel(userId: int, model: Value): Option<nat>
      reads this
    {
      First(bikeModels, (bm: BikeModel) => bm.userId == userId && PyEq(bm.model, model))
    }

    /** `add_user_bike`: a bike without a model or a size changes nothing;
        otherwise the user's model of that name is found or created, and
        the size row is updated or created. */
    method AddUserBike(userId: int, bike: Record, now: int) returns (reply: Reply)
      requires Valid()
      modifies this
      ensures Valid()
      ensures !Truthy(Get(bike, "model")) || !Truthy(Get(bike, "size")) ==>
        reply == FieldFailure("data", ModelAndSizeRequired) && bikeModels == old(bikeModels) &&
        bikeSizes == old(bikeSizes) && counters == old(counters)
      ensures Truthy(Get(bike, "model")) && Truthy(Get(bike, "size")) ==>
        reply.DoneModel? &&
        (old(FindModel(userId, Get(bike, "model"))).Some? ==>
          bikeModels == old(bikeModels) && reply.bikeModelId == old(bikeModels[FindModel(userId, Get(bike, "model")).value].id)) &&
        (old(FindModel(userId, Get(bike, "model"))).None? ==>
          reply.bikeModelId == old(counters[BikeModels]) &&
          bikeModels == old(bikeModels) + [BikeModel(reply.bikeModelId, userId, Get(bike, "model"), Private, false, now)]) &&
        bikeSizes == Upsert(old(bikeSizes), Geometry(bike, reply.bikeModelId), Get(bike, "size"), old(counters[BikeSizes]), now) &&
        // The model counter moves on only for a new model, the size counter
        // only for a new size row; the others keep their values.
        counters[BikeModels] ==
          old(counters[BikeModels]) + (if old(FindModel(userId, Get(bike, "model"))).None? then 1 else 0) &&
        counters[BikeSizes] ==
          old(counters[BikeSizes]) + (if old(SizeRowOf(bikeSizes, Int(reply.bikeModelId), Get(bike, "size"))).None? then 1 else 0)
      ensures counters[Users] == old(counters[Users]) && counters[Anthropometry] == old(counters[Anthropometry])
      ensures counters[FitSettings] == old(counters[FitSettings])
      ensures users == old(users) && anthropometry == old(anthropometry) && fitSettings == old(fitSettings)
    {
      var modelName := Get(bike, "model");
      var size := Get(bike, "size");
      if !Truthy(modelName) || !Truthy(size) {
        return FieldFailure("data", ModelAndSizeRequired);
      }
      var modelId := FindOrCreateModel(userId, modelName, now);
      var geometry := Geometry(bike, modelId);
      assert geometry["bike_model_id"] == Int(modelId);
      UpsertSize(geometry, size, now);
      reply := DoneModel(modelId);
    }

    /** The find-or-create step of `add_user_bike`. */
    method FindOrCreateModel(userId: int, model: Value, now: int) returns (modelId: nat)
      requires Valid()
      modifies this
      ensures Valid()
      ensures old(FindModel(userId, model)).Some? ==>
        bikeModels == old(bikeModels) && modelId == old(bikeModels[FindModel(userId, model).value].id) && counters == old(counters)
      ensures old(FindModel(userId, model)).None? ==>
        modelId == old(counters[BikeModels]) &&
        bikeModels == old(bikeModels) + [BikeModel(modelId, userId, model, Private, false, now)] &&
        counters == old(counters)[BikeModels := modelId + 1]
      ensures users == old(users) && bikeSizes == old(bikeSizes) && anthropometry == old(anthropometry) && fitSettings == old(fitSettings)
    {
      var found := FindModel(userId, model);
      if found.Some? {
        return bikeModels[found.value].id;
      }
      PyEqReflexive(model);
      modelId := NextId(BikeModels);
      var m := BikeModel(modelId, userId, model, Private, false, now);
      AppendedKeepsModels(bikeModels, m, modelId);
      bikeModels := bikeModels + [m];
    }

    /** The size upsert of `add_user_bike`. */
    method UpsertSize(geometry: Record, size: Value, now: int)
      requires Valid()
      requires "bike_model_id" in geometry && "model" !in geometry && "size" in geometry && geometry["size"] == size
      modifies this
      ensures Valid()
      ensures bikeSizes == Upsert(old(bikeSizes), geometry, size, old(counters[BikeSizes]), now)
      ensures users == old(users) && bikeModels == old(bikeModels) && anthropometry == old(anthropometry) && fitSettings == old(fitSettings)
      // The size counter moves on only when a row is appended.
      ensures old(SizeRowOf(bikeSizes, geometry["bike_model_id"], size)).Some? ==> counters == old(counters)
      ensures old(SizeRowOf(bikeSizes, geometry["bike_model_id"], size)).None? ==>
        counters == old(counters)[BikeSizes := old(counters[BikeSizes]) + 1]
    {
      var existing := SizeRowOf(bikeSizes, geometry["bike_model_id"], size);
      if existing.Some? {
        var i := existing.value;
        var row := bikeSizes[i] + (geometry - {"bike_model_id", "size"});
        assert SizeKey(row) == SizeKey(bikeSizes[i]);
        ReplaceDistinct(bikeSizes, i, row, SizeKey);
        bikeSizes := bikeSizes[i := row];
      } else {
        var id := NextId(BikeSizes);
        var row := map["id" := Int(id)] + geometry + map["created_at" := Int(now)];
        PyEqReflexive(geometry["bike_model_id"]);
        PyEqReflexive(size);
        AppendedKeepsSizes(bikeSizes, row);
        bikeSizes := bikeSizes + [row];
      }
    }

    /** `get_bike_geometry`: the first size row with that id. */
    function GetBikeGeometry(sizeId: Value): (r: Option<Record>)
      reads this
      ensures r.Some? ==> r.value in bikeSizes && PyEq(Get(r.value, "id"), sizeId)
      ensures r.None? <==> forall i :: 0 <= i < |bikeSizes| ==> !PyEq(Get(bikeSizes[i], "id"), sizeId)
    {
      match First(bikeSizes, (bs: Record) => PyEq(Get(bs, "id"), sizeId))
      case Some(i) => Some(bikeSizes[i])
      case None => None
    }

    /** `get_visiable_bike_models`: the public models and the user's own. */
    function GetVisibleBikeModels(userId: int): (r: seq<BikeModel>)
      reads this
      ensures forall m :: m in r <==> m in bikeModels && (m.status == Public || m.userId == userId)
    {
      var p := (bm: BikeModel) => bm.status == Public || bm.userId == userId;
      FilterMembers(bikeModels, p);
      Filter(bikeModels, p)
    }

    /** `get_user_bike_models`. */
    function GetUserBikeModels(userId: int): (r: seq<BikeModel>)
      reads this
      ensures forall m :: m in r <==> m in bikeModels && m.userId == userId
    {
      var p := (bm: BikeModel) => bm.userId == userId;
      FilterMembers(bikeModels, p);
      Filter(bikeModels, p)
    }

    /** `get_pending_bikes`. */
    function GetPendingBikes(): (r: seq<BikeModel>)
      reads this
      ensures forall m :: m in r <==> m in bikeModels && m.status == Pending
    {
      var p := (bm: BikeModel) => bm.status == Pending;
      FilterMembers(bikeModels, p);
      Filter(bikeModels, p)
    }

    /** `set_bike_visibility`: the first model with that id becomes public
        or private and is marked moderated; an unknown id is an error. */
    method SetBikeVisibility(bikeId: int, isPublic: bool) returns (reply: Reply)
      requires Valid()
      modifies this
      ensures Valid()
      ensures var i := First(old(bikeModels), (bm: BikeModel) => bm.id == bikeId);
        (i.None? ==> reply == Failure(BikeNotFound) && bikeModels == old(bikeModels)) &&
        (i.Some? ==> (reply == Done &&
          bikeModels == old(bikeModels)[i.value := old(bikeModels[i.value]).(status := (if isPublic then Public else Private), isModerated := true)]))
      ensures users == old(users) && bikeSizes == old(bikeSizes) && anthropometry == old(anthropometry)
      ensures fitSettings == old(fitSettings) && counters == old(counters)
    {
      var found := First(bikeModels, (bm: BikeModel) => bm.id == bikeId);
      if found.None? {
        return Failure(BikeNotFound);
      }
      var i := found.value;
      var m := bikeModels[i].(status := if isPublic then Public else Private, isModerated := true);
      ReplaceIncreasing(bikeModels, i, m, (m: BikeModel) => m.id);
      ReplaceDistinct(bikeModels, i, m, (m: BikeModel) => (m.userId, m.model));
      bikeModels := bikeModels[i := m];
      reply := Done;
    }

    /** `set_bike_pending`: only the user's own model with that id is sent
        to moderation. */
    method SetBikePending(bikeId: int, userId: int) returns (reply: Reply)
      requires Valid()
      modifies this
      ensures Valid()
      ensures var i := First(old(bikeModels), (bm: BikeModel) => bm.id == bikeId && bm.userId == userId);
        (i.None? ==> reply == Failure(BikeNotFound) && bikeModels == old(bikeModels)) &&
        (i.Some? ==> reply == Done && bikeModels == old(bikeModels)[i.value := old(bikeModels[i.value]).(status := Pending)])
      ensures users == old(users) && bikeSizes == old(bikeSizes) && anthropometry == old(anthropometry)
      ensures fitSettings == old(fitSettings) && counters == old(counters)
    {
      var found := First(bikeModels, (bm: BikeModel) => bm.id == bikeId && bm.userId == userId);
      if found.None? {
        return Failure(BikeNotFound);
      }
      var i := found.value;
      var m := bikeModels[i].(status := Pending);
      ReplaceIncreasing(bikeModels, i, m, (m: BikeModel) => m.id);
      ReplaceDistinct(bikeModels, i, m, (m: BikeModel) => (m.userId, m.model));
      bikeModels := bikeModels[i := m];
      reply := Done;
    }

    /** `delete_user_bike`: removes the model only when both its id and its
        owner match; its size rows stay. */
    method DeleteUserBike(userId: int, bikeId: int) returns (reply: Reply)
      requires Valid()
      modifies this
      ensures Valid() && reply == Done
      ensures forall m :: m in bikeModels <==> m in old(bikeModels) && !(m.id == bikeId && m.userId == userId)
      ensures bikeModels == Filter(old(bikeModels), (bm: BikeModel) => !(bm.id == bikeId && bm.userId == userId))
      ensures users == old(users) && bikeSizes == old(bikeSizes) && anthropometry == old(anthropometry)
      ensures fitSettings == old(fitSettings) && counters == old(counters)
    {
      var keep := (bm: BikeModel) => !(bm.id == bikeId && bm.userId == userId);
      FilterIncreasing(bikeModels, keep, (m: BikeModel) => m.id);
      FilterDistinct(bikeModels, keep, (m: BikeModel) => (m.userId, m.model));
      FilterMembers(bikeModels, keep);
      bikeModels := Filter(bikeModels, keep);
      reply := Done;
    }

    /** The size entries of a model, in table order. */
    function SizeEntries(modelId: int): seq<Record>
      reads this
    {
      Filter(bikeSizes, (bs: Record) => PyEq(Get(bs, "bike_model_id"), Int(modelId)))
    }

    /** The sort key of an entry: "seatTube" of the first row with the
        entry's id, 0 when the row has none. */
    function SeatTubeOf(id: Value): Value
      reads this
    {
      match First(bikeSizes, (bs: Record) => PyEq(Get(bs, "id"), id))
      case Some(i) => if "seatTube" in bikeSizes[i] then bikeSizes[i]["seatTube"] else Int(0)
      case None => Int(0)
    }

    /** The entries with their numeric keys; None when a key is not a number. */
    function KeyedEntries(rows: seq<Record>): (r: Option<seq<Keyed>>)
      reads this
      ensures r.Some? ==> Unkeyed(r.value) == Entries(rows)
    {
      if rows == [] then Some([])
      else
        var last := rows[|rows| - 1];
        var v := SeatTubeOf(Get(last, "id"));
        match KeyedEntries(rows[..|rows| - 1])
        case None => None
        case Some(ks) => if IsNumber(v) then Some(ks + [Keyed(Get(last, "size"), Get(last, "id"), Num(v))]) else None
    }

    /** `get_bike_sizes`: the model's sizes ordered by "seatTube" (default
        0), equal keys in table order. Comparing a key that is not a number
        raises, and the operation then answers []; fewer than two entries
        are never compared. */
    function GetBikeSizes(modelId: int): (r: seq<SizeEntry>)
      reads this
      // Either the failure answer [] or the model's entries, reordered.
      ensures r == [] || multiset(r) == multiset(Entries(SizeEntries(modelId)))
      // A model with entries whose keys are all numbers gets them all back.
      ensures KeyedEntries(SizeEntries(modelId)).Some? ==> multiset(r) == multiset(Entries(SizeEntries(modelId)))
    {
      var rows := SizeEntries(modelId);
      if |rows| < 2 then Entries(rows)
      else
        match KeyedEntries(rows)
        case None => []
        case Some(ks) =>
          SortByKeyPermutes(ks);
          UnkeyedPermutes(SortByKey(ks), ks);
          Unkeyed(SortByKey(ks))
    }

    /** When every key is a number, the answer is the model's entries
        reordered so that their "seatTube" values never decrease, entries
        with equal values keeping their order as Python's stable `sorted`
        does. */
    lemma BikeSizesOrdered(modelId: int)
      requires KeyedEntries(SizeEntries(modelId)).Some?
      ensures var ks := KeyedEntries(SizeEntries(modelId)).value;
        exists sorted :: SortedByKey(sorted) && multiset(sorted) == multiset(ks) && GetBikeSizes(modelId) == Unkeyed(sorted) &&
          forall k :: WithKey(sorted, k) == WithKey(ks, k)
    {
      var ks := KeyedEntries(SizeEntries(modelId)).value;
      if |SizeEntries(modelId)| < 2 {
        assert SortedByKey(ks);
      } else {
        SortByKeySorts(ks);
        forall k
          ensures WithKey(SortByKey(ks), k) == WithKey(ks, k)
        {
          SortByKeyStable(ks, k);
        }
        assert GetBikeSizes(modelId) == Unkeyed(SortByKey(ks));
      }
    }

    /** Model i is the first one (of any user) named `model`. */
    predicate FirstNamed(i: int, model: Value)
      reads this
    {
      0 <= i < |bikeModels| && PyEq(bikeModels[i].model, model) &&
      forall j :: 0 <= j < i ==> !PyEq(bikeModels[j].model, model)
    }

    /** `get_bike_size_id`: the id of the first size row of the first model
        named `model` that carries that size label; None when no model has
        that name or that model has no such size. */
    function GetBikeSizeId(model: Value, size: Value): (r: Option<Value>)
      reads this
      ensures r.Some? ==>
        exists i, s :: FirstNamed(i, model) && 0 <= s < |bikeSizes| &&
          SameSize(bikeSizes[s], Int(bikeModels[i].id), size) && r.value == Get(bikeSizes[s], "id") &&
          forall t :: 0 <= t < s ==> !SameSize(bikeSizes[t], Int(bikeModels[i].id), size)
      ensures forall i, s :: FirstNamed(i, model) && 0 <= s < |bikeSizes| && SameSize(bikeSizes[s], Int(bikeModels[i].id), size) ==> r.Some?
      ensures (forall i :: 0 <= i < |bikeModels| ==> !PyEq(bikeModels[i].model, model)) ==> r.None?
    {
      match First(bikeModels, (bm: BikeModel) => PyEq(bm.model, model))
      case None => None
      case Some(m) =>
        var modelId := bikeModels[m].id;
        assert FirstNamed(m, model);
        match First(bikeSizes, (bs: Record) => SameSize(bs, Int(modelId), size))
        case None =>
          assert forall i :: FirstNamed(i, model) ==> i == m;
          None
        case Some(s) => Some(Get(bikeSizes[s], "id"))
    }

    // -------------------------------------------------------------------
    // Anthropometry

    /** `add_user_anthropometry`: one row of id, user, the data and the
        creation time, later keys overriding earlier ones. */
    method AddUserAnthropometry(userId: int, data: Record, now: int) returns (reply: Reply)
      requires Valid()
      modifies this
      ensures Valid() && reply == Done
      ensures anthropometry == old(anthropometry) +
        [map["id" := Int(old(counters[Anthropometry])), "user_id" := Int(userId)] + data + map["created_at" := Int(now)]]
      ensures counters == old(counters)[Anthropometry := old(counters[Anthropometry]) + 1]
      ensures users == old(users) && bikeModels == old(bikeModels) && bikeSizes == old(bikeSizes) && fitSettings == old(fitSettings)
    {
      var id := NextId(Anthropometry);
      var row := map["id" := Int(id), "user_id" := Int(userId)] + data + map["created_at" := Int(now)];
      assert "user_id" in row;
      anthropometry := anthropometry + [row];
      reply := Done;
    }

    /** The user's rows, in table order. */
    function UserAnthropometry(userId: int): (r: seq<Record>)
      reads this
      ensures forall a :: a in r <==> a in anthropometry && PyEq(Get(a, "user_id"), Int(userId))
    {
      var p := (a: Record) => PyEq(Get(a, "user_id"), Int(userId));
      FilterMembers(anthropometry, p);
      Filter(anthropometry, p)
    }

    /** `get_latest_user_anthropometry`: None for a user without rows;
        otherwise the row with the latest creation time (the first of
        equals) without its id, user and time. */
    function GetLatestUserAnthropometry(userId: int): (r: Option<Record>)
      reads this
      ensures r.None? <==> UserAnthropometry(userId) == []
      ensures r.Some? ==> "id" !in r.value && "user_id" !in r.value && "created_at" !in r.value
      ensures r.Some? ==> var rows := UserAnthropometry(userId);
        exists k :: 0 <= k < |rows| && r.value == rows[k] - {"id", "user_id", "created_at"} &&
          (forall j :: 0 <= j < |rows| ==> CreatedAt(rows[j]) <= CreatedAt(rows[k])) &&
          (forall j :: 0 <= j < k ==> CreatedAt(rows[j]) < CreatedAt(rows[k]))
    {
      var rows := UserAnthropometry(userId);
      if rows == [] then None
      else
        var k := LatestIndex(rows, CreatedAt);
        LatestIndexIsFirstMax(rows, CreatedAt);
        Some(rows[k] - {"id", "user_id", "created_at"})
    }

    // -------------------------------------------------------------------
    // Fits

    /** `save_fit_settings`: the id is drawn before the settings are read,
        so a missing key still consumes one and stores nothing. */
    method SaveFitSettings(userId: int, data: Record, now: int) returns (reply: Reply)
      requires Valid()
      modifies this
      ensures Valid()
      ensures counters == old(counters)[FitSettings := old(counters[FitSettings]) + 1]
      ensures FitKeys <= data.Keys ==>
        reply == Done && fitSettings == old(fitSettings) + [FitOf(old(counters[FitSettings]), userId, data, now)]
      ensures !(FitKeys <= data.Keys) ==> reply == Failure(SaveFitFailed) && fitSettings == old(fitSettings)
      ensures users == old(users) && bikeModels == old(bikeModels) && bikeSizes == old(bikeSizes) && anthropometry == old(anthropometry)
    {
      var id := NextId(FitSettings);
      if !(FitKeys <= data.Keys) {
        return Failure(SaveFitFailed);
      }
      var fit := FitOf(id, userId, data, now);
      AppendedKeepsFits(fitSettings, fit, counters[FitSettings] - 1);
      fitSettings := fitSettings + [fit];
      reply := Done;
    }

    /** `get_fit_by_name`: the first fit of that name for that size, of any
        user. */
    function GetFitByName(fitName: Value, sizeId: Value): (r: Option<Fit>)
      reads this
      ensures r.Some? ==> r.value in fitSettings && PyEq(r.value.name, fitName) && PyEq(r.value.bikeId, sizeId)
      ensures r.None? <==> forall i :: 0 <= i < |fitSettings| ==> !(PyEq(fitSettings[i].name, fitName) && PyEq(fitSettings[i].bikeId, sizeId))
    {
      match First(fitSettings, (fs: Fit) => PyEq(fs.name, fitName) && PyEq(fs.bikeId, sizeId))
      case Some(i) => Some(fitSettings[i])
      case None => None
    }

    /** `get_user_fits`: the names of the user's fits for that size, in
        table order. */
    function GetUserFits(userId: int, sizeId: Value): (r: seq<Value>)
      reads this
      ensures forall n :: n in r <==> exists i :: 0 <= i < |fitSettings| && fitSettings[i].userId == userId && PyEq(fitSettings[i].bikeId, sizeId) && fitSettings[i].name == n
    {
      var p := (fs: Fit) => fs.userId == userId && PyEq(fs.bikeId, sizeId);
      NamesOfFilter(fitSettings, p);
      Names(Filter(fitSettings, p))
    }

    /** `delete_fit`: drops exactly the user's fits of that name and size. */
    method DeleteFit(userId: int, fitName: Value, sizeId: Value) returns (reply: Reply)
      requires Valid()
      modifies this
      ensures Valid() && reply == Done
      ensures forall f :: f in fitSettings <==> f in old(fitSettings) && !(f.userId == userId && PyEq(f.name, fitName) && PyEq(f.bikeId, sizeId))
      ensures fitSettings == Filter(old(fitSettings), (fs: Fit) => !(fs.userId == userId && PyEq(fs.name, fitName) && PyEq(fs.bikeId, sizeId)))
      ensures users == old(users) && bikeModels == old(bikeModels) && bikeSizes == old(bikeSizes)
      ensures anthropometry == old(anthropometry) && counters == old(counters)
    {
      var keep := (fs: Fit) => !(fs.userId == userId && PyEq(fs.name, fitName) && PyEq(fs.bikeId, sizeId));
      FilterIncreasing(fitSettings, keep, (f: Fit) => f.id);
      FilterMembers(fitSettings, keep);
      fitSettings := Filter(fitSettings, keep);
      reply := Done;
    }
  }

  /** The keys `save_fit_settings` reads. */
  const FitKeys: set<string> := {"size_id", "name", "seatHight", "stemHight", "saddleOffset", "torsoAngle", "shifterAngle"}

  /** The fit row `save_fit_settings` stores. */
  function FitOf(id: nat, userId: int, data: Record, now: int): Fit
    requires FitKeys <= data.Keys
  {
    Fit(id, userId, data["size_id"], data["name"], data["seatHight"], data["stemHight"],
        data["saddleOffset"], data["torsoAngle"], data["shifterAngle"], now)
  }

  function Names(fits: seq<Fit>): (r: seq<Value>)
    ensures |r| == |fits| && forall i :: 0 <= i < |fits| ==> r[i] == fits[i].name
  {
    if fits == [] then [] else Names(fits[..|fits| - 1]) + [fits[|fits| - 1].name]
  }

  lemma NamesMembers(fits: seq<Fit>)
    ensures forall n :: n in Names(fits) <==> exists f :: f in fits && f.name == n
  {
    var r := Names(fits);
    forall n | n in r
      ensures exists f :: f in fits && f.name == n
    {
      var i :| 0 <= i < |r| && r[i] == n;
      assert fits[i] in fits;
    }
    forall n | exists f :: f in fits && f.name == n
      ensures n in r
    {
      var f :| f in fits && f.name == n;
      var i :| 0 <= i < |fits| && fits[i] == f;
      assert r[i] == n;
    }
  }

  /** The names of the fits a filter keeps are the names of the fits
      satisfying its test. */
  lemma NamesOfFilter(fits: seq<Fit>, p: Fit -> bool)
    ensures forall n :: n in Names(Filter(fits, p)) <==> exists i :: 0 <= i < |fits| && p(fits[i]) && fits[i].name == n
  {
    var f := Filter(fits, p);
    FilterMembers(fits, p);
    NamesMembers(f);
    forall n | n in Names(f)
      ensures exists i :: 0 <= i < |fits| && p(fits[i]) && fits[i].name == n
    {
      var g :| g in f && g.name == n;
      var i :| 0 <= i < |fits| && fits[i] == g;
    }
  }

  // ---------------------------------------------------------------------
  // What the size upsert does.

  /** With a row of the same model and size, the upsert rewrites that row
      only: every geometry key but the model and size takes the new value,
      and the row keeps its model, size and any key the geometry lacks. */
  lemma UpsertExisting(rows: seq<Record>, geometry: Record, size: Value, freshId: nat, now: int)
    requires SizeRowOf(rows, Get(geometry, "bike_model_id"), size).Some?
    ensures var i := SizeRowOf(rows, Get(geometry, "bike_model_id"), size).value;
      var r := Upsert(rows, geometry, size, freshId, now);
      |r| == |rows| &&
      (forall j :: 0 <= j < |rows| && j != i ==> r[j] == rows[j]) &&
      SizeKey(r[i]) == SizeKey(rows[i]) &&
      (forall k :: k in geometry && k != "bike_model_id" && k != "size" ==> k in r[i] && r[i][k] == geometry[k]) &&
      (forall k :: k in rows[i] && k !in geometry ==> k in r[i] && r[i][k] == rows[i][k])
  {
  }

  /** Without one, exactly one row is appended: the geometry with the
      fresh id (unless the geometry brings its own) and the creation time. */
  lemma UpsertNew(rows: seq<Record>, geometry: Record, size: Value, freshId: nat, now: int)
    requires SizeRowOf(rows, Get(geometry, "bike_model_id"), size).None?
    ensures var r := Upsert(rows, geometry, size, freshId, now);
      |r| == |rows| + 1 && r[..|rows|] == rows &&
      r[|rows|]["created_at"] == Int(now) &&
      ("id" !in geometry ==> r[|rows|]["id"] == Int(freshId)) &&
      (forall k :: k in geometry && k != "created_at" ==> k in r[|rows|] && r[|rows|][k] == geometry[k])
  {
  }

  /** The `{"size", "id"}` entry of a size row. */
  function Entry(row: Record): SizeEntry
  {
    SizeEntry(Get(row, "size"), Get(row, "id"))
  }

  function Entries(rows: seq<Record>): (r: seq<SizeEntry>)
    ensures |r| == |rows| && forall i :: 0 <= i < |rows| ==> r[i] == Entry(rows[i])
  {
    if rows == [] then [] else Entries(rows[..|rows| - 1]) + [Entry(rows[|rows| - 1])]
  }

  function Unkeyed(ks: seq<Keyed>): (r: seq<SizeEntry>)
    ensures |r| == |ks| && forall i :: 0 <= i < |ks| ==> r[i] == SizeEntry(ks[i].size, ks[i].id)
  {
    seq(|ks|, i requires 0 <= i < |ks| => SizeEntry(ks[i].size, ks[i].id))
  }

  /** Reordering keyed entries reorders the entries they carry. */
  lemma {:induction false} UnkeyedPermutes(a: seq<Keyed>, b: seq<Keyed>)
    requires multiset(a) == multiset(b)
    ensures multiset(Unkeyed(a)) == multiset(Unkeyed(b))
    decreases |a|
  {
    if a == [] {
      assert |b| == |multiset(b)| == 0;
    } else {
      var n := |a| - 1;
      assert a[n] in multiset(b);
      var j :| 0 <= j < |b| && b[j] == a[n];
      var rest := b[..j] + b[j + 1..];
      PermutesWithout(a, b, j);
      UnkeyedPermutes(a[..n], rest);
      UnkeyedConcat(a[..n], [a[n]]);
      assert a[..n] + [a[n]] == a;
      UnkeyedWithout(b, j);
    }
  }

  /** Taking the last element from one side and an equal element from the
      other keeps two sequences permutations of each other. */
  lemma PermutesWithout(a: seq<Keyed>, b: seq<Keyed>, j: nat)
    requires multiset(a) == multiset(b) && |a| > 0 && j < |b| && b[j] == a[|a| - 1]
    ensures multiset(a[..|a| - 1]) == multiset(b[..j] + b[j + 1..])
  {
    var n := |a| - 1;
    assert multiset(a) == multiset(a[..n]) + multiset{a[n]} by {
      assert a == a[..n] + [a[n]];
    }
    assert multiset(b) == multiset(b[..j] + b[j + 1..]) + multiset{b[j]} by {
      assert b == b[..j] + [b[j]] + b[j + 1..];
    }
    forall y
      ensures multiset(a[..n])[y] == multiset(b[..j] + b[j + 1..])[y]
    {
      assert multiset(a)[y] == multiset(b)[y];
    }
  }

  /** The entries of b are those of b without its j-th element, plus that
      element's entry. */
  lemma UnkeyedWithout(b: seq<Keyed>, j: nat)
    requires j < |b|
    ensures multiset(Unkeyed(b)) == multiset(Unkeyed(b[..j] + b[j + 1..])) + multiset(Unkeyed([b[j]]))
  {
    UnkeyedAround(b, j);
    UnkeyedConcat(b[..j], b[j + 1..]);
    MultisetSplit(Unkeyed(b[..j]), Unkeyed([b[j]]), Unkeyed(b[j + 1..]));
  }

  lemma UnkeyedAround(b: seq<Keyed>, j: nat)
    requires j < |b|
    ensures Unkeyed(b) == Unkeyed(b[..j]) + Unkeyed([b[j]]) + Unkeyed(b[j + 1..])
  {
    var l, r := Unkeyed(b), Unkeyed(b[..j]) + Unkeyed([b[j]]) + Unkeyed(b[j + 1..]);
    assert |l| == |r|;
    forall i | 0 <= i < |l|
      ensures l[i] == r[i]
    {
      if i < j {
        assert r[i] == Unkeyed(b[..j])[i];
      } else if i == j {
        assert r[i] == Unkeyed([b[j]])[0];
      } else {
        assert r[i] == Unkeyed(b[j + 1..])[i - j - 1];
      }
    }
  }

  lemma MultisetSplit<T>(front: seq<T>, one: seq<T>, back: seq<T>)
    ensures multiset(front + one + back) == multiset(front + back) + multiset(one)
  {
  }

  lemma UnkeyedConcat(p: seq<Keyed>, q: seq<Keyed>)
    ensures Unkeyed(p + q) == Unkeyed(p) + Unkeyed(q)
  {
    var l, r := Unkeyed(p + q), Unkeyed(p) + Unkeyed(q);
    assert |l| == |r|;
    forall i | 0 <= i < |l|
      ensures l[i] == r[i]
    {
      if i < |p| {
        assert (p + q)[i] == p[i];
      } else {
        assert (p + q)[i] == q[i - |p|];
      }
    }
  }

  // ---------------------------------------------------------------------
  // Appending a fresh row keeps each table's invariant.

  lemma AppendedKeepsUsers(users: seq<User>, u: User, next: nat)
    requires UsersOk(users, next) && u.id == next && next >= 1
    requires forall i :: 0 <= i < |users| ==> users[i].username != u.username
    ensures UsersOk(users + [u], next + 1)
  {
    var t := users + [u];
    forall i, j | 0 <= i < j < |t|
      ensures t[i].id < t[j].id && t[i].username != t[j].username
    {
      if j < |users| {
        assert t[i] == users[i] && t[j] == users[j];
      }
    }
  }

  lemma AppendedKeepsModels(models: seq<BikeModel>, m: BikeModel, next: nat)
    requires ModelsOk(models, next) && m.id == next && next >= 1
    requires forall i :: 0 <= i < |models| ==> !(models[i].userId == m.userId && models[i].model == m.model)
    ensures ModelsOk(models + [m], next + 1)
  {
    var t := models + [m];
    forall i, j | 0 <= i < j < |t|
      ensures t[i].id < t[j].id && (t[i].userId, t[i].model) != (t[j].userId, t[j].model)
    {
      if j < |models| {
        assert t[i] == models[i] && t[j] == models[j];
      }
    }
  }

  lemma AppendedKeepsSizes(rows: seq<Record>, row: Record)
    requires SizesOk(rows) && SizeRowOk(row)
    requires forall i :: 0 <= i < |rows| ==> SizeKey(rows[i]) != SizeKey(row)
    ensures SizesOk(rows + [row])
  {
    var t := rows + [row];
    forall i, j | 0 <= i < j < |t|
      ensures SizeKey(t[i]) != SizeKey(t[j])
    {
      if j < |rows| {
        assert t[i] == rows[i] && t[j] == rows[j];
      }
    }
  }

  lemma AppendedKeepsFits(fits: seq<Fit>, f: Fit, next: nat)
    requires FitsOk(fits, next) && f.id == next && next >= 1
    ensures FitsOk(fits + [f], next + 1)
  {
    var t := fits + [f];
    forall i, j | 0 <= i < j < |t|
      ensures t[i].id < t[j].id
    {
      if j < |fits| {
        assert t[i] == fits[i] && t[j] == fits[j];
      }
    }
  }
}
