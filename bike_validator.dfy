// The bike validators of app/validators/bike_validator.py: the range check
// of every size of a bike (which also writes defaults and converted
// numbers back into the size dictionaries) and the model-name check.
module BikeValidator {
  import opened Wrappers
  import opened PyValues
  import opened Validation

  /** One row of `param_ranges`. */
  datatype Limit = Limit(name: string, min: real, max: real)

  /** The geometry parameters and their ranges, in the order the loop
      visits them. */
  const ParamRanges: seq<Limit> := [
    Limit("stack", 400.0, 700.0),
    Limit("reach", 300.0, 500.0),
    Limit("seatTube", 300.0, 700.0),
    Limit("seatAngle", 65.0, 80.0),
    Limit("headTube", 80.0, 300.0),
    Limit("headAngle", 65.0, 75.0),
    Limit("chainstay", 350.0, 500.0),
    Limit("wheelbase", 900.0, 1300.0),
    Limit("bbdrop", 50.0, 100.0),
    Limit("crankLen", 160.0, 180.0),
    Limit("stemLen", 60.0, 150.0),
    Limit("rimD", 500.0, 650.0),
    Limit("tyreW", 20.0, 60.0),
    Limit("stemAngle", -20.0, 20.0),
    Limit("barReach", 60.0, 120.0),
    Limit("barDrop", 100.0, 150.0),
    Limit("saddleLen", 240.0, 300.0),
    Limit("minStemHight", 0.0, 100.0),
    Limit("maxStemHight", 0.0, 200.0),
    Limit("shifterReach", 60.0, 100.0),
    Limit("saddleRailLen", 30.0, 60.0),
    Limit("saddleHeight", 20.0, 50.0),
    Limit("minseatpostLen", 0.0, 200.0),
    Limit("maxseatpostLen", 100.0, 250.0)
  ]

  /** `optional_defaults`: the value written for a missing optional
      parameter. */
  function OptionalDefault(param: string): Option<int>
  {
    if param == "minStemHight" then Some(30)
    else if param == "maxStemHight" then Some(70)
    else if param == "shifterReach" then Some(50)
    else if param == "saddleRailLen" then Some(60)
    else if param == "saddleHeight" then Some(50)
    else if param == "minseatpostLen" then Some(50)
    else if param == "maxseatpostLen" then Some(250)
    else None
  }

  function DigitChar(d: nat): char
    requires d < 10
  {
    "0123456789"[d]
  }

  /** `str(n)` for a natural number. */
  function NatToString(n: nat): (s: string)
    ensures s != []
  {
    if n < 10 then [DigitChar(n)] else NatToString(n / 10) + [DigitChar(n % 10)]
  }

  /** The error field of a parameter of the size at idx: the bare name for
      the first size, `param_idx` for the others. */
  function FieldName(param: string, idx: nat): string
  {
    if idx > 0 then param + "_" + NatToString(idx) else param
  }

  /** A value counts as missing when it is None or "". */
  predicate Blank(v: Value)
  {
    v == Null || v == Str("")
  }

  /** One parameter of one size: the size as the loop leaves it and the
      errors it reports. */
  function CheckParam(bike: Record, lim: Limit, idx: nat, parse: string -> Option<real>): (Record, seq<FieldError>)
  {
    var value := Get(bike, lim.name);
    if Blank(value) && OptionalDefault(lim.name).Some? then
      (bike[lim.name := Int(OptionalDefault(lim.name).value)], [])
    else if Blank(value) then
      (bike, [])
    else
      match ToFloat(value, parse)
      case None => (bike, [FieldError(FieldName(lim.name, idx), NotNumber)])
      case Some(x) =>
        (bike[lim.name := Float(x)],
         if x < lim.min then [FieldError(FieldName(lim.name, idx), BelowMin(lim.min))]
         else if x > lim.max then [FieldError(FieldName(lim.name, idx), AboveMax(lim.max))]
         else [])
  }

  /** The parameters ls of one size, in order. */
  function CheckParams(bike: Record, ls: seq<Limit>, idx: nat, parse: string -> Option<real>): (Record, seq<FieldError>)
  {
    if ls == [] then (bike, [])
    else
      var before := CheckParams(bike, ls[..|ls| - 1], idx, parse);
      var step := CheckParam(before.0, ls[|ls| - 1], idx, parse);
      (step.0, before.1 + step.1)
  }

  /** The min-above-max check of two shared parameters, reported under the
      unindexed name of the lower one; values that do not convert are
      skipped. */
  function OrderErrors(bike: Record, lo: string, hi: string, parse: string -> Option<real>): seq<FieldError>
  {
    if Get(bike, lo) != Null && Get(bike, hi) != Null then
      var a, b := ToFloat(Get(bike, lo), parse), ToFloat(Get(bike, hi), parse);
      if a.Some? && b.Some? && a.value > b.value then [FieldError(lo, MinAboveMax)] else []
    else []
  }

  /** One size: its parameters, then the stem-height and seat-post checks. */
  function CheckSize(bike: Record, ranges: seq<Limit>, idx: nat, parse: string -> Option<real>): (Record, seq<FieldError>)
  {
    var p := CheckParams(bike, ranges, idx, parse);
    (p.0, p.1 + OrderErrors(p.0, "minStemHight", "maxStemHight", parse) + OrderErrors(p.0, "minseatpostLen", "maxseatpostLen", parse))
  }

  /** The sizes as the loop leaves them. */
  function SizesOut(bikes: seq<Record>, ranges: seq<Limit>, parse: string -> Option<real>): (r: seq<Record>)
    ensures |r| == |bikes|
    ensures forall i :: 0 <= i < |bikes| ==> r[i] == CheckSize(bikes[i], ranges, i, parse).0
  {
    if bikes == [] then []
    else SizesOut(bikes[..|bikes| - 1], ranges, parse) + [CheckSize(bikes[|bikes| - 1], ranges, |bikes| - 1, parse).0]
  }

  /** The errors of the sizes, in order. */
  function SizesErrors(bikes: seq<Record>, ranges: seq<Limit>, parse: string -> Option<real>): seq<FieldError>
  {
    if bikes == [] then []
    else SizesErrors(bikes[..|bikes| - 1], ranges, parse) + CheckSize(bikes[|bikes| - 1], ranges, |bikes| - 1, parse).1
  }

  /** The Python code calls `.strip()` on a size's "size" and `.get` on each
      size: every size is a dictionary whose "size", when present, is a
      string. */
  predicate SizeShaped(v: Value)
  {
    v.Dict? && ("size" in v.entries ==> v.entries["size"].Str?)
  }

  /** Every error `validate_bike_data` reports, in order. */
  function BikeErrors(bikes: Value, parse: string -> Option<real>): seq<FieldError>
    requires bikes.List? ==> forall i :: 0 <= i < |bikes.items| ==> SizeShaped(bikes.items[i])
  {
    if !Truthy(bikes) || !bikes.List? then [FieldError("data", MissingData)]
    else SizesErrors(Entries(bikes.items), ParamRanges, parse)
  }

  /** The dictionaries of a list of sizes (a non-dictionary reads as an
      empty one; the Python code requires dictionaries). */
  function Entries(items: seq<Value>): (r: seq<Record>)
    ensures |r| == |items| && forall i :: 0 <= i < |items| && items[i].Dict? ==> Dict(r[i]) == items[i]
  {
    if items == [] then []
    else [if items[0].Dict? then items[0].entries else map[]] + Entries(items[1..])
  }

  function Dicts(rs: seq<Record>): (r: seq<Value>)
    ensures |r| == |rs| && forall i :: 0 <= i < |rs| ==> r[i] == Dict(rs[i])
  {
    if rs == [] then [] else [Dict(rs[0])] + Dicts(rs[1..])
  }

  /** `validate_bike_data`. The sizes are dictionaries the Python code rewrites
      in place; `sizes` is the list as the loop leaves it, which the caller
      sees whatever the outcome. */
  method ValidateBikeData(bikes: Value, parse: string -> Option<real>) returns (r: ValidationResult, sizes: Value)
    requires bikes.List? ==> forall i :: 0 <= i < |bikes.items| ==> SizeShaped(bikes.items[i])
    ensures fresh(r) && r.Valid()
    ensures r.errors == BikeErrors(bikes, parse)
    ensures sizes == if !Truthy(bikes) || !bikes.List? then bikes else List(Dicts(SizesOut(Entries(bikes.items), ParamRanges, parse)))
    ensures r.data == if r.isValid then sizes else Dict(map[])
  {
    r := new ValidationResult();
    sizes := bikes;
    if !Truthy(bikes) || !bikes.List? {
      r.AddError("data", MissingData);
      return;
    }
    // The Python code's `len(bikes) == 0` branch follows; a truthy list is never
    // empty, so it cannot fire.
    var done := CheckSizesOf(r, Entries(bikes.items), ParamRanges, parse);
    sizes := List(Dicts(done));
    if r.isValid {
      r.data := sizes;
    }
  }

  /** The loop over the sizes. */
  method CheckSizesOf(r: ValidationResult, all: seq<Record>, ranges: seq<Limit>, parse: string -> Option<real>) returns (done: seq<Record>)
    requires r.Valid()
    modifies r
    ensures r.Valid() && r.data == old(r.data)
    ensures done == SizesOut(all, ranges, parse) && r.errors == old(r.errors) + SizesErrors(all, ranges, parse)
  {
    done := [];
    ghost var e0 := r.errors;
    for idx := 0 to |all|
      invariant r.Valid() && r.data == old(r.data)
      invariant |done| == idx && forall i :: 0 <= i < idx ==> done[i] == CheckSize(all[i], ranges, i, parse).0
      invariant r.errors == e0 + SizesErrors(all[..idx], ranges, parse)
    {
      assert all[..idx + 1][..idx] == all[..idx];
      ghost var before := SizesErrors(all[..idx], ranges, parse);
      var bike := CheckSizeOf(r, all[idx], ranges, idx, parse);
      ghost var step := CheckSize(all[idx], ranges, idx, parse).1;
      assert SizesErrors(all[..idx + 1], ranges, parse) == before + step;
      Assoc(e0, before, step);
      done := done + [bike];
    }
    assert all[..|all|] == all;
    assert done == SizesOut(all, ranges, parse);
  }

  /** The body of the loop over the sizes. */
  method CheckSizeOf(r: ValidationResult, bike0: Record, ranges: seq<Limit>, idx: nat, parse: string -> Option<real>) returns (bike: Record)
    requires r.Valid()
    modifies r
    ensures r.Valid() && r.data == old(r.data)
    ensures bike == CheckSize(bike0, ranges, idx, parse).0 && r.errors == old(r.errors) + CheckSize(bike0, ranges, idx, parse).1
  {
    bike := CheckParamsOf(r, bike0, ranges, idx, parse);
    CheckOrder(r, bike, "minStemHight", "maxStemHight", parse);
    CheckOrder(r, bike, "minseatpostLen", "maxseatpostLen", parse);
  }

  /** The inner loop over `param_ranges` for the size at idx. */
  method CheckParamsOf(r: ValidationResult, bike0: Record, ranges: seq<Limit>, idx: nat, parse: string -> Option<real>) returns (bike: Record)
    requires r.Valid()
    modifies r
    ensures r.Valid() && r.data == old(r.data)
    ensures bike == CheckParams(bike0, ranges, idx, parse).0
    ensures r.errors == old(r.errors) + CheckParams(bike0, ranges, idx, parse).1
  {
    bike := bike0;
    ghost var e0 := r.errors;
    for k := 0 to |ranges|
      invariant r.Valid() && r.data == old(r.data)
      invariant bike == CheckParams(bike0, ranges[..k], idx, parse).0
      invariant r.errors == e0 + CheckParams(bike0, ranges[..k], idx, parse).1
    {
      assert ranges[..k + 1][..k] == ranges[..k];
      bike := CheckParamOf(r, bike, ranges[k], idx, parse);
    }
    assert ranges[..|ranges|] == ranges;
  }

  /** One pass of the inner loop. */
  method CheckParamOf(r: ValidationResult, bike0: Record, lim: Limit, idx: nat, parse: string -> Option<real>) returns (bike: Record)
    requires r.Valid()
    modifies r
    ensures r.Valid() && r.data == old(r.data)
    ensures bike == CheckParam(bike0, lim, idx, parse).0 && r.errors == old(r.errors) + CheckParam(bike0, lim, idx, parse).1
  {
    bike := bike0;
    var value := Get(bike, lim.name);
    if Blank(value) && OptionalDefault(lim.name).Some? {
      bike := bike[lim.name := Int(OptionalDefault(lim.name).value)];
      return;
    }
    if !Blank(value) {
      var converted := ToFloat(value, parse);
      if converted.Some? {
        var x := converted.value;
        bike := bike[lim.name := Float(x)];
        if x < lim.min {
          r.AddError(FieldName(lim.name, idx), BelowMin(lim.min));
        } else if x > lim.max {
          r.AddError(FieldName(lim.name, idx), AboveMax(lim.max));
        }
      } else {
        r.AddError(FieldName(lim.name, idx), NotNumber);
      }
    }
  }

  method CheckOrder(r: ValidationResult, bike: Record, lo: string, hi: string, parse: string -> Option<real>)
    requires r.Valid()
    modifies r
    ensures r.Valid() && r.data == old(r.data)
    ensures r.errors == old(r.errors) + OrderErrors(bike, lo, hi, parse)
  {
    if Get(bike, lo) != Null && Get(bike, hi) != Null {
      var a, b := ToFloat(Get(bike, lo), parse), ToFloat(Get(bike, hi), parse);
      if a.Some? && b.Some? && a.value > b.value {
        r.AddError(lo, MinAboveMax);
      }
    }
  }

  // ---------------------------------------------------------------------
  // Properties of one size.

  /** A missing or blank optional parameter takes its default and reports
      nothing, even where the default lies outside the range (shifterReach
      defaults to 50 below its minimum of 60). */
  lemma DefaultsSkipRange(bike: Record, lim: Limit, idx: nat, parse: string -> Option<real>)
    requires Blank(Get(bike, lim.name)) && OptionalDefault(lim.name).Some?
    ensures CheckParam(bike, lim, idx, parse) == (bike[lim.name := Int(OptionalDefault(lim.name).value)], [])
  {
  }

  /** A missing required parameter is left alone and reports nothing. */
  lemma MissingRequiredIsSilent(bike: Record, lim: Limit, idx: nat, parse: string -> Option<real>)
    requires Blank(Get(bike, lim.name)) && OptionalDefault(lim.name).None?
    ensures CheckParam(bike, lim, idx, parse) == (bike, [])
  {
  }

  /** A present parameter reports exactly one error when it does not
      convert or lies outside its range, and none otherwise; a converted
      value is written back. */
  lemma PresentParamOneError(bike: Record, lim: Limit, idx: nat, parse: string -> Option<real>)
    requires !Blank(Get(bike, lim.name))
    ensures var x, s := ToFloat(Get(bike, lim.name), parse), CheckParam(bike, lim, idx, parse);
      |s.1| <= 1 &&
      (s.1 == [] <==> x.Some? && lim.min <= x.value <= lim.max) &&
      (x.Some? ==> s.0 == bike[lim.name := Float(x.value)]) &&
      (x.None? ==> s.0 == bike) &&
      forall e :: e in s.1 ==> e.field == FieldName(lim.name, idx)
  {
  }

  /** The names the sizes report under are distinct: the bare parameter
      name for the first size and `param_idx` for a later one never name
      two sizes alike. */
  lemma {:induction false} FieldNamesDistinct(param: string, i: nat, j: nat)
    ensures FieldName(param, i) == FieldName(param, j) ==> i == j
  {
    if FieldName(param, i) == FieldName(param, j) && i > 0 && j > 0 {
      var n := |param| + 1;
      assert NatToString(i) == FieldName(param, i)[n..];
      assert NatToString(j) == FieldName(param, j)[n..];
      NatToStringRoundTrip(i);
      NatToStringRoundTrip(j);
    }
  }

  /** Reading the digits back gives the number: `str` names each index
      uniquely. */
  function DigitsValue(s: string): int
  {
    if s == [] then 0 else DigitsValue(s[..|s| - 1]) * 10 + (s[|s| - 1] as int - '0' as int)
  }

  lemma {:induction false} NatToStringRoundTrip(n: nat)
    ensures DigitsValue(NatToString(n)) == n
  {
    if n >= 10 {
      var s := NatToString(n / 10) + [DigitChar(n % 10)];
      assert s[..|s| - 1] == NatToString(n / 10);
      NatToStringRoundTrip(n / 10);
    }
  }

  /** Every size passes exactly when each size's parameters and both order
      checks report nothing. */
  lemma {:induction false} SizesPass(bikes: seq<Record>, ranges: seq<Limit>, parse: string -> Option<real>)
    ensures SizesErrors(bikes, ranges, parse) == [] <==> forall i :: 0 <= i < |bikes| ==> CheckSize(bikes[i], ranges, i, parse).1 == []
  {
    if bikes != [] {
      var init, n := bikes[..|bikes| - 1], |bikes| - 1;
      SizesPass(init, ranges, parse);
      var last := CheckSize(bikes[n], ranges, n, parse).1;
      assert SizesErrors(bikes, ranges, parse) == SizesErrors(init, ranges, parse) + last;
      assert (forall i :: 0 <= i < |init| ==> CheckSize(init[i], ranges, i, parse).1 == []) <==>
        (forall i :: 0 <= i < n ==> CheckSize(bikes[i], ranges, i, parse).1 == []) by {
        assert forall i :: 0 <= i < |init| ==> init[i] == bikes[i];
      }
    }
  }

  // ---------------------------------------------------------------------
  // validate_bike_model

  /** What `validate_bike_model` reads without raising: a falsy value of
      any kind is reported before `.strip()` is called, which a truthy
      non-string lacks. */
  predicate ModelReadable(model: Value)
  {
    !Truthy(model) || model.Str?
  }

  /** Every error `validate_bike_model` reports. */
  function ModelErrors(model: Value): seq<FieldError>
    requires ModelReadable(model)
  {
    if !Truthy(model) || Strip(model.s) == [] then [FieldError("model", Required)]
    else if |Strip(model.s)| < 2 then [FieldError("model", TooShort(2))]
    else if |Strip(model.s)| > 100 then [FieldError("model", TooLong(100))]
    else []
  }

  /** A model name passes exactly when it has 2 to 100 characters once
      stripped. */
  lemma ModelAccepted(model: Value)
    requires ModelReadable(model)
    ensures ModelErrors(model) == [] <==> model.Str? && 2 <= |Strip(model.s)| <= 100
    ensures !Truthy(model) ==> ModelErrors(model) == [FieldError("model", Required)]
  {
  }

  /** `validate_bike_model`. */
  method ValidateBikeModel(model: Value) returns (r: ValidationResult)
    requires ModelReadable(model)
    ensures fresh(r) && r.Valid()
    ensures r.errors == ModelErrors(model)
    ensures r.data == if r.isValid then Dict(map["model" := Str(Strip(model.s))]) else Dict(map[])
  {
    r := new ValidationResult();
    if !Truthy(model) || Strip(model.s) == [] {
      r.AddError("model", Required);
      return;
    }
    var stripped := Strip(model.s);
    if |stripped| < 2 {
      r.AddError("model", TooShort(2));
    } else if |stripped| > 100 {
      r.AddError("model", TooLong(100));
    }
    if r.isValid {
      r.data := Dict(map["model" := Str(stripped)]);
    }
  }
}
