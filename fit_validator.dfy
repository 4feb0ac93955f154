// The request validators of app/validators/fit_validator.py: the
// anthropometry form (field limits in millimetres, then body proportions),
// the saved fit settings and the fit lookup request.
module FitValidator {
  import opened Wrappers
  import opened PyValues
  import opened Validation

  /** One row of the `fields` table: the key and its limits. */
  datatype Limit = Limit(name: string, min: real, max: real)

  /** The anthropometric fields, in the order the loop visits them. */
  const AnthroFields: seq<Limit> := [
    Limit("height", 100.0, 250.0),
    Limit("footLength", 200.0, 400.0),
    Limit("hip", 300.0, 800.0),
    Limit("lowerLeg", 300.0, 800.0),
    Limit("torsoMax", 400.0, 1000.0),
    Limit("upperarm", 200.0, 500.0),
    Limit("forearm", 200.0, 500.0)
  ]

  /** The basic check of one field: missing, not a positive number, below
      its minimum, above its maximum — the first that applies. */
  function BasicError(v: Value, lim: Limit): Option<Reason>
  {
    if v == Null then Some(Required)
    else if !IsNumber(v) || Num(v) <= 0.0 then Some(NotPositive)
    else if Num(v) < lim.min then Some(BelowMin(lim.min))
    else if Num(v) > lim.max then Some(AboveMax(lim.max))
    else None
  }

  /** A positive limit passes exactly the numbers inside it. */
  lemma BasicErrorNone(v: Value, lim: Limit)
    requires lim.min > 0.0
    ensures BasicError(v, lim).None? <==> IsNumber(v) && lim.min <= Num(v) <= lim.max
  {
  }

  /** The basic errors of the fields fs, in order. */
  function BasicErrors(fs: seq<Limit>, data: Record): seq<FieldError>
  {
    if fs == [] then []
    else
      BasicErrors(fs[..|fs| - 1], data) + FieldErrors(data, fs[|fs| - 1])
  }

  /** The error one field reports, if any. */
  function FieldErrors(data: Record, lim: Limit): seq<FieldError>
  {
    match BasicError(Get(data, lim.name), lim)
    case Some(r) => [FieldError(lim.name, r)]
    case None => []
  }

  lemma CountFieldErrors(data: Record, lim: Limit, f: string)
    ensures CountField(FieldErrors(data, lim), f) == if f == lim.name && BasicError(Get(data, lim.name), lim).Some? then 1 else 0
  {
    var es := FieldErrors(data, lim);
    if es != [] {
      assert es[..0] == [];
    }
  }

  /** No basic error at all exactly when every field passes. */
  lemma {:induction false} BasicErrorsEmpty(fs: seq<Limit>, data: Record)
    ensures BasicErrors(fs, data) == [] <==> forall i :: 0 <= i < |fs| ==> BasicError(Get(data, fs[i].name), fs[i]).None?
  {
    if fs != [] {
      BasicErrorsEmpty(fs[..|fs| - 1], data);
      var init := fs[..|fs| - 1];
      assert forall i :: 0 <= i < |init| ==> init[i] == fs[i];
    }
  }

  /** Each field gets at most one basic error: exactly one when its check
      fails, none otherwise. */
  lemma {:induction false} BasicErrorsPerField(fs: seq<Limit>, data: Record, k: nat)
    requires k < |fs|
    requires forall i, j :: 0 <= i < j < |fs| ==> fs[i].name != fs[j].name
    ensures CountField(BasicErrors(fs, data), fs[k].name) == if BasicError(Get(data, fs[k].name), fs[k]).Some? then 1 else 0
  {
    var init, last := fs[..|fs| - 1], fs[|fs| - 1];
    CountFieldAppend(BasicErrors(init, data), FieldErrors(data, last), fs[k].name);
    CountFieldErrors(data, last, fs[k].name);
    if k < |fs| - 1 {
      assert init[k] == fs[k];
      BasicErrorsPerField(init, data, k);
    } else {
      assert forall i :: 0 <= i < |init| ==> init[i].name != last.name;
      NoErrorsElsewhere(init, data, last.name);
    }
  }

  /** A name outside fs gets no basic error. */
  lemma {:induction false} NoErrorsElsewhere(fs: seq<Limit>, data: Record, f: string)
    requires forall i :: 0 <= i < |fs| ==> fs[i].name != f
    ensures CountField(BasicErrors(fs, data), f) == 0
  {
    if fs != [] {
      var init, last := fs[..|fs| - 1], fs[|fs| - 1];
      NoErrorsElsewhere(init, data, f);
      CountFieldAppend(BasicErrors(init, data), FieldErrors(data, last), f);
      CountFieldErrors(data, last, f);
    }
  }

  /** The seven measurements, once every field has passed its basic check. */
  datatype Body = Body(height: real, footLength: real, hip: real, lowerLeg: real, torsoMax: real, upperarm: real, forearm: real)

  predicate Passed(data: Record)
  {
    forall i :: 0 <= i < |AnthroFields| ==> BasicError(Get(data, AnthroFields[i].name), AnthroFields[i]).None?
  }

  function BodyOf(data: Record): (b: Body)
    requires Passed(data)
    ensures b.height >= 100.0 && b.footLength >= 200.0 && b.hip >= 300.0 && b.lowerLeg >= 300.0
    ensures b.torsoMax >= 400.0 && b.upperarm >= 200.0 && b.forearm >= 200.0
  {
    assert forall i :: 0 <= i < |AnthroFields| ==> AnthroFields[i].min > 0.0;
    assert BasicError(Get(data, AnthroFields[0].name), AnthroFields[0]).None?;
    assert BasicError(Get(data, AnthroFields[1].name), AnthroFields[1]).None?;
    assert BasicError(Get(data, AnthroFields[2].name), AnthroFields[2]).None?;
    assert BasicError(Get(data, AnthroFields[3].name), AnthroFields[3]).None?;
    assert BasicError(Get(data, AnthroFields[4].name), AnthroFields[4]).None?;
    assert BasicError(Get(data, AnthroFields[5].name), AnthroFields[5]).None?;
    assert BasicError(Get(data, AnthroFields[6].name), AnthroFields[6]).None?;
    Body(Num(data["height"]), Num(data["footLength"]), Num(data["hip"]), Num(data["lowerLeg"]),
      Num(data["torsoMax"]), Num(data["upperarm"]), Num(data["forearm"]))
  }

  function Abs(x: real): real { if x < 0.0 then -x else x }

  /** A ratio check of one field against the height in centimetres times
      ten: an error below lo, another above hi. */
  function RatioErrors(field: string, value: real, height: real, lo: real, hi: real): seq<FieldError>
    requires height > 0.0
  {
    if value / height < lo then [FieldError(field, RatioLow)]
    else if value / height > hi then [FieldError(field, RatioHigh)]
    else []
  }

  function LegFootErrors(b: Body): seq<FieldError>
  {
    if b.lowerLeg <= b.footLength then [FieldError("lowerLeg", LegVsFoot), FieldError("footLength", LegVsFoot)] else []
  }

  function TorsoLegErrors(b: Body): seq<FieldError>
  {
    if b.torsoMax <= b.lowerLeg then [FieldError("torsoMax", TorsoVsLeg), FieldError("lowerLeg", TorsoVsLeg)] else []
  }

  function ArmsDifferErrors(b: Body): seq<FieldError>
    requires b.upperarm + b.forearm > 0.0
  {
    if Abs(b.upperarm - b.forearm) / ((b.upperarm + b.forearm) / 2.0) > 0.2
    then [FieldError("upperarm", ArmsDiffer), FieldError("forearm", ArmsDiffer)] else []
  }

  function ArmsTorsoErrors(b: Body): seq<FieldError>
    requires b.torsoMax > 0.0
  {
    if Abs(b.upperarm + b.forearm - b.torsoMax) / b.torsoMax > 0.3
    then [FieldError("upperarm", ArmsVsTorso), FieldError("forearm", ArmsVsTorso), FieldError("torsoMax", ArmsVsTorso)] else []
  }

  function LegsErrors(b: Body): seq<FieldError>
    requires b.height > 0.0
  {
    var h := b.height * 10.0;
    if (b.hip + b.lowerLeg) / h < 0.45 then [FieldError("hip", LegsShort), FieldError("lowerLeg", LegsShort)]
    else if (b.hip + b.lowerLeg) / h > 0.55 then [FieldError("hip", LegsLong), FieldError("lowerLeg", LegsLong)]
    else []
  }

  predicate ProportionsOk(b: Body)
  {
    b.height > 0.0 && b.torsoMax > 0.0 && b.upperarm + b.forearm > 0.0
  }

  /** The ratio checks against the height, in the order the Python code runs them. */
  function RatioCheckErrors(b: Body): seq<FieldError>
    requires ProportionsOk(b)
  {
    var h := b.height * 10.0;
    RatioErrors("footLength", b.footLength, h, 0.1, 0.2) +
    RatioErrors("hip", b.hip, h, 0.2, 0.3) +
    RatioErrors("lowerLeg", b.lowerLeg, h, 0.2, 0.3) +
    RatioErrors("torsoMax", b.torsoMax, h, 0.2, 0.4) +
    RatioErrors("upperarm", b.upperarm, h, 0.15, 0.2) +
    RatioErrors("forearm", b.forearm, h, 0.1, 0.2)
  }

  /** The checks between body parts, in the order the Python code runs them. */
  function CrossErrors(b: Body): seq<FieldError>
    requires ProportionsOk(b)
  {
    LegFootErrors(b) + TorsoLegErrors(b) + ArmsDifferErrors(b) + ArmsTorsoErrors(b) + LegsErrors(b)
  }

  /** The proportion checks in the order the Python code runs them. */
  function ProportionErrors(b: Body): seq<FieldError>
    requires ProportionsOk(b)
  {
    RatioCheckErrors(b) + CrossErrors(b)
  }

  /** Each length lies in its band of H, the height times ten. */
  predicate RatiosPlausible(b: Body)
  {
    var h := b.height * 10.0;
    0.1 * h <= b.footLength <= 0.2 * h &&
    0.2 * h <= b.hip <= 0.3 * h &&
    0.2 * h <= b.lowerLeg <= 0.3 * h &&
    0.2 * h <= b.torsoMax <= 0.4 * h &&
    0.15 * h <= b.upperarm <= 0.2 * h &&
    0.1 * h <= b.forearm <= 0.2 * h
  }

  /** The lower leg is longer than the foot and shorter than the torso,
      the two arm segments differ by at most a fifth of their average, the
      arm's sum is within 30% of the torso, and both leg segments make
      45–55% of H. */
  predicate CrossPlausible(b: Body)
  {
    var h := b.height * 10.0;
    b.footLength < b.lowerLeg < b.torsoMax &&
    Abs(b.upperarm - b.forearm) <= 0.1 * (b.upperarm + b.forearm) &&
    Abs(b.upperarm + b.forearm - b.torsoMax) <= 0.3 * b.torsoMax &&
    0.45 * h <= b.hip + b.lowerLeg <= 0.55 * h
  }

  /** The proportions the checks accept, stated without division. */
  predicate Plausible(b: Body)
  {
    RatiosPlausible(b) && CrossPlausible(b)
  }

  /** x / d against c for a positive divisor. */
  lemma DivCompare(x: real, d: real, c: real)
    requires d > 0.0
    ensures x / d < c <==> x < c * d
    ensures x / d > c <==> x > c * d
  {
    assert x / d * d == x;
    if x / d < c { assert x / d * d < c * d; }
    if x / d > c { assert x / d * d > c * d; }
    if x < c * d { assert x / d < c * d / d; }
    if x > c * d { assert x / d > c * d / d; }
  }

  lemma RatioErrorsEmpty(field: string, value: real, height: real, lo: real, hi: real)
    requires height > 0.0
    ensures RatioErrors(field, value, height, lo, hi) == [] <==> lo * height <= value <= hi * height
  {
    DivCompare(value, height, lo);
    DivCompare(value, height, hi);
  }

  lemma RatioChecksPass(b: Body)
    requires ProportionsOk(b)
    ensures RatioCheckErrors(b) == [] <==> RatiosPlausible(b)
  {
    var h := b.height * 10.0;
    RatioErrorsEmpty("footLength", b.footLength, h, 0.1, 0.2);
    RatioErrorsEmpty("hip", b.hip, h, 0.2, 0.3);
    RatioErrorsEmpty("lowerLeg", b.lowerLeg, h, 0.2, 0.3);
    RatioErrorsEmpty("torsoMax", b.torsoMax, h, 0.2, 0.4);
    RatioErrorsEmpty("upperarm", b.upperarm, h, 0.15, 0.2);
    RatioErrorsEmpty("forearm", b.forearm, h, 0.1, 0.2);
  }

  lemma ArmsDifferEmpty(b: Body)
    requires b.upperarm + b.forearm > 0.0
    ensures ArmsDifferErrors(b) == [] <==> Abs(b.upperarm - b.forearm) <= 0.1 * (b.upperarm + b.forearm)
  {
    DivCompare(Abs(b.upperarm - b.forearm), (b.upperarm + b.forearm) / 2.0, 0.2);
  }

  lemma ArmsTorsoEmpty(b: Body)
    requires b.torsoMax > 0.0
    ensures ArmsTorsoErrors(b) == [] <==> Abs(b.upperarm + b.forearm - b.torsoMax) <= 0.3 * b.torsoMax
  {
    DivCompare(Abs(b.upperarm + b.forearm - b.torsoMax), b.torsoMax, 0.3);
  }

  lemma LegsEmpty(b: Body)
    requires b.height > 0.0
    ensures LegsErrors(b) == [] <==> 0.45 * (b.height * 10.0) <= b.hip + b.lowerLeg <= 0.55 * (b.height * 10.0)
  {
    DivCompare(b.hip + b.lowerLeg, b.height * 10.0, 0.45);
    DivCompare(b.hip + b.lowerLeg, b.height * 10.0, 0.55);
  }

  lemma CrossChecksPass(b: Body)
    requires ProportionsOk(b)
    ensures CrossErrors(b) == [] <==> CrossPlausible(b)
  {
    ArmsDifferEmpty(b);
    ArmsTorsoEmpty(b);
    LegsEmpty(b);
  }

  /** The proportion checks pass exactly on plausible bodies. */
  lemma ProportionsPass(b: Body)
    requires ProportionsOk(b)
    ensures ProportionErrors(b) == [] <==> Plausible(b)
  {
    RatioChecksPass(b);
    CrossChecksPass(b);
  }

  /** A failed cross check reports every field it involves. */
  lemma CrossChecksNameEveryField(b: Body)
    requires ProportionsOk(b)
    ensures b.lowerLeg <= b.footLength ==>
      FieldError("lowerLeg", LegVsFoot) in ProportionErrors(b) && FieldError("footLength", LegVsFoot) in ProportionErrors(b)
    ensures b.torsoMax <= b.lowerLeg ==>
      FieldError("torsoMax", TorsoVsLeg) in ProportionErrors(b) && FieldError("lowerLeg", TorsoVsLeg) in ProportionErrors(b)
    ensures Abs(b.upperarm + b.forearm - b.torsoMax) > 0.3 * b.torsoMax ==>
      FieldError("upperarm", ArmsVsTorso) in ProportionErrors(b) && FieldError("forearm", ArmsVsTorso) in ProportionErrors(b) &&
      FieldError("torsoMax", ArmsVsTorso) in ProportionErrors(b)
  {
    ArmsTorsoEmpty(b);
  }

  /** Every error `validate_anthropometry_data` reports, in order: a lone
      "data" error for empty input, else the basic errors, else the
      proportion errors. */
  function AnthropometryErrors(data: Record): seq<FieldError>
  {
    if data == map[] then [FieldError("data", MissingData)]
    else if BasicErrors(AnthroFields, data) != [] then BasicErrors(AnthroFields, data)
    else
      BasicErrorsEmpty(AnthroFields, data);
      var b := BodyOf(data);
      ProportionErrors(b)
  }

  /** The anthropometry is accepted exactly when the form is non-empty,
      every field is a number within its limits, and the body is
      plausible. */
  lemma AnthropometryAccepted(data: Record)
    ensures AnthropometryErrors(data) == [] <==> data != map[] && Passed(data) && Plausible(BodyOf(data))
  {
    BasicErrorsEmpty(AnthroFields, data);
    if data != map[] && Passed(data) {
      ProportionsPass(BodyOf(data));
    }
  }

  /** `validate_anthropometry_data`. */
  method ValidateAnthropometry(data: Record) returns (r: ValidationResult)
    ensures fresh(r) && r.Valid()
    ensures r.errors == AnthropometryErrors(data)
    ensures r.data == if r.isValid then Dict(data) else Dict(map[])
  {
    r := new ValidationResult();
    if data == map[] {
      r.AddError("data", MissingData);
      return;
    }
    CheckFields(r, data);
    if !r.isValid {
      AnthropometryBasicCase(data);
      return;
    }
    CheckBody(r, data);
  }

  /** The proportion checks, reached once every field passed; the form is
      kept when they pass too. */
  method CheckBody(r: ValidationResult, data: Record)
    requires r.Valid() && r.isValid && r.data == Dict(map[])
    requires data != map[] && BasicErrors(AnthroFields, data) == []
    modifies r
    ensures r.Valid() && r.errors == AnthropometryErrors(data)
    ensures r.data == if r.isValid then Dict(data) else Dict(map[])
  {
    AnthropometryProportionCase(data);
    var b := BodyOf(data);
    CheckProportions(r, b);
    assert [] + ProportionErrors(b) == ProportionErrors(b);
    if r.isValid {
      r.data := Dict(data);
    }
  }

  /** A failed basic check ends the validation with its errors. */
  lemma AnthropometryBasicCase(data: Record)
    requires data != map[] && BasicErrors(AnthroFields, data) != []
    ensures AnthropometryErrors(data) == BasicErrors(AnthroFields, data)
  {
  }

  /** Past the basic checks, the errors are those of the proportions. */
  lemma AnthropometryProportionCase(data: Record)
    requires data != map[] && BasicErrors(AnthroFields, data) == []
    ensures Passed(data) && AnthropometryErrors(data) == ProportionErrors(BodyOf(data))
  {
    BasicErrorsEmpty(AnthroFields, data);
  }

  /** The loop over the field table. */
  method CheckFields(r: ValidationResult, data: Record)
    requires r.Valid() && r.isValid && r.data == Dict(map[])
    modifies r
    ensures r.Valid() && r.errors == BasicErrors(AnthroFields, data) && r.data == Dict(map[])
  {
    for i := 0 to |AnthroFields|
      invariant r.Valid() && r.errors == BasicErrors(AnthroFields[..i], data) && r.data == Dict(map[])
    {
      var lim := AnthroFields[i];
      assert AnthroFields[..i + 1][..i] == AnthroFields[..i];
      var value := Get(data, lim.name);
      if value == Null {
        r.AddError(lim.name, Required);
      } else if !IsNumber(value) || Num(value) <= 0.0 {
        r.AddError(lim.name, NotPositive);
      } else if Num(value) < lim.min {
        r.AddError(lim.name, BelowMin(lim.min));
      } else if Num(value) > lim.max {
        r.AddError(lim.name, AboveMax(lim.max));
      }
    }
    assert AnthroFields[..|AnthroFields|] == AnthroFields;
  }

  /** The proportion checks, run in sequence. */
  method CheckProportions(r: ValidationResult, b: Body)
    requires ProportionsOk(b)
    modifies r
    ensures r.Valid() <== old(r.Valid())
    ensures r.errors == old(r.errors) + ProportionErrors(b) && r.data == old(r.data)
  {
    CheckRatios(r, b);
    CheckCross(r, b);
    Assoc(old(r.errors), RatioCheckErrors(b), CrossErrors(b));
  }

  method CheckRatios(r: ValidationResult, b: Body)
    requires ProportionsOk(b)
    modifies r
    ensures r.Valid() <== old(r.Valid())
    ensures r.errors == old(r.errors) + RatioCheckErrors(b) && r.data == old(r.data)
  {
    var height := b.height * 10.0;
    ghost var e, s := r.errors, [];
    CheckRatio(r, "footLength", b.footLength, height, 0.1, 0.2);
    s := RatioErrors("footLength", b.footLength, height, 0.1, 0.2);
    CheckRatio(r, "hip", b.hip, height, 0.2, 0.3);
    Assoc(e, s, RatioErrors("hip", b.hip, height, 0.2, 0.3));
    s := s + RatioErrors("hip", b.hip, height, 0.2, 0.3);
    CheckRatio(r, "lowerLeg", b.lowerLeg, height, 0.2, 0.3);
    Assoc(e, s, RatioErrors("lowerLeg", b.lowerLeg, height, 0.2, 0.3));
    s := s + RatioErrors("lowerLeg", b.lowerLeg, height, 0.2, 0.3);
    CheckRatio(r, "torsoMax", b.torsoMax, height, 0.2, 0.4);
    Assoc(e, s, RatioErrors("torsoMax", b.torsoMax, height, 0.2, 0.4));
    s := s + RatioErrors("torsoMax", b.torsoMax, height, 0.2, 0.4);
    CheckRatio(r, "upperarm", b.upperarm, height, 0.15, 0.2);
    Assoc(e, s, RatioErrors("upperarm", b.upperarm, height, 0.15, 0.2));
    s := s + RatioErrors("upperarm", b.upperarm, height, 0.15, 0.2);
    CheckRatio(r, "forearm", b.forearm, height, 0.1, 0.2);
    Assoc(e, s, RatioErrors("forearm", b.forearm, height, 0.1, 0.2));
  }

  method CheckRatio(r: ValidationResult, field: string, value: real, height: real, lo: real, hi: real)
    requires height > 0.0
    modifies r
    ensures r.Valid() <== old(r.Valid())
    ensures r.errors == old(r.errors) + RatioErrors(field, value, height, lo, hi) && r.data == old(r.data)
  {
    var ratio := value / height;
    if ratio < lo {
      r.AddError(field, RatioLow);
    } else if ratio > hi {
      r.AddError(field, RatioHigh);
    }
  }

  method CheckCross(r: ValidationResult, b: Body)
    requires ProportionsOk(b)
    modifies r
    ensures r.Valid() <== old(r.Valid())
    ensures r.errors == old(r.errors) + CrossErrors(b) && r.data == old(r.data)
  {
    ghost var e := r.errors;
    CheckLegFoot(r, b);
    CheckTorsoLeg(r, b);
    Assoc(e, LegFootErrors(b), TorsoLegErrors(b));
    ghost var s := LegFootErrors(b) + TorsoLegErrors(b);
    CheckArmsDiffer(r, b);
    Assoc(e, s, ArmsDifferErrors(b));
    s := s + ArmsDifferErrors(b);
    CheckArmsTorso(r, b);
    Assoc(e, s, ArmsTorsoErrors(b));
    s := s + ArmsTorsoErrors(b);
    CheckLegs(r, b);
    Assoc(e, s, LegsErrors(b));
  }

  method CheckLegFoot(r: ValidationResult, b: Body)
    modifies r
    ensures r.Valid() <== old(r.Valid())
    ensures r.errors == old(r.errors) + LegFootErrors(b) && r.data == old(r.data)
  {
    if b.lowerLeg <= b.footLength {
      r.AddError("lowerLeg", LegVsFoot);
      r.AddError("footLength", LegVsFoot);
    }
  }

  method CheckTorsoLeg(r: ValidationResult, b: Body)
    modifies r
    ensures r.Valid() <== old(r.Valid())
    ensures r.errors == old(r.errors) + TorsoLegErrors(b) && r.data == old(r.data)
  {
    if b.torsoMax <= b.lowerLeg {
      r.AddError("torsoMax", TorsoVsLeg);
      r.AddError("lowerLeg", TorsoVsLeg);
    }
  }

  method CheckArmsDiffer(r: ValidationResult, b: Body)
    requires b.upperarm + b.forearm > 0.0
    modifies r
    ensures r.Valid() <== old(r.Valid())
    ensures r.errors == old(r.errors) + ArmsDifferErrors(b) && r.data == old(r.data)
  {
    var armDiff := Abs(b.upperarm - b.forearm);
    var armAvg := (b.upperarm + b.forearm) / 2.0;
    if armDiff / armAvg > 0.2 {
      r.AddError("upperarm", ArmsDiffer);
      r.AddError("forearm", ArmsDiffer);
    }
  }

  method CheckArmsTorso(r: ValidationResult, b: Body)
    requires b.torsoMax > 0.0
    modifies r
    ensures r.Valid() <== old(r.Valid())
    ensures r.errors == old(r.errors) + ArmsTorsoErrors(b) && r.data == old(r.data)
  {
    var armTotal := b.upperarm + b.forearm;
    if Abs(armTotal - b.torsoMax) / b.torsoMax > 0.3 {
      r.AddError("upperarm", ArmsVsTorso);
      r.AddError("forearm", ArmsVsTorso);
      r.AddError("torsoMax", ArmsVsTorso);
    }
  }

  method CheckLegs(r: ValidationResult, b: Body)
    requires b.height > 0.0
    modifies r
    ensures r.Valid() <== old(r.Valid())
    ensures r.errors == old(r.errors) + LegsErrors(b) && r.data == old(r.data)
  {
    var legRatio := (b.hip + b.lowerLeg) / (b.height * 10.0);
    if legRatio < 0.45 {
      r.AddError("hip", LegsShort);
      r.AddError("lowerLeg", LegsShort);
    } else if legRatio > 0.55 {
      r.AddError("hip", LegsLong);
      r.AddError("lowerLeg", LegsLong);
    }
  }

  // ---------------------------------------------------------------------
  // validate_fit_settings_data

  /** The required fields of a saved fit, in the order the loop visits them. */
  const SettingFields: seq<string> := ["size_id", "name", "seatHight", "stemHight", "saddleOffset", "torsoAngle", "shifterAngle"]

  /** The check of one field: missing; for the name, not a non-blank string
      or longer than 100 characters once stripped; for the size, not a
      positive int. The numeric fields are only required to be present. */
  function SettingError(field: string, v: Value): Option<Reason>
  {
    if v == Null then Some(Required)
    else if field == "name" then
      if !v.Str? || Strip(v.s) == [] then Some(Empty)
      else if |Strip(v.s)| > 100 then Some(TooLong(100))
      else None
    else if field == "size_id" then
      if !IsInt(v) || Num(v) <= 0.0 then Some(NotPositive) else None
    else None
  }

  function SettingErrors(fs: seq<string>, data: Record): seq<FieldError>
  {
    if fs == [] then []
    else
      var last := fs[|fs| - 1];
      SettingErrors(fs[..|fs| - 1], data) +
        match SettingError(last, Get(data, last))
        case Some(r) => [FieldError(last, r)]
        case None => []
  }

  lemma {:induction false} SettingErrorsEmpty(fs: seq<string>, data: Record)
    ensures SettingErrors(fs, data) == [] <==> forall i :: 0 <= i < |fs| ==> SettingError(fs[i], Get(data, fs[i])).None?
  {
    if fs != [] {
      SettingErrorsEmpty(fs[..|fs| - 1], data);
      var init := fs[..|fs| - 1];
      assert forall i :: 0 <= i < |init| ==> init[i] == fs[i];
    }
  }

  /** Every error `validate_fit_settings_data` reports, in order. */
  function FitSettingsErrors(data: Record): seq<FieldError>
  {
    if data == map[] then [FieldError("data", MissingData)] else SettingErrors(SettingFields, data)
  }

  /** A numeric field fails its check exactly when it is missing. */
  lemma NumericSettingsPresenceOnly(f: string, v: Value)
    requires f in SettingFields[2..]
    ensures SettingError(f, v).None? <==> v != Null
  {
  }

  /** A saved fit passes exactly when every field is present, the name is a
      string of 1 to 100 characters once stripped and the size is a
      positive int. */
  lemma FitSettingsAccepted(data: Record)
    ensures FitSettingsErrors(data) == [] <==>
      data != map[] &&
      (forall i :: 0 <= i < |SettingFields| ==> Get(data, SettingFields[i]) != Null) &&
      Get(data, "name").Str? && 1 <= |Strip(Get(data, "name").s)| <= 100 &&
      IsInt(Get(data, "size_id")) && Num(Get(data, "size_id")) > 0.0
  {
    SettingErrorsEmpty(SettingFields, data);
    if data != map[] && FitSettingsErrors(data) == [] {
      assert SettingError(SettingFields[0], Get(data, SettingFields[0])).None?;
      assert SettingError(SettingFields[1], Get(data, SettingFields[1])).None?;
    }
  }

  /** Every numeric field converts with `float()`. */
  predicate Converts(data: Record, parse: string -> Option<real>)
  {
    ToFloat(Get(data, "seatHight"), parse).Some? && ToFloat(Get(data, "stemHight"), parse).Some? &&
    ToFloat(Get(data, "saddleOffset"), parse).Some? && ToFloat(Get(data, "torsoAngle"), parse).Some? &&
    ToFloat(Get(data, "shifterAngle"), parse).Some?
  }

  /** The data a passing fit is stored with: the size as given, the name
      stripped and every numeric field converted by `float()`; None when a
      conversion raises. */
  function SettingsData(data: Record, parse: string -> Option<real>): (r: Option<Record>)
    requires Get(data, "name").Str?
    ensures r.Some? <==> Converts(data, parse)
    ensures r.Some? ==> "name" in r.value && r.value["name"] == Str(Strip(Get(data, "name").s))
    ensures r.Some? ==> "size_id" in r.value && r.value["size_id"] == Get(data, "size_id")
    ensures r.Some? ==> r.value.Keys == {"size_id", "name", "seatHight", "stemHight", "saddleOffset", "torsoAngle", "shifterAngle"}
    ensures r.Some? ==> "seatHight" in r.value && r.value["seatHight"] == Float(ToFloat(Get(data, "seatHight"), parse).value)
    ensures r.Some? ==> "stemHight" in r.value && r.value["stemHight"] == Float(ToFloat(Get(data, "stemHight"), parse).value)
    ensures r.Some? ==> "saddleOffset" in r.value && r.value["saddleOffset"] == Float(ToFloat(Get(data, "saddleOffset"), parse).value)
    ensures r.Some? ==> "torsoAngle" in r.value && r.value["torsoAngle"] == Float(ToFloat(Get(data, "torsoAngle"), parse).value)
    ensures r.Some? ==> "shifterAngle" in r.value && r.value["shifterAngle"] == Float(ToFloat(Get(data, "shifterAngle"), parse).value)
  {
    var seat := ToFloat(Get(data, "seatHight"), parse);
    var stem := ToFloat(Get(data, "stemHight"), parse);
    var offset := ToFloat(Get(data, "saddleOffset"), parse);
    var torso := ToFloat(Get(data, "torsoAngle"), parse);
    var shifter := ToFloat(Get(data, "shifterAngle"), parse);
    if seat.None? || stem.None? || offset.None? || torso.None? || shifter.None? then None
    else Some(map[
      "size_id" := Get(data, "size_id"),
      "name" := Str(Strip(Get(data, "name").s)),
      "seatHight" := Float(seat.value),
      "stemHight" := Float(stem.value),
      "saddleOffset" := Float(offset.value),
      "torsoAngle" := Float(torso.value),
      "shifterAngle" := Float(shifter.value)])
  }

  /** Building the stored data again from stored data changes nothing:
      the name is stripped already and every numeric field is a float. */
  lemma SettingsDataIdempotent(data: Record, parse: string -> Option<real>)
    requires Get(data, "name").Str? && SettingsData(data, parse).Some?
    ensures var d := SettingsData(data, parse).value;
      Get(d, "name").Str? && SettingsData(d, parse) == Some(d)
  {
    var d := SettingsData(data, parse).value;
    StripIdempotent(Get(data, "name").s);
    assert Get(d, "size_id") == Get(data, "size_id");
  }

  /** `validate_fit_settings_data`. A `float()` that raises while the
      accepted data is built is reported as `raised`; the Python code lets that
      exception escape to its caller. */
  method ValidateFitSettings(data: Record, parse: string -> Option<real>) returns (r: ValidationResult, raised: bool)
    ensures fresh(r) && r.Valid()
    ensures r.errors == FitSettingsErrors(data)
    ensures raised ==> r.isValid
    ensures r.isValid ==> Get(data, "name").Str? && (raised <==> SettingsData(data, parse).None?)
    ensures !raised ==> r.data == if r.isValid then Dict(SettingsData(data, parse).value) else Dict(map[])
  {
    raised := false;
    r := new ValidationResult();
    if data == map[] {
      r.AddError("data", MissingData);
      return;
    }
    for i := 0 to |SettingFields|
      invariant r.Valid() && r.errors == SettingErrors(SettingFields[..i], data) && r.data == Dict(map[])
    {
      var field := SettingFields[i];
      assert SettingFields[..i + 1][..i] == SettingFields[..i];
      var value := Get(data, field);
      if value == Null {
        r.AddError(field, Required);
      } else if field == "name" {
        if !value.Str? || Strip(value.s) == [] {
          r.AddError(field, Empty);
        } else if |Strip(value.s)| > 100 {
          r.AddError(field, TooLong(100));
        }
      } else if field == "size_id" {
        if !IsInt(value) || Num(value) <= 0.0 {
          r.AddError(field, NotPositive);
        }
      }
    }
    assert SettingFields[..|SettingFields|] == SettingFields;
    if r.isValid {
      FitSettingsAccepted(data);
      var accepted := SettingsData(data, parse);
      if accepted.None? {
        raised := true;
        return;
      }
      r.data := Dict(accepted.value);
    }
  }

  // ---------------------------------------------------------------------
  // validate_fit_request_data

  function FitNameErrors(n: Value): seq<FieldError>
  {
    if !Truthy(n) || !n.Str? then [FieldError("fit_name", Required)]
    else if Strip(n.s) == [] then [FieldError("fit_name", Empty)]
    else []
  }

  function SizeIdErrors(z: Value): seq<FieldError>
  {
    if z == Null then [FieldError("size_id", Required)]
    else if !IsInt(z) || Num(z) <= 0.0 then [FieldError("size_id", NotPositive)]
    else []
  }

  /** Every error `validate_fit_request_data` reports, in order. */
  function FitRequestErrors(data: Record): seq<FieldError>
  {
    if data == map[] then [FieldError("data", MissingData)]
    else FitNameErrors(Get(data, "fit_name")) + SizeIdErrors(Get(data, "size_id"))
  }

  /** A fit request passes exactly when it names a fit by a non-blank string
      and a size by a positive int. */
  lemma FitRequestAccepted(data: Record)
    ensures FitRequestErrors(data) == [] <==>
      data != map[] && Get(data, "fit_name").Str? && Strip(Get(data, "fit_name").s) != [] &&
      IsInt(Get(data, "size_id")) && Num(Get(data, "size_id")) > 0.0
  {
    var n := Get(data, "fit_name");
    if n.Str? && Strip(n.s) != [] {
      assert n.s != [];
    }
  }

  /** `validate_fit_request_data`. */
  method ValidateFitRequest(data: Record) returns (r: ValidationResult)
    ensures fresh(r) && r.Valid()
    ensures r.errors == FitRequestErrors(data)
    ensures r.data == if r.isValid
      then Dict(map["fit_name" := Str(Strip(Get(data, "fit_name").s)), "size_id" := Get(data, "size_id")])
      else Dict(map[])
  {
    r := new ValidationResult();
    if data == map[] {
      r.AddError("data", MissingData);
      return;
    }
    var fitName := Get(data, "fit_name");
    var sizeId := Get(data, "size_id");
    if !Truthy(fitName) || !fitName.Str? {
      r.AddError("fit_name", Required);
    } else if Strip(fitName.s) == [] {
      r.AddError("fit_name", Empty);
    }
    if sizeId == Null {
      r.AddError("size_id", Required);
    } else if !IsInt(sizeId) || Num(sizeId) <= 0.0 {
      r.AddError("size_id", NotPositive);
    }
    if r.isValid {
      r.data := Dict(map["fit_name" := Str(Strip(fitName.s)), "size_id" := sizeId]);
    }
  }
}
