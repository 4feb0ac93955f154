// The `ValidationResult` every validator of the server builds (declared
// alike in fit_validator.py, bike_validator.py and auth_validator.py):
// a validity flag, the list of field errors and the accepted data.
//
// Error messages are modelled by what they report (`Reason`), not by
// their Russian wording.
module Validation {
  import opened PyValues

  datatype Reason =
    | MissingData
    | Required
    | NotPositive
    | BelowMin(min: real)
    | AboveMax(max: real)
    | RatioLow
    | RatioHigh
    | LegVsFoot
    | TorsoVsLeg
    | ArmsDiffer
    | ArmsVsTorso
    | LegsShort
    | LegsLong
    | Empty
    | TooShort(minLen: nat)
    | TooLong(maxLen: nat)
    | NotNumber
    | MinAboveMax
    | BadCharacters
    | EdgeUnderscore
    | DoubleUnderscore
    | NoLower
    | NoUpper
    | NoDigit
    | NoSpecial
    | RepeatedChar
    | ContainsUsername

  /** One `{"field": ..., "message": ...}` entry of `errors`. */
  datatype FieldError = FieldError(field: string, reason: Reason)

  /** The number of errors reported under field f. */
  function CountField(es: seq<FieldError>, f: string): (n: nat)
    ensures n <= |es|
    ensures n == 0 <==> forall i :: 0 <= i < |es| ==> es[i].field != f
  {
    if es == [] then 0 else CountField(es[..|es| - 1], f) + (if es[|es| - 1].field == f then 1 else 0)
  }

  /** Concatenation regroups (used to follow errors added step by step). */
  lemma Assoc(a: seq<FieldError>, b: seq<FieldError>, c: seq<FieldError>)
    ensures a + b + c == a + (b + c)
  {
  }

  lemma {:induction false} CountFieldAppend(a: seq<FieldError>, b: seq<FieldError>, f: string)
    ensures CountField(a + b, f) == CountField(a, f) + CountField(b, f)
    decreases |b|
  {
    if b != [] {
      assert (a + b)[..|a + b| - 1] == a + b[..|b| - 1];
      CountFieldAppend(a, b[..|b| - 1], f);
    } else {
      assert a + b == a;
    }
  }

  class ValidationResult {
    var isValid: bool
    var errors: seq<FieldError>
    var data: Value

    /** `is_valid` is false exactly when some error has been added. */
    predicate Valid()
      reads this
    {
      isValid <==> errors == []
    }

    /** `ValidationResult(True)`. */
    constructor ()
      ensures Valid() && isValid && errors == [] && data == Dict(map[])
    {
      isValid := true;
      errors := [];
      data := Dict(map[]);
    }

    /** `add_error`: appends the error and clears the validity flag. */
    method AddError(field: string, reason: Reason)
      modifies this
      ensures Valid() && !isValid
      ensures errors == old(errors) + [FieldError(field, reason)] && data == old(data)
    {
      errors := errors + [FieldError(field, reason)];
      isValid := false;
    }
  }
}
