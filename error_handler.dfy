// The error classification of app/utils/error_handler.py: the AppError
// hierarchy with its status codes, the JSON body `format_error_response`
// builds, the status mapping of the `handle_errors` decorator, the
// required-field check `validate_request_data` and the
// `safe_database_operation` decorator.
//
// A wrapped call is modelled by its outcome (`Call`): the value it returned
// or the exception it raised. Messages are modelled by what they say.
module ErrorHandler {
  import opened Wrappers
  import opened PyValues
  import opened Validation

  /** The message of an error: one given by the raiser, or one of the
      default texts of the hierarchy. */
  datatype Message =
    | Given(text: string)
    | ValidationFailed      // ValidationError's fixed message
    | ResourceNotFound      // NotFoundError's default
    | BadCredentials        // UnauthorizedError's default
    | AccessDenied          // ForbiddenError's default
    | DatabaseFailure       // DatabaseError's default
    | OperationFailed(operation: string)  // raised by safe_database_operation
    | InternalError         // the generic text for unexpected exceptions

  /** An instance of AppError or of one of its subclasses. */
  datatype AppError =
    | ValidationError(errors: seq<FieldError>)
    | NotFoundError(message: Message)
    | UnauthorizedError(message: Message)
    | ForbiddenError(message: Message)
    | DatabaseError(message: Message)
    | PlainAppError(message: Message, statusCode: int, field: Option<string>)

  /** Any exception: an AppError, or anything else (its class name and
      `str()`). */
  datatype Exception =
    | App(err: AppError)
    | Other(typeName: string, text: string)

  /** `AppError(message)`: the status defaults to 400 and there is no field. */
  function NewAppError(message: Message): (e: AppError)
    ensures StatusCode(e) == 400 && FieldOf(e) == None && MessageOf(e) == message
  {
    PlainAppError(message, 400, None)
  }

  /** The `status_code` each class's constructor stores. */
  function StatusCode(e: AppError): int
  {
    match e
    case ValidationError(_) => 400
    case NotFoundError(_) => 404
    case UnauthorizedError(_) => 401
    case ForbiddenError(_) => 403
    case DatabaseError(_) => 500
    case PlainAppError(_, code, _) => code
  }

  /** The `message` attribute. */
  function MessageOf(e: AppError): Message
  {
    match e
    case ValidationError(_) => ValidationFailed
    case PlainAppError(m, _, _) => m
    case _ => e.message
  }

  /** The `field` attribute; only a plain AppError is raised with one. */
  function FieldOf(e: AppError): Option<string>
  {
    if e.PlainAppError? then e.field else None
  }

  /** Every subclass constructor fixes its status code, and only a plain
      AppError carries a caller-chosen one. */
  lemma SubclassStatusCodes(errors: seq<FieldError>, m: Message)
    ensures StatusCode(ValidationError(errors)) == 400
    ensures StatusCode(NotFoundError(m)) == 404
    ensures StatusCode(UnauthorizedError(m)) == 401
    ensures StatusCode(ForbiddenError(m)) == 403
    ensures StatusCode(DatabaseError(m)) == 500
    ensures MessageOf(ValidationError(errors)) == ValidationFailed
  {
  }

  /** The JSON body of an error response; an absent key is None. */
  datatype Body = Body(
    success: bool,
    errors: Option<seq<FieldError>>,
    error: Option<Message>,
    field: Option<string>,
    details: Option<string>,
    typeName: Option<string>)

  /** `format_error_response(error, include_details)`. */
  function FormatErrorResponse(x: Exception, includeDetails: bool): (b: Body)
    ensures !b.success
    ensures b.errors.Some? <==> x.App? && x.err.ValidationError?
    ensures b.errors.Some? <==> b.error.None?
    ensures b.field.Some? ==> b.field.value != ""
  {
    match x
    case App(ValidationError(errors)) => Body(false, Some(errors), None, None, None, None)
    case App(e) =>
      var field := if FieldOf(e).Some? && FieldOf(e).value != "" then FieldOf(e) else None;
      Body(false, None, Some(MessageOf(e)), field, None, None)
    case Other(name, text) =>
      if includeDetails then Body(false, None, Some(InternalError), None, Some(text), Some(name))
      else Body(false, None, Some(InternalError), None, None, None)
  }

  /** What the body says for each kind of exception: a validation error
      lists its errors; another AppError gives its message and its field
      when the field is a non-empty string; anything else gives the generic
      message, and its details and class name only on request. */
  lemma FormatErrorResponseCases(x: Exception, includeDetails: bool)
    ensures var b := FormatErrorResponse(x, includeDetails);
      (x.App? && x.err.ValidationError? ==> b.errors == Some(x.err.errors) && b.field.None? && b.details.None?) &&
      (x.App? && !x.err.ValidationError? ==>
        b.error == Some(MessageOf(x.err)) && b.details.None? && b.typeName.None? &&
        (b.field.Some? <==> FieldOf(x.err).Some? && FieldOf(x.err).value != "") &&
        (b.field.Some? ==> b.field == FieldOf(x.err))) &&
      (x.Other? ==>
        b.error == Some(InternalError) && b.field.None? &&
        (b.details.Some? <==> includeDetails) && (b.typeName.Some? <==> includeDetails) &&
        (includeDetails ==> b.details == Some(x.text) && b.typeName == Some(x.typeName)))
  {
  }

  /** Internal details never reach a client unless asked for, whatever the
      exception. */
  lemma NoDetailsByDefault(x: Exception)
    ensures FormatErrorResponse(x, false).details.None? && FormatErrorResponse(x, false).typeName.None?
  {
  }

  /** The outcome of a wrapped call. */
  datatype Call = Returned(value: Value) | Raised(exc: Exception)

  /** What a route wrapped by `handle_errors` answers: the route's own
      result, or a JSON error body with a status. */
  datatype Reply = Passed(value: Value) | ErrorReply(body: Body, status: int)

  /** `handle_errors`: the `except` clauses in their order; the first
      matching class decides the status. */
  function HandleErrors(c: Call): (r: Reply)
    ensures c.Returned? ==> r == Passed(c.value)
    ensures c.Raised? ==> r.ErrorReply? && r.body == FormatErrorResponse(c.exc, false)
  {
    match c
    case Returned(v) => Passed(v)
    case Raised(x) =>
      var status :=
        match x
        case App(ValidationError(_)) => 400
        case App(UnauthorizedError(_)) => 401
        case App(ForbiddenError(_)) => 403
        case App(NotFoundError(_)) => 404
        case App(DatabaseError(_)) => 500
        case App(PlainAppError(_, code, _)) => code
        case Other(_, _) => 500;
      ErrorReply(FormatErrorResponse(x, false), status)
  }

  /** The status of every handled AppError is the code its class stores, so
      the explicit clauses and the final `except AppError` agree; anything
      else is a 500. */
  lemma HandledStatusIsStored(x: Exception)
    ensures x.App? ==> HandleErrors(Raised(x)).status == StatusCode(x.err)
    ensures x.Other? ==> HandleErrors(Raised(x)).status == 500
  {
  }

  /** `safe_database_operation(name)` around a call: any exception, an
      AppError included, becomes a DatabaseError naming the operation. */
  function SafeDatabaseOperation(operation: string, c: Call): (r: Call)
    ensures c.Returned? ==> r == c
    ensures c.Raised? ==> r == Raised(App(DatabaseError(OperationFailed(operation))))
  {
    match c
    case Returned(_) => c
    case Raised(_) => Raised(App(DatabaseError(OperationFailed(operation))))
  }

  /** A route whose store call is guarded by `safe_database_operation`
      either passes the result through or answers 500 with the operation's
      message, whatever went wrong inside. */
  lemma GuardedRouteAnswers(operation: string, c: Call)
    ensures var r := HandleErrors(SafeDatabaseOperation(operation, c));
      (c.Returned? ==> r == Passed(c.value)) &&
      (c.Raised? ==> r.ErrorReply? && r.status == 500 && r.body.error == Some(OperationFailed(operation)))
  {
  }

  // ---------------------------------------------------------------------
  // validate_request_data

  /** A required field counts as missing when the key is absent or None. */
  predicate Missing(data: Record, f: string)
  {
    f !in data || data[f] == Null
  }

  /** The errors of the required-field loop, in list order. */
  function MissingErrors(data: Record, fields: seq<string>): (es: seq<FieldError>)
    ensures |es| <= |fields|
  {
    if fields == [] then []
    else
      MissingErrors(data, fields[..|fields| - 1]) +
      (if Missing(data, fields[|fields| - 1]) then [FieldError(fields[|fields| - 1], Required)] else [])
  }

  /** `f in s` on strings: f occurs in s. */
  predicate Contains(s: string, f: string)
  {
    f <= s || (s != [] && Contains(s[1..], f))
  }

  /** What `field not in data or data[field] is None` does with one field
      of a truthy `data`: the field is there, it is missing, or the test
      raises. A dictionary looks the key up; a string or a list only
      answers `in` (a substring, an element equal to the name) and raises
      on being indexed by a string, so a field it holds raises; a number
      or True is not a container and raises at once. */
  datatype Probe = Present | Absent | Crash(exc: Exception)

  /** The class name and the texts of the TypeErrors the test raises. */
  const TypeErrorName := "TypeError"
  const StringIndexText := "string indices must be integers, not 'str'"
  const ListIndexText := "list indices must be integers or slices, not str"

  function NotIterableText(typeName: string): string
  {
    "argument of type '" + typeName + "' is not iterable"
  }

  function ProbeField(data: Value, f: string): (p: Probe)
    requires Truthy(data)
    ensures data.Dict? ==> (p.Absent? <==> Missing(data.entries, f)) && !p.Crash?
    ensures p.Crash? ==> p.exc.Other? && p.exc.typeName == TypeErrorName
  {
    match data
    case Dict(m) => if Missing(m, f) then Absent else Present
    case Str(s) => if Contains(s, f) then Crash(Other(TypeErrorName, StringIndexText)) else Absent
    case List(xs) => if Str(f) in xs then Crash(Other(TypeErrorName, ListIndexText)) else Absent
    case Bool(_) => Crash(Other(TypeErrorName, NotIterableText("bool")))
    case Int(_) => Crash(Other(TypeErrorName, NotIterableText("int")))
    case Float(_) => Crash(Other(TypeErrorName, NotIterableText("float")))
  }

  /** The required-field loop over any truthy data: the errors it
      collects, or the exception that ends it early. */
  datatype Scan = Scanned(errors: seq<FieldError>) | Crashed(exc: Exception)

  function ScanFields(data: Value, fields: seq<string>): Scan
    requires Truthy(data)
  {
    if fields == [] then Scanned([])
    else ScanStep(ScanFields(data, fields[..|fields| - 1]), fields[|fields| - 1], ProbeField(data, fields[|fields| - 1]))
  }

  /** One turn of the loop: field f, probed as p, after scan s. */
  function ScanStep(s: Scan, f: string, p: Probe): Scan
  {
    match s
    case Crashed(_) => s
    case Scanned(es) =>
      match p
      case Crash(x) => Crashed(x)
      case Absent => Scanned(es + [FieldError(f, Required)])
      case Present => s
  }

  /** On a dictionary the loop never raises and collects MissingErrors. */
  lemma {:induction false} ScanDictionary(data: Value, fields: seq<string>)
    requires Truthy(data) && data.Dict?
    ensures ScanFields(data, fields) == Scanned(MissingErrors(data.entries, fields))
  {
    if fields != [] {
      ScanDictionary(data, fields[..|fields| - 1]);
    }
  }

  /** On data other than a dictionary the loop raises exactly when some
      field raises, and then with the exception of the first such field;
      on a number or True that is the first field. */
  lemma {:induction false} ScanOtherRaises(data: Value, fields: seq<string>)
    requires Truthy(data) && !data.Dict?
    ensures ScanFields(data, fields).Crashed? <==> exists i :: 0 <= i < |fields| && ProbeField(data, fields[i]).Crash?
    ensures ScanFields(data, fields).Crashed? ==>
      exists i :: 0 <= i < |fields| && ProbeField(data, fields[i]) == Crash(ScanFields(data, fields).exc) &&
        forall j :: 0 <= j < i ==> !ProbeField(data, fields[j]).Crash?
    ensures !data.Str? && !data.List? ==> (ScanFields(data, fields).Crashed? <==> fields != [])
  {
    if fields != [] {
      var init := fields[..|fields| - 1];
      ScanOtherRaises(data, init);
      assert forall i :: 0 <= i < |init| ==> init[i] == fields[i];
      var si := ScanFields(data, init);
      if si.Crashed? {
        var i :| 0 <= i < |init| && ProbeField(data, init[i]) == Crash(si.exc) &&
          forall j :: 0 <= j < i ==> !ProbeField(data, init[j]).Crash?;
        assert ProbeField(data, fields[i]) == Crash(ScanFields(data, fields).exc);
      }
      if !data.Str? && !data.List? {
        assert ProbeField(data, fields[0]).Crash?;
      }
    }
  }

  /** On a string or a list where no field raises, every field is
      reported as required. */
  lemma {:induction false} ScanOtherReportsAll(data: Value, fields: seq<string>)
    requires Truthy(data) && !data.Dict? && ScanFields(data, fields).Scanned?
    ensures ScanFields(data, fields).errors == seq(|fields|, i requires 0 <= i < |fields| => FieldError(fields[i], Required))
  {
    if fields != [] {
      var init := fields[..|fields| - 1];
      ScanOtherReportsAll(data, init);
      assert ProbeField(data, fields[|fields| - 1]).Absent?;
    }
  }

  /** Once a field raises, the fields after it are never looked at. */
  lemma {:induction false} ScanCrashSticks(data: Value, fields: seq<string>, k: nat)
    requires Truthy(data) && k <= |fields| && ScanFields(data, fields[..k]).Crashed?
    ensures ScanFields(data, fields) == ScanFields(data, fields[..k])
  {
    if k < |fields| {
      var init := fields[..|fields| - 1];
      assert init[..k] == fields[..k];
      ScanCrashSticks(data, init, k);
    } else {
      assert fields[..k] == fields;
    }
  }

  /** The error `validate_request_data` raises, if any. */
  function RequestDataError(data: Value, fields: seq<string>): Option<Exception>
  {
    if !Truthy(data) then Some(App(ValidationError([FieldError("data", MissingData)])))
    else if fields == [] then None
    else
      match ScanFields(data, fields)
      case Crashed(x) => Some(x)
      case Scanned(es) => if es == [] then None else Some(App(ValidationError(es)))
  }

  /** Every error names a missing listed field, as "required". */
  lemma {:induction false} MissingErrorsSound(data: Record, fields: seq<string>)
    ensures forall e :: e in MissingErrors(data, fields) ==> e.reason == Required && e.field in fields && Missing(data, e.field)
  {
    if fields != [] {
      var init := fields[..|fields| - 1];
      MissingErrorsSound(data, init);
      assert forall f :: f in init ==> f in fields;
    }
  }

  /** Every missing listed field is reported. */
  lemma {:induction false} MissingErrorsComplete(data: Record, fields: seq<string>)
    ensures forall i :: 0 <= i < |fields| && Missing(data, fields[i]) ==> FieldError(fields[i], Required) in MissingErrors(data, fields)
  {
    if fields != [] {
      var init := fields[..|fields| - 1];
      MissingErrorsComplete(data, init);
      assert forall i :: 0 <= i < |init| ==> init[i] == fields[i];
    }
  }

  /** The loop reports nothing exactly when every listed field holds a
      value (a field listed twice is reported twice). */
  lemma MissingErrorsExact(data: Record, fields: seq<string>)
    ensures MissingErrors(data, fields) == [] <==> forall i :: 0 <= i < |fields| ==> !Missing(data, fields[i])
  {
    MissingErrorsSound(data, fields);
    MissingErrorsComplete(data, fields);
    if MissingErrors(data, fields) != [] {
      var e := MissingErrors(data, fields)[0];
      assert e in MissingErrors(data, fields);
      var i :| 0 <= i < |fields| && fields[i] == e.field;
    }
  }

  /** Nothing is raised exactly when the data is present and, with
      required fields, a dictionary in which every one holds a value; a
      present dictionary or absent data raise a validation error, other
      data raise a validation error or a TypeError. */
  lemma RequestDataAccepted(data: Value, fields: seq<string>)
    ensures RequestDataError(data, fields).None? <==>
      Truthy(data) && (fields != [] ==> data.Dict? && forall i :: 0 <= i < |fields| ==> !Missing(data.entries, fields[i]))
    ensures !Truthy(data) || data.Dict? ==>
      RequestDataError(data, fields).Some? ==> RequestDataError(data, fields).value.App? && RequestDataError(data, fields).value.err.ValidationError?
    ensures RequestDataError(data, fields).Some? ==>
      var x := RequestDataError(data, fields).value;
      (x.App? && x.err.ValidationError?) || (x.Other? && x.typeName == TypeErrorName)
  {
    if Truthy(data) && fields != [] {
      if data.Dict? {
        ScanDictionary(data, fields);
        MissingErrorsExact(data.entries, fields);
      } else {
        ScanOtherRaises(data, fields);
        if ScanFields(data, fields).Crashed? {
          var i :| 0 <= i < |fields| && ProbeField(data, fields[i]) == Crash(ScanFields(data, fields).exc);
        } else {
          ScanOtherReportsAll(data, fields);
          assert ScanFields(data, fields).errors[0] == FieldError(fields[0], Required);
        }
      }
    }
  }

  /** `validate_request_data`: None when it returns, the exception it
      raises otherwise. */
  method ValidateRequestData(data: Value, fields: seq<string>) returns (raised: Option<Exception>)
    ensures raised == RequestDataError(data, fields)
  {
    if !Truthy(data) {
      return Some(App(ValidationError([FieldError("data", MissingData)])));
    }
    if fields == [] {
      return None;
    }
    var errors: seq<FieldError> := [];
    for k := 0 to |fields|
      invariant ScanFields(data, fields[..k]) == Scanned(errors)
    {
      assert fields[..k + 1][..k] == fields[..k];
      var f := fields[k];
      var p := ProbeField(data, f);
      if p.Crash? {
        ScanCrashSticks(data, fields, k + 1);
        return Some(p.exc);
      }
      if p.Absent? {
        errors := errors + [FieldError(f, Required)];
      }
    }
    assert fields[..|fields|] == fields;
    if errors != [] {
      return Some(App(ValidationError(errors)));
    }
    return None;
  }
}
