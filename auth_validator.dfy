// The registration and login validators of
// app/validators/auth_validator.py. Regular expressions become character
// predicates; `str.lower()` is modelled on ASCII letters.
module AuthValidator {
  import opened Wrappers
  import opened PyValues
  import opened Validation

  predicate IsLower(c: char) { 'a' <= c <= 'z' }
  predicate IsUpper(c: char) { 'A' <= c <= 'Z' }
  predicate IsDigit(c: char) { '0' <= c <= '9' }

  /** `[a-zA-Z0-9_]`. */
  predicate IsWordChar(c: char) { IsLower(c) || IsUpper(c) || IsDigit(c) || c == '_' }

  /** The special characters of the password rule's character class. */
  predicate IsSpecial(c: char)
  {
    c in "!@#$%^&*()_+-=[]{};:\"\\|,.<>/?"
  }

  predicate AllWordChars(s: string)
  {
    forall i :: 0 <= i < |s| ==> IsWordChar(s[i])
  }

  /** `re.match(r'^[a-zA-Z0-9_]+$', s)`: `$` also matches just before a
      final newline. */
  predicate MatchesWord(s: string)
  {
    (s != [] && AllWordChars(s)) || (|s| >= 2 && s[|s| - 1] == '\n' && AllWordChars(s[..|s| - 1]))
  }

  /** On a stripped name the final-newline allowance of `$` never applies. */
  lemma MatchesWordStripped(raw: string)
    ensures var s := Strip(raw); MatchesWord(s) <==> s != [] && AllWordChars(s)
  {
    StripIsSlice(raw);
  }

  predicate HasChar(s: string, p: char -> bool)
  {
    exists i :: 0 <= i < |s| && p(s[i])
  }

  /** `re.search(r'(.)\1{2,}', s)`: three equal characters in a row, none
      of them a newline (`.` does not match one). */
  predicate HasTriple(s: string)
  {
    exists i :: 0 <= i < |s| - 2 && s[i] != '\n' && s[i] == s[i + 1] && s[i + 1] == s[i + 2]
  }

  /** `needle in hay`; the empty string occurs in every string. */
  predicate Contains(hay: string, needle: string)
  {
    exists i :: 0 <= i <= |hay| - |needle| && OccursAt(hay, needle, i)
  }

  predicate OccursAt(hay: string, needle: string, i: int)
    requires 0 <= i <= |hay| - |needle|
  {
    hay[i..i + |needle|] == needle
  }

  function LowerChar(c: char): char
  {
    if IsUpper(c) then (c as int + 32) as char else c
  }

  /** `s.lower()` on ASCII letters. */
  function Lower(s: string): (r: string)
    ensures |r| == |s| && forall i :: 0 <= i < |s| ==> r[i] == LowerChar(s[i])
  {
    if s == [] then [] else [LowerChar(s[0])] + Lower(s[1..])
  }

  /** The username checks of registration, first failing one only. */
  function UsernameError(u: string): Option<Reason>
  {
    if u == [] then Some(Required)
    else if |u| < 3 then Some(TooShort(3))
    else if |u| > 50 then Some(TooLong(50))
    else if !MatchesWord(u) then Some(BadCharacters)
    else if u[0] == '_' || u[|u| - 1] == '_' then Some(EdgeUnderscore)
    else if Contains(u, "__") then Some(DoubleUnderscore)
    else None
  }

  /** `len(v)` for the values that have one. */
  predicate Sized(v: Value)
  {
    v.Str? || v.List? || v.Dict?
  }

  function Size(v: Value): nat
    requires Sized(v)
  {
    match v
    case Str(s) => |s|
    case List(items) => |items|
    case Dict(entries) => |entries|
  }

  /** The password checks of registration, first failing one only. A
      falsy value of any kind is "required"; the length checks take `len`
      of a string, a list or a dictionary alike; the character checks
      apply to a string. */
  function PasswordError(p: Value, u: string): Option<Reason>
    requires RegisterPasswordReadable(p)
  {
    if !Truthy(p) then Some(Required)
    else if Size(p) < 8 then Some(TooShort(8))
    else if Size(p) > 100 then Some(TooLong(100))
    else ContentError(p.s, u)
  }

  /** The character checks of a password of 8 to 100 characters. */
  function ContentError(p: string, u: string): Option<Reason>
  {
    if !HasChar(p, IsLower) then Some(NoLower)
    else if !HasChar(p, IsUpper) then Some(NoUpper)
    else if !HasChar(p, IsDigit) then Some(NoDigit)
    else if !HasChar(p, IsSpecial) then Some(NoSpecial)
    else if HasTriple(p) then Some(RepeatedChar)
    else if Contains(Lower(p), Lower(u)) then Some(ContainsUsername)
    else None
  }

  function Report(field: string, e: Option<Reason>): seq<FieldError>
  {
    match e
    case Some(r) => [FieldError(field, r)]
    case None => []
  }

  /** `data.get(k, "")` on a field that is absent or a string. */
  function TextOr(data: Record, k: string): string
    requires k in data ==> data[k].Str?
  {
    if k in data then data[k].s else ""
  }

  /** The Python code calls `.strip()` on the username: a present
      username that is not a string raises. */
  predicate UsernameReadable(data: Record)
  {
    "username" in data ==> data["username"].Str?
  }

  /** `data.get("password", "")`. */
  function PasswordOf(data: Record): Value
  {
    if "password" in data then data["password"] else Str("")
  }

  /** What registration's password checks read without raising: `len` of
      a truthy number or True raises, and `re.search` on a list or a
      dictionary of 8 to 100 entries does. */
  predicate RegisterPasswordReadable(p: Value)
  {
    Truthy(p) ==> Sized(p) && (8 <= Size(p) <= 100 ==> p.Str?)
  }

  /** What login's password check reads without raising: `len` of a
      truthy number or True raises. */
  predicate LoginPasswordReadable(p: Value)
  {
    Truthy(p) ==> Sized(p)
  }

  /** Registration data on which `validate_register_data` returns. */
  predicate RegisterShaped(data: Record)
  {
    UsernameReadable(data) && RegisterPasswordReadable(PasswordOf(data))
  }

  /** Login data on which `validate_login_data` returns. */
  predicate LoginShaped(data: Record)
  {
    UsernameReadable(data) && LoginPasswordReadable(PasswordOf(data))
  }

  /** Every error `validate_register_data` reports, in order. */
  function RegisterErrors(data: Record): seq<FieldError>
    requires RegisterShaped(data)
  {
    if data == map[] then [FieldError("data", MissingData)]
    else
      var u := Strip(TextOr(data, "username"));
      Report("username", UsernameError(u)) + Report("password", PasswordError(PasswordOf(data), u))
  }

  /** A username passes exactly when it has 3 to 50 word characters, does
      not start or end with "_" and holds no "__". */
  lemma UsernameAccepted(raw: string)
    ensures var u := Strip(raw);
      UsernameError(u).None? <==>
        3 <= |u| <= 50 && AllWordChars(u) && u[0] != '_' && u[|u| - 1] != '_' && !Contains(u, "__")
  {
    MatchesWordStripped(raw);
  }

  /** A password passes exactly when it is a string of 8 to 100
      characters with a lower case letter, an upper case letter, a digit
      and a special character, no character three times in a row, and
      without the username (ignoring case). */
  lemma PasswordAccepted(p: Value, u: string)
    requires RegisterPasswordReadable(p)
    ensures PasswordError(p, u).None? <==>
      p.Str? && 8 <= |p.s| <= 100 && HasChar(p.s, IsLower) && HasChar(p.s, IsUpper) && HasChar(p.s, IsDigit) &&
      HasChar(p.s, IsSpecial) && !HasTriple(p.s) && !Contains(Lower(p.s), Lower(u))
  {
  }

  /** A falsy password of any kind (None, False, 0, an empty list) is
      "required"; a list or dictionary shorter than 8 or longer than 100
      entries draws the length errors as a string would. */
  lemma NonStringPasswords(p: Value, u: string)
    requires RegisterPasswordReadable(p) && !p.Str?
    ensures !Truthy(p) ==> PasswordError(p, u) == Some(Required)
    ensures Truthy(p) ==>
      (p.List? || p.Dict?) && PasswordError(p, u) == (if Size(p) < 8 then Some(TooShort(8)) else Some(TooLong(100)))
  {
  }

  /** The empty string occurs in every password: an empty username also
      draws the "contains the username" error on an otherwise good
      password. */
  lemma EmptyUsernameFlagsPassword(p: string)
    requires 8 <= |p| <= 100 && HasChar(p, IsLower) && HasChar(p, IsUpper) && HasChar(p, IsDigit)
    requires HasChar(p, IsSpecial) && !HasTriple(p)
    ensures PasswordError(Str(p), "") == Some(ContainsUsername)
  {
    assert Truthy(Str(p)) && Size(Str(p)) == |p|;
    assert PasswordError(Str(p), "") == ContentError(p, "");
    assert Lower("") == [];
    assert Contains(Lower(p), Lower("")) by {
      assert OccursAt(Lower(p), [], 0);
    }
  }

  /** `validate_register_data`. */
  method ValidateRegister(data: Record) returns (r: ValidationResult)
    requires RegisterShaped(data)
    ensures fresh(r) && r.Valid()
    ensures r.errors == RegisterErrors(data)
    ensures r.data == if r.isValid
      then Dict(map["username" := Str(Strip(TextOr(data, "username"))), "password" := PasswordOf(data)])
      else Dict(map[])
  {
    r := new ValidationResult();
    if data == map[] {
      r.AddError("data", MissingData);
      return;
    }
    var username := Strip(TextOr(data, "username"));
    var password := PasswordOf(data);
    CheckUsername(r, username);
    CheckPassword(r, password, username);
    if r.isValid {
      r.data := Dict(map["username" := Str(username), "password" := password]);
    }
  }

  method CheckUsername(r: ValidationResult, username: string)
    modifies r
    ensures r.Valid() <== old(r.Valid())
    ensures r.errors == old(r.errors) + Report("username", UsernameError(username)) && r.data == old(r.data)
  {
    if username == [] {
      r.AddError("username", Required);
    } else if |username| < 3 {
      r.AddError("username", TooShort(3));
    } else if |username| > 50 {
      r.AddError("username", TooLong(50));
    } else if !MatchesWord(username) {
      r.AddError("username", BadCharacters);
    } else if username[0] == '_' || username[|username| - 1] == '_' {
      r.AddError("username", EdgeUnderscore);
    } else if Contains(username, "__") {
      r.AddError("username", DoubleUnderscore);
    }
  }

  method CheckPassword(r: ValidationResult, password: Value, username: string)
    requires RegisterPasswordReadable(password)
    modifies r
    ensures r.Valid() <== old(r.Valid())
    ensures r.errors == old(r.errors) + Report("password", PasswordError(password, username)) && r.data == old(r.data)
  {
    if !Truthy(password) {
      r.AddError("password", Required);
    } else if Size(password) < 8 {
      r.AddError("password", TooShort(8));
    } else if Size(password) > 100 {
      r.AddError("password", TooLong(100));
    } else {
      var p := password.s;
      if !HasChar(p, IsLower) {
        r.AddError("password", NoLower);
      } else if !HasChar(p, IsUpper) {
        r.AddError("password", NoUpper);
      } else if !HasChar(p, IsDigit) {
        r.AddError("password", NoDigit);
      } else if !HasChar(p, IsSpecial) {
        r.AddError("password", NoSpecial);
      } else if HasTriple(p) {
        r.AddError("password", RepeatedChar);
      } else if Contains(Lower(p), Lower(username)) {
        r.AddError("password", ContainsUsername);
      }
    }
  }

  /** The username check of login: required, then at most 50 characters;
      the "shorter than 1" branch follows `not username` and never fires. */
  function LoginUsernameError(u: string): Option<Reason>
  {
    if u == [] then Some(Required)
    else if |u| < 1 then Some(Empty)
    else if |u| > 50 then Some(TooLong(50))
    else None
  }

  /** The password check of login, with the same dead second branch: a
      truthy string, list or dictionary has a length of at least one. */
  function LoginPasswordError(p: Value): Option<Reason>
    requires LoginPasswordReadable(p)
  {
    if !Truthy(p) then Some(Required)
    else if Size(p) < 1 then Some(Empty)
    else None
  }

  /** Every error `validate_login_data` reports, in order. */
  function LoginErrors(data: Record): seq<FieldError>
    requires LoginShaped(data)
  {
    if data == map[] then [FieldError("data", MissingData)]
    else
      Report("username", LoginUsernameError(Strip(TextOr(data, "username")))) +
      Report("password", LoginPasswordError(PasswordOf(data)))
  }

  /** Login passes exactly when the stripped username has 1 to 50
      characters and the password is truthy, whatever its kind (a
      non-empty list passes too); the length-below-one checks never report
      anything. */
  lemma LoginAccepted(data: Record)
    requires LoginShaped(data)
    ensures LoginErrors(data) == [] <==>
      data != map[] && 1 <= |Strip(TextOr(data, "username"))| <= 50 && Truthy(PasswordOf(data))
    ensures forall e :: e in LoginErrors(data) ==> e.reason != Empty
  {
    if data != map[] && Truthy(PasswordOf(data)) {
      var p := PasswordOf(data);
      assert Size(p) >= 1 by {
        if p.Dict? {
          var k :| k in p.entries;
          assert k in p.entries.Keys;
        }
      }
    }
  }

  /** `validate_login_data`. */
  method ValidateLogin(data: Record) returns (r: ValidationResult)
    requires LoginShaped(data)
    ensures fresh(r) && r.Valid()
    ensures r.errors == LoginErrors(data)
    ensures r.data == if r.isValid
      then Dict(map["username" := Str(Strip(TextOr(data, "username"))), "password" := PasswordOf(data)])
      else Dict(map[])
  {
    r := new ValidationResult();
    if data == map[] {
      r.AddError("data", MissingData);
      return;
    }
    var username := Strip(TextOr(data, "username"));
    var password := PasswordOf(data);
    if username == [] {
      r.AddError("username", Required);
    } else if |username| > 50 {
      // The Python code's `len(username) < 1` branch sits before this one; it
      // cannot fire after `not username`.
      r.AddError("username", TooLong(50));
    }
    if !Truthy(password) {
      r.AddError("password", Required);
    } else if Size(password) < 1 {
      r.AddError("password", Empty);
    }
    if r.isValid {
      r.data := Dict(map["username" := Str(username), "password" := password]);
    }
  }
}
