/**
 * The express-validator chain that guards the registration route
 * (routes/api/users.js lines 16-25) and the error list `validationResult`
 * reports for it (lines 27-30).
 *
 * A chain is data: each `check(field, message)` names a body field, the
 * message to report, whether `.not()` negates it and the one validator it
 * applies. Every check of the chain is run; each one that fails contributes
 * one error entry, in the order the checks are declared.
 */
module Validation {

  /** The three body fields the handler reads (a missing field reads as ""). */
  datatype Request = Request(name: string, email: string, password: string)

  datatype Field = Name | Email | Password

  /** The validators the chain uses, from validator.js. */
  datatype Validator =
    | IsEmpty            // the value is the empty string
    | IsEmail            // the value matches the email grammar
    | IsLength(min: nat) // the value has at least `min` characters

  /** `check(field, message)`, optionally `.not()`, followed by one validator. */
  datatype Check = Check(field: Field, message: string, negated: bool, validator: Validator)

  /**
   * One element of an `errors` array in a 400 response: a failed check
   * (its value, message and parameter name), or a bare message.
   */
  datatype ErrorEntry =
    | FieldError(value: string, msg: string, param: string)
    | Message(msg: string)

  function Param(f: Field): string
  {
    match f
    case Name => "name"
    case Email => "email"
    case Password => "password"
  }

  function FieldValue(req: Request, f: Field): string
  {
    match f
    case Name => req.name
    case Email => req.email
    case Password => req.password
  }

  /** Whether validator `v` accepts `s`; `isEmail` is the library's grammar. */
  predicate Holds(isEmail: string -> bool, v: Validator, s: string)
  {
    match v
    case IsEmpty => s == ""
    case IsEmail => isEmail(s)
    case IsLength(min) => |s| >= min
  }

  /** A check passes when its validator's verdict, negated by `.not()`, is true. */
  predicate Passes(isEmail: string -> bool, c: Check, req: Request)
  {
    Holds(isEmail, c.validator, FieldValue(req, c.field)) != c.negated
  }

  /** The entry a failing check contributes. */
  function ErrorOf(c: Check, req: Request): ErrorEntry
  {
    FieldError(FieldValue(req, c.field), c.message, Param(c.field))
  }

  /** `validationResult(req).array()` for a chain: one entry per failing check, in declaration order. */
  function ValidationResult(isEmail: string -> bool, chain: seq<Check>, req: Request): (errors: seq<ErrorEntry>)
    ensures |errors| <= |chain|
    ensures errors == [] <==> forall i :: 0 <= i < |chain| ==> Passes(isEmail, chain[i], req)
    ensures forall e :: e in errors ==> e.FieldError?
  {
    if chain == [] then []
    else
      var rest := ValidationResult(isEmail, chain[1..], req);
      assert forall i :: 1 <= i < |chain| ==> chain[i] == chain[1..][i - 1];
      (if Passes(isEmail, chain[0], req) then [] else [ErrorOf(chain[0], req)]) + rest
  }

  /** Running two chains one after the other reports the first chain's errors, then the second's. */
  lemma {:induction false} ValidationResultAppend(isEmail: string -> bool, c1: seq<Check>, c2: seq<Check>, req: Request)
    ensures ValidationResult(isEmail, c1 + c2, req) == ValidationResult(isEmail, c1, req) + ValidationResult(isEmail, c2, req)
  {
    if c1 == [] {
      assert c1 + c2 == c2;
    } else {
      assert (c1 + c2)[0] == c1[0];
      assert (c1 + c2)[1..] == c1[1..] + c2;
      ValidationResultAppend(isEmail, c1[1..], c2, req);
    }
  }

  /** A one-check chain reports exactly that check's error when it fails, and nothing otherwise. */
  lemma SingleCheck(isEmail: string -> bool, c: Check, req: Request)
    ensures ValidationResult(isEmail, [c], req) == if Passes(isEmail, c, req) then [] else [ErrorOf(c, req)]
  {
  }

  const NameRequired := "Name is required"
  const InvalidEmail := "Please include a valid email"
  const PasswordTooShort := "please enter a password with 6 or more characters"
  const MinPasswordLength: nat := 6

  /** The chain of lines 17-24: a non-empty name, a valid email, a password of 6 or more characters. */
  const RegisterChain: seq<Check> := [
    Check(Name, NameRequired, true, IsEmpty),
    Check(Email, InvalidEmail, false, IsEmail),
    Check(Password, PasswordTooShort, false, IsLength(MinPasswordLength))
  ]

  /** The input the registration chain accepts. */
  predicate Acceptable(isEmail: string -> bool, req: Request)
  {
    req.name != "" && isEmail(req.email) && |req.password| >= MinPasswordLength
  }

  /**
   * The registration chain reports the name error, then the email error,
   * then the password error, each exactly when its rule is broken.
   */
  lemma RegisterChainErrors(isEmail: string -> bool, req: Request)
    ensures ValidationResult(isEmail, RegisterChain, req) ==
      (if req.name == "" then [FieldError(req.name, NameRequired, "name")] else []) +
      (if !isEmail(req.email) then [FieldError(req.email, InvalidEmail, "email")] else []) +
      (if |req.password| < MinPasswordLength then [FieldError(req.password, PasswordTooShort, "password")] else [])
  {
    var n := Check(Name, NameRequired, true, IsEmpty);
    var e := Check(Email, InvalidEmail, false, IsEmail);
    var p := Check(Password, PasswordTooShort, false, IsLength(MinPasswordLength));
    assert RegisterChain == [n] + [e] + [p];
    ValidationResultAppend(isEmail, [n] + [e], [p], req);
    ValidationResultAppend(isEmail, [n], [e], req);
    SingleCheck(isEmail, n, req);
    SingleCheck(isEmail, e, req);
    SingleCheck(isEmail, p, req);
  }

  /** The registration chain reports no error exactly on acceptable input. */
  lemma RegisterChainAccepts(isEmail: string -> bool, req: Request)
    ensures ValidationResult(isEmail, RegisterChain, req) == [] <==> Acceptable(isEmail, req)
  {
    RegisterChainErrors(isEmail, req);
  }

  /** Input that breaks all three rules gets all three messages, in declaration order. */
  lemma AllRulesBroken(isEmail: string -> bool, req: Request)
    requires req.name == "" && !isEmail(req.email) && |req.password| < MinPasswordLength
    ensures ValidationResult(isEmail, RegisterChain, req) ==
      [FieldError("", NameRequired, "name"),
       FieldError(req.email, InvalidEmail, "email"),
       FieldError(req.password, PasswordTooShort, "password")]
  {
    RegisterChainErrors(isEmail, req);
  }
}
