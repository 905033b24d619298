/**
 * The account field validators. Each reads one body field and either calls
 * `next` or sends a single reply with HTTP status 412 and a JSON body holding
 * a status and a message; the first check that fails decides the message.
 */
module AccountValidator {
  import opened Wrappers
  import opened JsValues

  datatype AccountMessage =
    | InvalidLoginPasswordNoField
    | InvalidLoginPasswordLength
    | InvalidLoginPasswordNoDigit
    | InvalidLoginPasswordNoChars
    | InvalidLoginUsernameNoField
    | InvalidLoginUsernameLength
    | NoEmailField
    | InvalidEmail
    | NoAvatarField
    | NoCountryField
    | InvalidCountryLength
    | NoInterestField
    | NoArrayInterests
    | NoInterestLength

  /** `next` was called, or one reply was sent: HTTP status, the body's `status` field, the message. */
  datatype Verdict = Proceed | Refuse(httpStatus: nat, bodyStatus: nat, message: AccountMessage)

  /** Every refusal is sent with HTTP status 412. */
  predicate Sent412(v: Verdict) {
    v.Refuse? ==> v.httpStatus == 412
  }

  /** PasswordValidator: present, at least 8 long, with a digit, with an ASCII letter, checked in that order. */
  function PasswordValidator(password: JsValue): (v: Verdict)
    ensures Sent412(v) && (v.Refuse? ==> v.bodyStatus == 412)
    ensures !Truthy(password) ==> v.Refuse? && v.message == InvalidLoginPasswordNoField
    ensures Truthy(password) && LengthBelow(password, 8) ==> v.Refuse? && v.message == InvalidLoginPasswordLength
    ensures Truthy(password) && !LengthBelow(password, 8) && !HasDigit(ToJsString(password)) ==>
      v.Refuse? && v.message == InvalidLoginPasswordNoDigit
    ensures Truthy(password) && !LengthBelow(password, 8) && HasDigit(ToJsString(password)) && !HasLetter(ToJsString(password)) ==>
      v == Refuse(412, 412, InvalidLoginPasswordNoChars)
    ensures v == Proceed <==>
      Truthy(password) && !LengthBelow(password, 8) && HasDigit(ToJsString(password)) && HasLetter(ToJsString(password))
  {
    if !Truthy(password) then Refuse(412, 412, InvalidLoginPasswordNoField)
    else if LengthBelow(password, 8) then Refuse(412, 412, InvalidLoginPasswordLength)
    else if !HasDigit(ToJsString(password)) then Refuse(412, 412, InvalidLoginPasswordNoDigit)
    else if !HasLetter(ToJsString(password)) then Refuse(412, 412, InvalidLoginPasswordNoChars)
    else Proceed
  }

  /** A string password passes exactly when it is at least 8 long and has a digit and an A-Z/a-z letter. */
  lemma PasswordStringAccepted(s: string)
    ensures PasswordValidator(Str(s)) == Proceed <==> |s| >= 8 && HasDigit(s) && HasLetter(s)
  {
  }

  /**
   * A password sent as a non-zero JSON number below 10^21 in magnitude has no
   * `length` and its string has digits only: it is refused for lacking letters.
   */
  lemma NumericPasswordRefused(n: int)
    requires n != 0 && -ExponentFrom < n < ExponentFrom
    ensures PasswordValidator(Num(n)) == Refuse(412, 412, InvalidLoginPasswordNoChars)
  {
    NumberStringIsDigits(n);
  }

  /** From 10^21 on, the "e" of the exponent form counts as a letter: such a numeric password passes. */
  lemma HugeNumericPasswordAccepted(n: int)
    requires n <= -ExponentFrom || ExponentFrom <= n
    ensures PasswordValidator(Num(n)) == Proceed
  {
    LargeNumberStringHasLetter(n);
  }

  /** UserNameValidator: present, then at least 5 long; the length refusal's body says 312 under HTTP 412. */
  function UserNameValidator(username: JsValue): (v: Verdict)
    ensures Sent412(v)
    ensures !Truthy(username) ==> v == Refuse(412, 412, InvalidLoginUsernameNoField)
    ensures Truthy(username) && LengthBelow(username, 5) ==> v == Refuse(412, 312, InvalidLoginUsernameLength)
    ensures v == Proceed <==> Truthy(username) && !LengthBelow(username, 5)
  {
    if !Truthy(username) then Refuse(412, 412, InvalidLoginUsernameNoField)
    else if LengthBelow(username, 5) then Refuse(412, 312, InvalidLoginUsernameLength)
    else Proceed
  }

  /**
   * EmailValidator: present, then matching the registration e-mail pattern
   * (tested on the value's string form). The pattern is a parameter.
   */
  function EmailValidator(email: JsValue, emailPattern: string -> bool): (v: Verdict)
    ensures Sent412(v) && (v.Refuse? ==> v.bodyStatus == 412)
    ensures !Truthy(email) ==> v.Refuse? && v.message == NoEmailField
    ensures v == Proceed <==> Truthy(email) && emailPattern(ToJsString(email))
    ensures v.Refuse? && Truthy(email) ==> v.message == InvalidEmail
  {
    if !Truthy(email) then Refuse(412, 412, NoEmailField)
    else if !emailPattern(ToJsString(email)) then Refuse(412, 412, InvalidEmail)
    else Proceed
  }

  /** CheckAvatar: the avatar must be present. */
  function CheckAvatar(avatar: JsValue): (v: Verdict)
    ensures Sent412(v)
    ensures v == Proceed <==> Truthy(avatar)
    ensures v.Refuse? ==> v == Refuse(412, 412, NoAvatarField)
  {
    if !Truthy(avatar) then Refuse(412, 412, NoAvatarField) else Proceed
  }

  /** CheckCountry: present, then at least 2 long. */
  function CheckCountry(country: JsValue): (v: Verdict)
    ensures Sent412(v) && (v.Refuse? ==> v.bodyStatus == 412)
    ensures !Truthy(country) ==> v.Refuse? && v.message == NoCountryField
    ensures Truthy(country) && LengthBelow(country, 2) ==> v.Refuse? && v.message == InvalidCountryLength
    ensures v == Proceed <==> Truthy(country) && !LengthBelow(country, 2)
  {
    if !Truthy(country) then Refuse(412, 412, NoCountryField)
    else if LengthBelow(country, 2) then Refuse(412, 412, InvalidCountryLength)
    else Proceed
  }

  /** CheckInterest: present, then an array, then not empty. */
  function CheckInterest(interests: JsValue): (v: Verdict)
    ensures Sent412(v) && (v.Refuse? ==> v.bodyStatus == 412)
    ensures !Truthy(interests) ==> v.Refuse? && v.message == NoInterestField
    ensures Truthy(interests) && !interests.Arr? ==> v.Refuse? && v.message == NoArrayInterests
    ensures interests.Arr? && interests.items == [] ==> v.Refuse? && v.message == NoInterestLength
    ensures v == Proceed <==> interests.Arr? && interests.items != []
  {
    if !Truthy(interests) then Refuse(412, 412, NoInterestField)
    else if !interests.Arr? then Refuse(412, 412, NoArrayInterests)
    else if |interests.items| == 0 then Refuse(412, 412, NoInterestLength)
    else Proceed
  }

  /** For string fields the guards are plain length checks: a username needs 5 characters, a country 2. */
  lemma StringFieldLengths(s: string)
    ensures UserNameValidator(Str(s)) == Proceed <==> |s| >= 5
    ensures CheckCountry(Str(s)) == Proceed <==> |s| >= 2
  {
  }

  /**
   * An object is truthy and has a `length` only through a `length` key: a key
   * below 5 is refused like a short username, and an object without one passes.
   */
  lemma ObjectUserNameLength(k: int)
    ensures UserNameValidator(Obj(Some(k))) == if k < 5 then Refuse(412, 312, InvalidLoginUsernameLength) else Proceed
    ensures UserNameValidator(Obj(None)) == Proceed
  {
  }
}
