/** The registration-confirmation form (Auth.IdentityServer/Models/ConfirmRegistrationModel.cs):
    five string fields, any of which may be null, and the validity that its
    data-annotation attributes declare. Each attribute is evaluated on its own
    and contributes at most one violation. */
module ConfirmRegistration {
  import opened Wrappers

  datatype ConfirmRegistrationModel = ConfirmRegistrationModel(
    email: Option<string>,
    returnUrl: Option<string>,
    confirmationCode: Option<string>,
    password: Option<string>,
    confirmPassword: Option<string>)

  /** The fields marked [Required]. */
  datatype Field = Email | ReturnUrl | ConfirmationCode | Password

  datatype Violation =
    | Missing(field: Field)   // [Required] failed on the field
    | PasswordLength          // [StringLength(100, MinimumLength = 6)] failed on Password
    | PasswordMismatch        // [Compare("Password")] failed on ConfirmPassword

  const MinPasswordLength := 6
  const MaxPasswordLength := 100

  function FieldValue(m: ConfirmRegistrationModel, f: Field): Option<string>
  {
    match f
    case Email => m.email
    case ReturnUrl => m.returnUrl
    case ConfirmationCode => m.confirmationCode
    case Password => m.password
  }

  /** .NET's char.IsWhiteSpace: the Latin-1 controls tab through carriage
      return, NEL and the space separators, line separator and paragraph
      separator of Unicode. */
  predicate IsWhiteSpace(c: char)
  {
    ('\U{9}' <= c <= '\U{D}') || c == '\U{20}' || c == '\U{85}' || c == '\U{A0}' ||
    c == '\U{1680}' || ('\U{2000}' <= c <= '\U{200A}') || c == '\U{2028}' || c == '\U{2029}' ||
    c == '\U{202F}' || c == '\U{205F}' || c == '\U{3000}'
  }

  /** Scans the string from the front for a character that is not white
      space, as string.IsNullOrWhiteSpace does for a non-null string. */
  predicate AllWhiteSpace(s: string)
  {
    s == [] || (IsWhiteSpace(s[0]) && AllWhiteSpace(s[1..]))
  }

  /** The scan accepts exactly the strings made of white space only, the
      empty string included. */
  lemma {:induction false} AllWhiteSpaceMeaning(s: string)
    ensures AllWhiteSpace(s) <==> forall i :: 0 <= i < |s| ==> IsWhiteSpace(s[i])
  {
    if s != [] {
      AllWhiteSpaceMeaning(s[1..]);
      if forall i :: 0 <= i < |s| ==> IsWhiteSpace(s[i]) {
        assert forall i :: 0 <= i < |s[1..]| ==> IsWhiteSpace(s[1..][i]) by {
          forall i | 0 <= i < |s[1..]| ensures IsWhiteSpace(s[1..][i]) {
            assert s[1..][i] == s[i + 1];
          }
        }
      }
      if AllWhiteSpace(s) {
        forall i | 0 <= i < |s| ensures IsWhiteSpace(s[i]) {
          if i > 0 {
            assert s[i] == s[1..][i - 1];
          }
        }
      }
    }
  }

  /** [Required] with empty strings not allowed: the value is not null and
      not empty or white space only. */
  predicate RequiredHolds(v: Option<string>)
  {
    v.Some? && !AllWhiteSpace(v.value)
  }

  /** [StringLength(max, MinimumLength = min)]: a null value passes; a string
      passes when its length lies in [min, max]. */
  predicate StringLengthHolds(v: Option<string>, min: nat, max: nat)
  {
    match v
    case None => true
    case Some(s) => min <= |s| <= max
  }

  /** [Compare(other)]: object equality with the other property's value, so
      two nulls compare equal. */
  predicate CompareHolds(v: Option<string>, other: Option<string>)
  {
    v == other
  }

  /** The violations the form's attributes report. */
  function Violations(m: ConfirmRegistrationModel): set<Violation>
  {
    (set f: Field | !RequiredHolds(FieldValue(m, f)) :: Missing(f)) +
    (if StringLengthHolds(m.password, MinPasswordLength, MaxPasswordLength) then {} else {PasswordLength}) +
    (if CompareHolds(m.confirmPassword, m.password) then {} else {PasswordMismatch})
  }

  /** The form is valid when no attribute reports a violation. */
  predicate IsValid(m: ConfirmRegistrationModel)
  {
    Violations(m) == {}
  }

  /** Each violation is reported exactly when its attribute's condition fails. */
  lemma ViolationsMeaning(m: ConfirmRegistrationModel)
    ensures forall f :: Missing(f) in Violations(m) <==> FieldValue(m, f).None? || AllWhiteSpace(FieldValue(m, f).value)
    ensures PasswordLength in Violations(m) <==>
      m.password.Some? && (|m.password.value| < MinPasswordLength || |m.password.value| > MaxPasswordLength)
    ensures PasswordMismatch in Violations(m) <==> m.confirmPassword != m.password
  {
  }

  /** Valid exactly when the four required fields hold text that is not
      white space only, the password is 6 to 100 characters long, and the
      confirmation equals it. */
  lemma ValidIff(m: ConfirmRegistrationModel)
    ensures IsValid(m) <==>
      m.email.Some? && !AllWhiteSpace(m.email.value) &&
      m.returnUrl.Some? && !AllWhiteSpace(m.returnUrl.value) &&
      m.confirmationCode.Some? && !AllWhiteSpace(m.confirmationCode.value) &&
      m.password.Some? && !AllWhiteSpace(m.password.value) &&
      MinPasswordLength <= |m.password.value| <= MaxPasswordLength &&
      m.confirmPassword == m.password
  {
    if !IsValid(m) {
      var v :| v in Violations(m);
      if v.Missing? {
        assert !RequiredHolds(FieldValue(m, v.field));
      }
    } else {
      assert Missing(Email) !in Violations(m);
      assert Missing(ReturnUrl) !in Violations(m);
      assert Missing(ConfirmationCode) !in Violations(m);
      assert Missing(Password) !in Violations(m);
    }
  }

  /** A valid form carries a password of 6 to 100 characters, at least one
      of them not white space, and the same string as its confirmation. */
  lemma ValidPasswordBounds(m: ConfirmRegistrationModel)
    requires IsValid(m)
    ensures m.password.Some? && MinPasswordLength <= |m.password.value| <= MaxPasswordLength
    ensures exists i :: 0 <= i < |m.password.value| && !IsWhiteSpace(m.password.value[i])
    ensures m.confirmPassword == Some(m.password.value)
  {
    ValidIff(m);
    AllWhiteSpaceMeaning(m.password.value);
  }

  /** ConfirmPassword is not required: its value affects only the mismatch
      violation, and an empty confirmation is no more rejected than any
      other value different from the password. */
  lemma ConfirmPasswordOnlyCompared(m: ConfirmRegistrationModel, x: Option<string>)
    ensures Violations(m.(confirmPassword := x)) - {PasswordMismatch} == Violations(m) - {PasswordMismatch}
    ensures PasswordMismatch in Violations(m.(confirmPassword := x)) <==> x != m.password
  {
    var m' := m.(confirmPassword := x);
    assert forall f :: FieldValue(m', f) == FieldValue(m, f);
  }

  /** A password of white space only is reported missing even when its
      length is within bounds, in which case the length check passes. */
  lemma WhiteSpacePasswordIsMissing(m: ConfirmRegistrationModel)
    requires m.password.Some? && forall i :: 0 <= i < |m.password.value| ==> IsWhiteSpace(m.password.value[i])
    ensures Missing(Password) in Violations(m) && !IsValid(m)
    ensures MinPasswordLength <= |m.password.value| <= MaxPasswordLength ==> PasswordLength !in Violations(m)
  {
    AllWhiteSpaceMeaning(m.password.value);
    assert !RequiredHolds(FieldValue(m, Password));
  }

  /** A null password is reported missing but not as a length violation;
      a null confirmation then matches it. */
  lemma NullPasswordOnlyMissing(m: ConfirmRegistrationModel)
    requires m.password.None?
    ensures Missing(Password) in Violations(m)
    ensures PasswordLength !in Violations(m)
    ensures PasswordMismatch in Violations(m) <==> m.confirmPassword.Some?
  {
    assert !RequiredHolds(FieldValue(m, Password));
  }
}
