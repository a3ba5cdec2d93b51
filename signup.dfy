/** The sign-up route: the server action's field validation and redirect,
    and the password-strength meter of the form. */
module Signup {
  import opened Wrappers
  import opened Text
  import opened Forms
  import Http

  /** The four fields the action checks. */
  const SignupFields: set<Field> := {Email, Password, Username, FullName}

  /** The email check: required, then it must contain `@`. */
  function EmailError(email: FormValue): (r: Option<string>)
    ensures r == Some("Email is required") <==> !Filled(email)
    ensures r == Some("Email is invalid") <==> Filled(email) && '@' !in email.text
    ensures r == None <==> email.Text? && '@' in email.text
  {
    if !Filled(email) then Some("Email is required")
    else if '@' !in email.text then Some("Email is invalid")
    else None
  }

  /** The password check: required, then at least 8 UTF-16 code units. */
  function PasswordError(password: FormValue): (r: Option<string>)
    ensures r == Some("Password is required") <==> !Filled(password)
    ensures r == Some("Password must be at least 8 characters") <==>
      Filled(password) && Utf16Length(password.text) < 8
    ensures r == None <==> password.Text? && Utf16Length(password.text) >= 8
  {
    if !Filled(password) then Some("Password is required")
    else if Utf16Length(password.text) < 8 then Some("Password must be at least 8 characters")
    else None
  }

  /** The complete description of the error record the action builds: at
      most one entry per field, each decided by that field alone. */
  predicate SignupErrorsFor(errors: Errors,
                            email: FormValue, password: FormValue,
                            username: FormValue, fullName: FormValue)
  {
    && errors.Keys <= SignupFields
    && EntryIs(errors, Email, EmailError(email))
    && EntryIs(errors, Password, PasswordError(password))
    && EntryIs(errors, Username, RequiredError(username, "Username is required"))
    && EntryIs(errors, FullName, RequiredError(fullName, "Full name is required"))
  }

  /** Every field passes its check. */
  predicate SignupValid(email: FormValue, password: FormValue, username: FormValue, fullName: FormValue)
  {
    && EmailError(email).None?
    && PasswordError(password).None?
    && Filled(username)
    && Filled(fullName)
  }

  /** The `errors` record of the action, filled field by field. */
  method ValidateSignup(email: FormValue, password: FormValue, username: FormValue, fullName: FormValue)
    returns (errors: Errors)
    ensures SignupErrorsFor(errors, email, password, username, fullName)
  {
    errors := map[];
    errors := WithEntry(errors, Email, EmailError(email));
    errors := WithEntry(errors, Password, PasswordError(password));
    errors := WithEntry(errors, Username, RequiredError(username, "Username is required"));
    errors := WithEntry(errors, FullName, RequiredError(fullName, "Full name is required"));
    FourEntries(EmailError(email), PasswordError(password),
                RequiredError(username, "Username is required"), RequiredError(fullName, "Full name is required"));
  }

  /** Four field checks in a row, starting from an empty record, leave one
      entry per field as its own check decided. */
  lemma FourEntries(e1: Option<string>, e2: Option<string>, e3: Option<string>, e4: Option<string>)
    ensures var errors := WithEntry(WithEntry(WithEntry(WithEntry(map[], Email, e1), Password, e2), Username, e3), FullName, e4);
      && errors.Keys <= SignupFields
      && EntryIs(errors, Email, e1) && EntryIs(errors, Password, e2)
      && EntryIs(errors, Username, e3) && EntryIs(errors, FullName, e4)
  {
  }

  /** The description determines the record: two records that both meet
      it are equal. */
  lemma SignupErrorsUnique(e1: Errors, e2: Errors,
                           email: FormValue, password: FormValue,
                           username: FormValue, fullName: FormValue)
    requires SignupErrorsFor(e1, email, password, username, fullName)
    requires SignupErrorsFor(e2, email, password, username, fullName)
    ensures e1 == e2
  {
    assert e1.Keys == e2.Keys;
  }

  /** The record is empty exactly when every field is valid. */
  lemma SignupErrorsEmpty(errors: Errors,
                          email: FormValue, password: FormValue,
                          username: FormValue, fullName: FormValue)
    requires SignupErrorsFor(errors, email, password, username, fullName)
    ensures |errors| == 0 <==> SignupValid(email, password, username, fullName)
  {
    if |errors| == 0 {
      assert errors == map[];
    } else {
      var k :| k in errors;
    }
  }

  /** `action`: the error record as JSON when it is non-empty, otherwise a
      redirect to the login page. */
  method Action(email: FormValue, password: FormValue, username: FormValue, fullName: FormValue)
    returns (response: Http.Response)
    ensures fresh(response)
    ensures SignupValid(email, password, username, fullName) ==>
      response.status == 302 && response.body == None && response.headers == [("Location", "/login")]
    ensures !SignupValid(email, password, username, fullName) ==>
      && response.status == 200
      && response.body.Some? && response.body.value.ErrorRecord?
      && |response.body.value.errors| > 0
      && SignupErrorsFor(response.body.value.errors, email, password, username, fullName)
  {
    var errors := ValidateSignup(email, password, username, fullName);
    SignupErrorsEmpty(errors, email, password, username, fullName);
    if |errors| > 0 {
      response := new Http.Response.Json(Http.ErrorRecord(errors));
    } else {
      response := new Http.Response.Redirect("/login");
    }
  }

  // ---------------------------------------------------------------------
  // Password strength

  /** The password has a character in `[A-Z]`. */
  predicate HasUpper(s: string) { exists i :: 0 <= i < |s| && 'A' <= s[i] <= 'Z' }

  /** The password has a character in `[0-9]`. */
  predicate HasDigit(s: string) { exists i :: 0 <= i < |s| && '0' <= s[i] <= '9' }

  /** An ASCII letter or digit. */
  predicate AlphaNumeric(c: char) { 'A' <= c <= 'Z' || 'a' <= c <= 'z' || '0' <= c <= '9' }

  /** The password has a character in `[^A-Za-z0-9]`. */
  predicate HasSymbol(s: string) { exists i :: 0 <= i < |s| && !AlphaNumeric(s[i]) }

  /** The four strength criteria, in the order the meter checks them. */
  function StrengthCriteria(password: string): seq<bool>
  {
    [Utf16Length(password) >= 8, HasUpper(password), HasDigit(password), HasSymbol(password)]
  }

  /** The number of criteria met. */
  function CountTrue(bs: seq<bool>): (n: nat)
    ensures n <= |bs|
    ensures n == 0 <==> forall i :: 0 <= i < |bs| ==> !bs[i]
    ensures n == |bs| <==> forall i :: 0 <= i < |bs| ==> bs[i]
  {
    if bs == [] then 0
    else
      assert forall i :: 1 <= i < |bs| ==> bs[i] == bs[1..][i - 1];
      (if bs[0] then 1 else 0) + CountTrue(bs[1..])
  }

  /** The count of four criteria, spelled out. */
  lemma CountFour(bs: seq<bool>)
    requires |bs| == 4
    ensures CountTrue(bs) == (if bs[0] then 1 else 0) + (if bs[1] then 1 else 0)
                           + (if bs[2] then 1 else 0) + (if bs[3] then 1 else 0)
  {
    assert bs[1..][0] == bs[1] && bs[1..][1..][0] == bs[2] && bs[1..][1..][1..][0] == bs[3];
    assert bs[1..][1..][1..][1..] == [];
  }

  /** Counting is monotone: turning criteria on never lowers the count. */
  lemma {:induction false} CountTrueMonotone(a: seq<bool>, b: seq<bool>)
    requires |a| == |b|
    requires forall i :: 0 <= i < |a| ==> a[i] ==> b[i]
    ensures CountTrue(a) <= CountTrue(b)
    decreases |a|
  {
    if a != [] {
      CountTrueMonotone(a[1..], b[1..]);
    }
  }

  /** Appending characters never lowers the strength: every criterion
      that holds of a password holds of any extension of it. */
  lemma StrengthMonotone(password: string, more: string)
    ensures CountTrue(StrengthCriteria(password)) <= CountTrue(StrengthCriteria(password + more))
  {
    var p := password + more;
    Utf16LengthAppend(password, more);
    assert forall i :: 0 <= i < |password| ==> p[i] == password[i];
    CountTrueMonotone(StrengthCriteria(password), StrengthCriteria(p));
  }

  /** The labels of the strength meter, from score 0 to score 4. */
  const StrengthLabels: seq<string> := ["", "Weak", "Fair", "Good", "Strong"]

  /** The label shown next to the meter. */
  function StrengthLabel(strength: nat): (caption: string)
    ensures caption == StrengthLabels[if strength < 4 then strength else 4]
    ensures caption == "" <==> strength == 0
  {
    if strength == 0 then ""
    else if strength == 1 then "Weak"
    else if strength == 2 then "Fair"
    else if strength == 3 then "Good"
    else "Strong"
  }

  /** The sign-up form's state: the score shown by the strength meter. */
  class SignupForm {
    var passwordStrength: nat

    /** The meter starts at zero. */
    constructor ()
      ensures passwordStrength == 0
    {
      passwordStrength := 0;
    }

    /** `checkPasswordStrength(password)`: counts the criteria met with a
        local counter and stores the count. */
    method CheckPasswordStrength(password: string)
      modifies this
      ensures passwordStrength == CountTrue(StrengthCriteria(password))
      ensures passwordStrength <= 4
    {
      CountFour(StrengthCriteria(password));
      var strength := 0;
      if Utf16Length(password) >= 8 { strength := strength + 1; }
      if HasUpper(password) { strength := strength + 1; }
      if HasDigit(password) { strength := strength + 1; }
      if HasSymbol(password) { strength := strength + 1; }
      passwordStrength := strength;
    }

    /** The label the form shows for its current score. */
    function Label(): (caption: string)
      reads this
      ensures caption in StrengthLabels
    {
      StrengthLabel(passwordStrength)
    }
  }
}
