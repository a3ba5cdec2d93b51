/** The forgot-password route: the action's email check. */
module ForgotPassword {
  import opened Wrappers
  import opened Forms
  import Signup
  import Http

  /** The action's `errors` record. Its only possible key is `email`, and
      its message is the one the sign-up action gives for the same input. */
  method ValidateEmail(email: FormValue) returns (errors: Errors)
    ensures errors.Keys <= {Email}
    ensures EntryIs(errors, Email, Signup.EmailError(email))
  {
    errors := map[];
    if !Filled(email) {
      errors := errors[Email := "Email is required"];
    } else if '@' !in email.text {
      errors := errors[Email := "Email is invalid"];
    }
  }

  /** `action`: the error record as JSON when it is non-empty, otherwise
      `{ success: true }`. */
  method Action(email: FormValue) returns (response: Http.Response)
    ensures fresh(response)
    ensures response.status == 200
    ensures Signup.EmailError(email).None? ==> response.body == Some(Http.Succeeded)
    ensures Signup.EmailError(email).Some? ==>
      response.body == Some(Http.ErrorRecord(map[Email := Signup.EmailError(email).value]))
  {
    var errors := ValidateEmail(email);
    if |errors| > 0 {
      assert errors == map[Email := Signup.EmailError(email).value];
      response := new Http.Response.Json(Http.ErrorRecord(errors));
    } else {
      assert Email !in errors;
      response := new Http.Response.Json(Http.Succeeded);
    }
  }
}
