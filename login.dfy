/** The password gate in front of the app: the status code the login
    endpoint answers with. Reading the configured password from the
    environment and writing the JSON reply are left out; the configured
    password arrives as a parameter. */
module Login {
  import opened Wrappers
  import opened Strings
  import opened Values

  const METHOD_NOT_ALLOWED := 405
  const NOT_CONFIGURED := 500
  const PASSWORD_REQUIRED := 400
  const ACCEPTED := 200
  const REJECTED := 401

  /** The handler's decision. `appPassword` is the configured value (`None`
      when unset) and `password` the body's `password` field (`None` when
      the body or the field is missing). The configured value is trimmed;
      the submitted one is compared as sent. */
  function LoginStatus(httpMethod: string, appPassword: Option<string>, password: Option<Value>): (status: int)
    ensures httpMethod != "POST" ==> status == METHOD_NOT_ALLOWED
    ensures httpMethod == "POST" && IsBlank(appPassword.GetOr("")) ==> status == NOT_CONFIGURED
    ensures httpMethod == "POST" && !IsBlank(appPassword.GetOr("")) && !(password.Some? && password.value.Str?) ==>
      status == PASSWORD_REQUIRED
    ensures status == ACCEPTED <==>
      && httpMethod == "POST" && !IsBlank(appPassword.GetOr(""))
      && password == Some(Str(Trim(appPassword.GetOr(""))))
    ensures (&& httpMethod == "POST" && !IsBlank(appPassword.GetOr("")) && password.Some? && password.value.Str?
             && password.value != Str(Trim(appPassword.GetOr("")))) ==> status == REJECTED
    ensures status in {ACCEPTED, PASSWORD_REQUIRED, REJECTED, METHOD_NOT_ALLOWED, NOT_CONFIGURED}
  {
    if httpMethod != "POST" then METHOD_NOT_ALLOWED
    else
      var expected := Trim(appPassword.GetOr(""));
      if expected == "" then NOT_CONFIGURED
      else match password
        case Some(Str(p)) => if p == expected then ACCEPTED else REJECTED
        case _ => PASSWORD_REQUIRED
  }

  /** A submitted password that starts or ends with white space is never
      accepted, because the configured password it is compared with has been
      trimmed. */
  lemma PaddedPasswordRejected(appPassword: Option<string>, p: string)
    requires p != [] && (IsWhitespace(p[0]) || IsWhitespace(p[|p| - 1]))
    ensures LoginStatus("POST", appPassword, Some(Str(p))) != ACCEPTED
  {
    var expected := Trim(appPassword.GetOr(""));
    assert expected == [] || (!IsWhitespace(expected[0]) && !IsWhitespace(expected[|expected| - 1]));
  }

  /** White space around the configured password does not matter. */
  lemma ConfiguredPasswordTrimmed(a: string, p: string, b: string)
    requires p != [] && !IsWhitespace(p[0]) && !IsWhitespace(p[|p| - 1])
    requires IsBlank(a) && IsBlank(b)
    ensures LoginStatus("POST", Some(a + p + b), Some(Str(p))) == ACCEPTED
  {
    TrimAround(a, p, b);
  }

  /** The submitted password is not trimmed: `" pw"` against `pw` is refused. */
  lemma LeadingSpaceRefused()
    ensures LoginStatus("POST", Some("pw"), Some(Str(" pw"))) == REJECTED
  {
    PaddedPasswordRejected(Some("pw"), " pw");
    TrimmedIsFixed("pw");
  }
}
