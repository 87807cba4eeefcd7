/** The state of one mounted authentication form: the values react-hook-form
    holds for the inputs, the error map it fills from the resolver on submit,
    and the `isLoading` flag the page drives around its own asynchronous work. */
module FormEngine {
  import opened Wrappers
  import opened Schemas
  import opened AuthConfig
  import opened ModeRules
  import opened FieldRendering

  class AuthForm {
    const mode: Mode
    /** The strings the schema library accepts as email addresses. */
    const emails: iset<string>
    var values: map<string, string>
    var errors: map<string, string>
    var isLoading: bool

    /** Every listed field has a value, errors name only schema keys, and
        nothing is reported while a submission is under way. */
    ghost predicate Valid()
      reads this
    {
      && (forall f :: f in Config(mode).fields ==> f in values)
      && errors.Keys <= Keys(Config(mode).schema)
      && (isLoading ==> errors == map[])
    }

    /** Mounting the form for `mode`: every field starts empty, nothing is reported, nothing is loading. */
    constructor (mode: Mode, emails: iset<string>)
      ensures Valid()
      ensures this.mode == mode && this.emails == emails
      ensures values == DefaultValues(Config(mode).fields)
      ensures errors == map[] && !isLoading
    {
      this.mode := mode;
      this.emails := emails;
      values := DefaultValues(Config(mode).fields);
      errors := map[];
      isLoading := false;
    }

    /** Typing into an input. While loading the input is disabled and the edit does not happen. */
    method SetFieldValue(name: string, value: string) returns (accepted: bool)
      requires Valid()
      modifies this
      ensures Valid()
      ensures accepted == !old(isLoading)
      ensures values == if accepted then old(values)[name := value] else old(values)
      ensures errors == old(errors) && isLoading == old(isLoading)
    {
      accepted := !isLoading;
      if accepted {
        values := values[name := value];
      }
    }

    /** `form.handleSubmit(onSubmit)`, as the submit button triggers it. While
        loading the button is disabled and nothing happens. Otherwise the whole
        schema is checked afresh: on success the error map is cleared, the data
        are handed to `onSubmit` (returned here) and the page starts loading;
        on failure the error map is replaced and `onSubmit` is not called. */
    method Submit() returns (submitted: Option<map<string, string>>)
      requires Valid()
      modifies this
      ensures Valid()
      ensures values == old(values)
      ensures old(isLoading) ==> submitted == None && errors == old(errors) && isLoading
      ensures !old(isLoading) ==>
        var r := Resolve(mode, values, emails);
        && submitted == (if r.Valid? then Some(r.data) else None)
        && errors == r.Errors()
        && isLoading == r.Valid?
    {
      if isLoading {
        return None;
      }
      var r := Resolve(mode, values, emails);
      match r
      case Valid(data) =>
        errors := map[];
        submitted := Some(data);
        isLoading := true;
      case Invalid(e) =>
        errors := e;
        submitted := None;
    }

    /** The page's asynchronous work has finished, successfully or not. */
    method Complete()
      requires Valid()
      modifies this
      ensures Valid()
      ensures !isLoading && values == old(values) && errors == old(errors)
    {
      isLoading := false;
    }

    /** The rendered inputs: one per listed field, in list order, each showing
        its current value and error and disabled exactly while loading. */
    function Inputs(): (r: seq<FieldView>)
      reads this
      requires Valid()
      ensures |r| == |Config(mode).fields|
      ensures forall i :: 0 <= i < |r| ==>
        && r[i].name == Config(mode).fields[i]
        && r[i].value == Some(values[Config(mode).fields[i]])
        && r[i].error == Lookup(errors, Config(mode).fields[i])
        && r[i].disabled == isLoading
    {
      var fields := Config(mode).fields;
      assert forall i :: 0 <= i < |fields| ==> fields[i] in values;
      RenderFields(fields, values, errors, isLoading)
    }

    function Button(): (b: ButtonView)
      reads this
      ensures b.text == Config(mode).submitText && b.disabled == isLoading && b.spinner == isLoading
    {
      SubmitButton(Config(mode), isLoading)
    }
  }

  /** The values a form mounted for `mode` starts from. */
  lemma MountedDefaults(mode: Mode)
    ensures mode == Login ==> DefaultValues(Config(mode).fields) == map["email" := "", "password" := ""]
    ensures mode == Register ==> DefaultValues(Config(mode).fields) == map["name" := "", "email" := "", "password" := ""]
    ensures mode == ForgotPassword ==> DefaultValues(Config(mode).fields) == map["email" := ""]
    ensures mode == ResetPassword ==> DefaultValues(Config(mode).fields) == map["password" := "", "confirmPassword" := ""]
  {
    match mode
    case Login => TwoDefaults("email", "password");
    case Register => ThreeDefaults("name", "email", "password");
    case ForgotPassword => assert AddEmpty(map[], ["email"]) == AddEmpty(map["email" := ""], []);
    case ResetPassword => TwoDefaults("password", "confirmPassword");
  }

  lemma TwoDefaults(a: string, b: string)
    ensures DefaultValues([a, b]) == map[a := "", b := ""]
  {
    assert AddEmpty(map[], [a, b]) == AddEmpty(map[a := ""], [b]);
    assert AddEmpty(map[a := ""], [b]) == AddEmpty(map[a := "", b := ""], []);
  }

  lemma ThreeDefaults(a: string, b: string, c: string)
    ensures DefaultValues([a, b, c]) == map[a := "", b := "", c := ""]
  {
    assert AddEmpty(map[], [a, b, c]) == AddEmpty(map[a := ""], [b, c]);
    assert AddEmpty(map[a := ""], [b, c]) == AddEmpty(map[a := "", b := ""], [c]);
    assert AddEmpty(map[a := "", b := ""], [c]) == AddEmpty(map[a := "", b := "", c := ""], []);
  }

  /** Overwriting every key of a map leaves only the new values. */
  lemma OverwriteTwo(m: map<string, string>, a: string, x: string, b: string, y: string)
    requires m.Keys == {a, b}
    ensures m[a := x][b := y] == map[a := x, b := y]
  {
  }

  lemma OverwriteSecond(a: string, x: string, b: string, y: string, z: string)
    requires a != b
    ensures map[a := x, b := y][b := z] == map[a := x, b := z]
  {
  }

  lemma ResetMismatchRejected(emails: iset<string>)
    ensures Resolve(ResetPassword, map["password" := "abcdefgh", "confirmPassword" := "abcdefg"], emails)
      == Invalid(map["confirmPassword" := PasswordsMismatchMessage])
  {
    var v := map["password" := "abcdefgh", "confirmPassword" := "abcdefg"];
    var r := Resolve(ResetPassword, v, emails);
    assert Lookup(r.Errors(), "password") == None
      && Lookup(r.Errors(), "confirmPassword") == Some(PasswordsMismatchMessage)
      && r.Errors().Keys <= {"password", "confirmPassword"} by {
      ConfirmationRule(v, emails);
    }
    assert r.Invalid?;
    assert r.errors.Keys == {"confirmPassword"};
  }

  lemma ResetMatchAccepted(emails: iset<string>)
    ensures Resolve(ResetPassword, map["password" := "abcdefgh", "confirmPassword" := "abcdefgh"], emails)
      == Valid(map["password" := "abcdefgh", "confirmPassword" := "abcdefgh"])
  {
    ResolveMatchesModeRules(ResetPassword, map["password" := "abcdefgh", "confirmPassword" := "abcdefgh"], emails);
  }

  /** Reset form: a mismatched confirmation is reported on the confirmation
      field alone and blocks the submission; once it matches, the data go
      out, and a second click while loading is ignored. */
  method ResetPasswordScenario(emails: iset<string>)
    returns (first: Option<map<string, string>>, firstErrors: map<string, string>,
             second: Option<map<string, string>>, third: Option<map<string, string>>)
    ensures first == None
    ensures firstErrors == map["confirmPassword" := PasswordsMismatchMessage]
    ensures second == Some(map["password" := "abcdefgh", "confirmPassword" := "abcdefgh"])
    ensures third == None
  {
    MountedDefaults(ResetPassword);
    var form := new AuthForm(ResetPassword, emails);
    var ok := form.SetFieldValue("password", "abcdefgh");
    ok := form.SetFieldValue("confirmPassword", "abcdefg");
    OverwriteTwo(DefaultValues(Config(ResetPassword).fields), "password", "abcdefgh", "confirmPassword", "abcdefg");
    first := form.Submit();
    firstErrors := form.errors;
    ok := form.SetFieldValue("confirmPassword", "abcdefgh");
    second := form.Submit();
    third := form.Submit();
    ResetMismatchRejected(emails);
    ResetMatchAccepted(emails);
    OverwriteSecond("password", "abcdefgh", "confirmPassword", "abcdefg", "abcdefgh");
  }

  lemma OneCharacterSignInAccepted(email: string, emails: iset<string>)
    requires email in emails
    ensures Resolve(Login, map["email" := email, "password" := "a"], emails)
      == Valid(map["email" := email, "password" := "a"])
  {
    ResolveMatchesModeRules(Login, map["email" := email, "password" := "a"], emails);
  }

  /** A one-character password signs in ... */
  method OneCharacterSignIn(email: string, emails: iset<string>) returns (submitted: Option<map<string, string>>)
    requires email in emails
    ensures submitted == Some(map["email" := email, "password" := "a"])
  {
    MountedDefaults(Login);
    var login := new AuthForm(Login, emails);
    var ok := login.SetFieldValue("email", email);
    ok := login.SetFieldValue("password", "a");
    OverwriteTwo(DefaultValues(Config(Login).fields), "email", email, "password", "a");
    submitted := login.Submit();
    OneCharacterSignInAccepted(email, emails);
  }

  /** ... but the same password does not get a registration through,
      whatever the other fields hold. */
  method OneCharacterRegistration(name: string, email: string, emails: iset<string>)
    returns (submitted: Option<map<string, string>>, passwordError: Option<string>)
    ensures submitted == None
    ensures passwordError == Some(PasswordTooShortMessage)
  {
    var registration := new AuthForm(Register, emails);
    var ok := registration.SetFieldValue("name", name);
    ok := registration.SetFieldValue("email", email);
    ok := registration.SetFieldValue("password", "a");
    submitted := registration.Submit();
    passwordError := Lookup(registration.errors, "password");
    OneCharacterPassword(registration.values, emails);
  }
}
