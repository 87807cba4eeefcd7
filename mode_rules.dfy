/** What the schemas of the registry demand of each field, mode by mode:
    the same `password` field carries a different minimum in each mode,
    and the only cross-field rule reports on the confirmation field. */
module ModeRules {
  import opened Wrappers
  import opened Schemas
  import opened AuthConfig

  /** `zodResolver(config.schema)` applied to the form's values. */
  function Resolve(mode: Mode, values: map<string, string>, emails: iset<string>): (r: ValidationResult)
    ensures r.Errors().Keys <= Keys(Config(mode).schema)
    ensures r.Valid? ==> r.data.Keys == set f | f in Config(mode).fields
    ensures r.Invalid? ==> r.errors != map[]
  {
    FieldsAreSchemaKeys(mode);
    Validate(Config(mode).schema, values, emails)
  }

  /** An independent statement, per mode, of when a submission is accepted. */
  predicate ModeAccepts(mode: Mode, values: map<string, string>, emails: iset<string>) {
    match mode
    case Login =>
      "email" in values && "password" in values
      && values["email"] in emails && |values["password"]| >= 1
    case Register =>
      "name" in values && "email" in values && "password" in values
      && |values["name"]| >= 2 && values["email"] in emails && |values["password"]| >= 8
    case ForgotPassword =>
      "email" in values && values["email"] in emails
    case ResetPassword =>
      "password" in values && "confirmPassword" in values
      && |values["password"]| >= 8 && values["password"] == values["confirmPassword"]
  }

  /** Validation succeeds exactly when the mode's rules hold, and then the
      data are the submitted values of the mode's fields, unchanged. */
  lemma ResolveMatchesModeRules(mode: Mode, values: map<string, string>, emails: iset<string>)
    ensures Resolve(mode, values, emails).Valid? <==> ModeAccepts(mode, values, emails)
    ensures Resolve(mode, values, emails).Valid? ==>
      Resolve(mode, values, emails).data == map k | k in Config(mode).fields :: values[k]
  {
    match mode
    case Login => LoginRules(values, emails);
    case Register => RegisterRules(values, emails);
    case ForgotPassword => ForgotPasswordRules(values, emails);
    case ResetPassword => ResetPasswordRules(values, emails);
  }

  lemma LoginRules(values: map<string, string>, emails: iset<string>)
    ensures Resolve(Login, values, emails).Valid? <==> ModeAccepts(Login, values, emails)
    ensures Resolve(Login, values, emails).Valid? ==>
      Resolve(Login, values, emails).data == map k | k in Config(Login).fields :: values[k]
  {
    var s := Config(Login).schema;
    assert FieldIssue(s.fields[0], values, emails).None? && FieldIssue(s.fields[1], values, emails).None?
      <==> ModeAccepts(Login, values, emails);
  }

  lemma RegisterRules(values: map<string, string>, emails: iset<string>)
    ensures Resolve(Register, values, emails).Valid? <==> ModeAccepts(Register, values, emails)
    ensures Resolve(Register, values, emails).Valid? ==>
      Resolve(Register, values, emails).data == map k | k in Config(Register).fields :: values[k]
  {
    var s := Config(Register).schema;
    assert (FieldIssue(s.fields[0], values, emails).None? && FieldIssue(s.fields[1], values, emails).None?
      && FieldIssue(s.fields[2], values, emails).None?) <==> ModeAccepts(Register, values, emails);
  }

  lemma ForgotPasswordRules(values: map<string, string>, emails: iset<string>)
    ensures Resolve(ForgotPassword, values, emails).Valid? <==> ModeAccepts(ForgotPassword, values, emails)
    ensures Resolve(ForgotPassword, values, emails).Valid? ==>
      Resolve(ForgotPassword, values, emails).data == map k | k in Config(ForgotPassword).fields :: values[k]
  {
    var s := Config(ForgotPassword).schema;
    assert FieldIssue(s.fields[0], values, emails).None? <==> ModeAccepts(ForgotPassword, values, emails);
  }

  lemma ResetPasswordRules(values: map<string, string>, emails: iset<string>)
    ensures Resolve(ResetPassword, values, emails).Valid? <==> ModeAccepts(ResetPassword, values, emails)
    ensures Resolve(ResetPassword, values, emails).Valid? ==>
      Resolve(ResetPassword, values, emails).data == map k | k in Config(ResetPassword).fields :: values[k]
  {
    var s := Config(ResetPassword).schema;
    assert (FieldIssue(s.fields[0], values, emails).None? && FieldIssue(s.fields[1], values, emails).None?
      && RefinementHolds(s.refinement, values)) <==> ModeAccepts(ResetPassword, values, emails);
  }

  /** The password minimum is a property of the schema: one character in
      the sign-in form, eight in registration and in the reset form. The
      password's error never depends on the confirmation field. */
  lemma PasswordRule(mode: Mode, values: map<string, string>, emails: iset<string>)
    requires mode != ForgotPassword && "password" in values
    ensures mode == Login ==>
      Lookup(Resolve(mode, values, emails).Errors(), "password") ==
        if |values["password"]| < 1 then Some(PasswordRequiredMessage) else None
    ensures mode != Login ==>
      Lookup(Resolve(mode, values, emails).Errors(), "password") ==
        if |values["password"]| < 8 then Some(PasswordTooShortMessage) else None
  {
    var s := Config(mode).schema;
    var i := if mode == Register then 2 else if mode == Login then 1 else 0;
    assert s.fields[i].name == "password";
  }

  /** The same one-character password passes sign-in and fails registration. */
  lemma OneCharacterPassword(values: map<string, string>, emails: iset<string>)
    requires "password" in values && values["password"] == "a"
    ensures "password" !in Resolve(Login, values, emails).Errors()
    ensures Resolve(Register, values, emails).Invalid?
    ensures Lookup(Resolve(Register, values, emails).Errors(), "password") == Some(PasswordTooShortMessage)
  {
    PasswordRule(Login, values, emails);
    PasswordRule(Register, values, emails);
  }

  /** Registration demands a name of at least two characters. */
  lemma NameRule(values: map<string, string>, emails: iset<string>)
    requires "name" in values
    ensures Lookup(Resolve(Register, values, emails).Errors(), "name") ==
      if |values["name"]| < 2 then Some(NameTooShortMessage) else None
  {
    assert Config(Register).schema.fields[0].name == "name";
  }

  /** Every mode with an email field rejects exactly the strings outside `emails`. */
  lemma EmailRule(mode: Mode, values: map<string, string>, emails: iset<string>)
    requires mode != ResetPassword && "email" in values
    ensures Lookup(Resolve(mode, values, emails).Errors(), "email") ==
      if values["email"] in emails then None else Some(InvalidEmailMessage)
  {
    var s := Config(mode).schema;
    var i := if mode == Register then 1 else 0;
    assert s.fields[i].name == "email";
  }

  /** In the reset form a mismatch is reported on `confirmPassword` and
      only there; equal values, even two empty strings, give it no error,
      since the confirmation has no rule of its own. */
  lemma ConfirmationRule(values: map<string, string>, emails: iset<string>)
    requires "password" in values && "confirmPassword" in values
    ensures Lookup(Resolve(ResetPassword, values, emails).Errors(), "confirmPassword") ==
      if values["password"] == values["confirmPassword"] then None else Some(PasswordsMismatchMessage)
    ensures Lookup(Resolve(ResetPassword, values, emails).Errors(), "password") ==
      if |values["password"]| < 8 then Some(PasswordTooShortMessage) else None
    ensures Resolve(ResetPassword, values, emails).Errors().Keys <= {"password", "confirmPassword"}
  {
    var s := Config(ResetPassword).schema;
    assert s.fields[1].name == "confirmPassword";
    PasswordRule(ResetPassword, values, emails);
  }

  /** A submission with a required field left empty is rejected, with an
      error on every empty field except the confirmation, which has no rule
      of its own (given that the empty string is not an email address). */
  lemma EmptyFieldsReported(mode: Mode, values: map<string, string>, emails: iset<string>, i: int)
    requires "" !in emails
    requires 0 <= i < |Config(mode).fields|
    requires Config(mode).fields[i] != "confirmPassword"
    requires Config(mode).fields[i] !in values || values[Config(mode).fields[i]] == ""
    ensures Resolve(mode, values, emails).Invalid?
    ensures Config(mode).fields[i] in Resolve(mode, values, emails).Errors()
  {
    var s := Config(mode).schema;
    assert s.fields[i].name == Config(mode).fields[i];
    assert FieldIssue(s.fields[i], values, emails).Some?;
  }
}
