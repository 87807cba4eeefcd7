/** The four validation schemas of the authentication form, the mode
    registry (`formConfig`) that couples each mode to its schema, copy
    and ordered field list, and the initial values built from that list. */
module AuthConfig {
  import opened Wrappers
  import opened Schemas

  /** The `mode` prop: 'login' | 'register' | 'forgot-password' | 'reset-password'. */
  datatype Mode = Login | Register | ForgotPassword | ResetPassword

  const InvalidEmailMessage: string := "Invalid email address."
  const PasswordRequiredMessage: string := "Password is required."
  const PasswordTooShortMessage: string := "Password must be at least 8 characters."
  const NameTooShortMessage: string := "Name must be at least 2 characters."
  const PasswordsMismatchMessage: string := "Passwords don't match"

  const LoginSchema: Schema := Schema(
    [Field("email", Email(InvalidEmailMessage)),
     Field("password", MinLength(1, PasswordRequiredMessage))],
    None)

  const RegisterSchema: Schema := Schema(
    [Field("name", MinLength(2, NameTooShortMessage)),
     Field("email", Email(InvalidEmailMessage)),
     Field("password", MinLength(8, PasswordTooShortMessage))],
    None)

  const ForgotPasswordSchema: Schema := Schema(
    [Field("email", Email(InvalidEmailMessage))],
    None)

  /** The only cross-field rule: the confirmation must equal the password,
      and a mismatch is reported on `confirmPassword`. */
  const ResetPasswordSchema: Schema := Schema(
    [Field("password", MinLength(8, PasswordTooShortMessage)),
     Field("confirmPassword", AnyString)],
    Some(FieldsEqual("password", "confirmPassword", PasswordsMismatchMessage, "confirmPassword")))

  /** One entry of `formConfig`. */
  datatype FormConfig = FormConfig(
    schema: Schema,
    title: string,
    description: string,
    fields: seq<string>,
    submitText: string)

  predicate DistinctStrings(s: seq<string>) {
    forall i, j :: 0 <= i < j < |s| ==> s[i] != s[j]
  }

  /** The registry invariant of one entry: its field list names exactly the
      schema's keys, in the schema's order, and the confirmation field
      appears exactly where the schema compares it with the password. */
  predicate Coherent(c: FormConfig) {
    && WellFormed(c.schema)
    && c.fields == FieldNames(c.schema.fields)
    && RefinementPaths(c.schema.refinement) <= Keys(c.schema)
    && ("confirmPassword" in c.fields <==>
        c.schema.refinement == Some(FieldsEqual("password", "confirmPassword", PasswordsMismatchMessage, "confirmPassword")))
  }

  /** `formConfig[mode]`: defined for every mode, and every entry is coherent. */
  function Config(mode: Mode): (c: FormConfig)
    ensures Coherent(c)
  {
    EntryCoherent(mode);
    ConfigEntry(mode)
  }

  /** For every mode the rendered field list is exactly the key set of the
      schema that validates it: no extra and no missing field, none twice. */
  lemma FieldsAreSchemaKeys(mode: Mode)
    ensures (set f | f in Config(mode).fields) == Keys(Config(mode).schema)
    ensures DistinctStrings(Config(mode).fields)
  {
    var c := Config(mode);
    ListedKeys(c.schema.fields);
  }

  /** The key set each mode validates, written out. */
  lemma RegistryKeys(mode: Mode)
    ensures Keys(Config(mode).schema) ==
      match mode
      case Login => {"email", "password"}
      case Register => {"name", "email", "password"}
      case ForgotPassword => {"email"}
      case ResetPassword => {"password", "confirmPassword"}
  {
    FieldsAreSchemaKeys(mode);
    match mode
    case Login => assert Config(mode).fields == ["email", "password"];
    case Register => assert Config(mode).fields == ["name", "email", "password"];
    case ForgotPassword => assert Config(mode).fields == ["email"];
    case ResetPassword => assert Config(mode).fields == ["password", "confirmPassword"];
  }

  lemma EntryCoherent(mode: Mode)
    ensures Coherent(ConfigEntry(mode))
  {
    var c := ConfigEntry(mode);
    match mode
    case Login =>
      assert FieldNames(c.schema.fields) == ["email", "password"];
    case Register =>
      assert FieldNames(c.schema.fields) == ["name", "email", "password"];
    case ForgotPassword =>
      assert FieldNames(c.schema.fields) == ["email"];
    case ResetPassword =>
      assert FieldNames(c.schema.fields) == ["password", "confirmPassword"];
      NameSetMembers(c.schema.fields, "confirmPassword");
      assert c.schema.fields[1].name == "confirmPassword";
  }

  /** The literal entries of `formConfig`: the field list each entry renders
      names its schema's keys in declaration order. */
  function ConfigEntry(mode: Mode): (c: FormConfig)
    ensures c.fields == FieldNames(c.schema.fields)
  {
    match mode
    case Login => FormConfig(LoginSchema, "Welcome Back!",
      "Enter your credentials to access your account.", ["email", "password"], "Sign In")
    case Register => FormConfig(RegisterSchema, "Create an Account",
      "Fill in the details below to get started.", ["name", "email", "password"], "Sign Up")
    case ForgotPassword => FormConfig(ForgotPasswordSchema, "Forgot Password?",
      "Enter your email and we'll send you a reset link.", ["email"], "Send Reset Link")
    case ResetPassword => FormConfig(ResetPasswordSchema, "Reset Your Password",
      "Enter a new secure password for your account.", ["password", "confirmPassword"], "Reset Password")
  }

  /** The schema's keys in declaration order. */
  function FieldNames(fields: seq<Field>): (names: seq<string>)
    ensures |names| == |fields|
    ensures forall i :: 0 <= i < |fields| ==> names[i] == fields[i].name
  {
    seq(|fields|, i requires 0 <= i < |fields| => fields[i].name)
  }

  /** The names listed in order make up exactly the schema's key set. */
  lemma {:induction false} ListedKeys(fields: seq<Field>)
    ensures (set f | f in FieldNames(fields)) == NameSet(fields)
  {
    if fields != [] {
      ListedKeys(fields[1..]);
      var names := FieldNames(fields);
      assert names[1..] == FieldNames(fields[1..]);
      assert (set f | f in names) == {names[0]} + (set f | f in names[1..]);
    }
  }

  /** `fields.reduce((acc, field) => ({ ...acc, [field]: '' }), acc)`. */
  function AddEmpty(acc: map<string, string>, fields: seq<string>): (r: map<string, string>)
    ensures r.Keys == acc.Keys + (set f | f in fields)
    ensures forall k :: k in r ==> r[k] == if k in fields then "" else acc[k]
    decreases |fields|
  {
    if fields == [] then acc
    else
      assert (set f | f in fields) == {fields[0]} + (set f | f in fields[1..]);
      AddEmpty(acc[fields[0] := ""], fields[1..])
  }

  /** The form's `defaultValues`: every listed field is the empty string, and nothing else is set. */
  function DefaultValues(fields: seq<string>): (r: map<string, string>)
    ensures r.Keys == set f | f in fields
    ensures forall k :: k in r ==> r[k] == ""
  {
    AddEmpty(map[], fields)
  }
}
