/** What `renderField` and the submit button show: each field's label,
    placeholder and input type are derived from its name alone, and the
    current value and error come from the form state; every control is
    disabled while the caller reports loading. */
module FieldRendering {
  import opened Wrappers
  import opened Strings
  import opened AuthConfig

  /** The label text; capitalisation is left to the stylesheet. */
  function Label(name: string): (r: string)
    ensures name == "confirmPassword" ==> r == "Confirm Password"
    ensures !Includes(name, "confirmPassword") ==> r == name
  {
    ReplaceWhole("confirmPassword", "Confirm Password");
    ReplaceFirst(name, "confirmPassword", "Confirm Password")
  }

  function Placeholder(name: string): (r: string)
    ensures name == "confirmPassword" ==> r == "Enter your password"
    ensures !Includes(name, "confirmPassword") ==> r == "Enter your " + name
  {
    ReplaceWhole("confirmPassword", "password");
    "Enter your " + ReplaceFirst(name, "confirmPassword", "password")
  }

  /** A masked input exactly when the name contains lower-case "password". */
  function InputType(name: string): (r: string)
    ensures r == "password" <==> Includes(name, "password")
    ensures r != "password" ==> r == "text"
  {
    if Includes(name, "password") then "password" else "text"
  }

  /** The test is case-sensitive: "confirmPassword" has no lower-case 'p',
      so the confirmation renders as a plain text input. */
  lemma ConfirmationIsText()
    ensures InputType("confirmPassword") == "text"
  {
    AbsentFirstChar("confirmPassword", "password");
  }

  datatype FieldView = FieldView(
    name: string,
    labelText: string,
    placeholder: string,
    inputType: string,
    value: Option<string>,
    error: Option<string>,
    disabled: bool)

  datatype ButtonView = ButtonView(text: string, disabled: bool, spinner: bool)

  /** One `FormField`: the input bound to the field's value, its message below it. */
  function RenderField(name: string, values: map<string, string>, errors: map<string, string>, isLoading: bool): (r: FieldView)
    ensures r.inputType == "password" <==> Includes(name, "password")
    ensures name == "confirmPassword" ==> r.labelText == "Confirm Password" && r.placeholder == "Enter your password"
    ensures !Includes(name, "confirmPassword") ==> r.labelText == name && r.placeholder == "Enter your " + name
    ensures r.name == name
    ensures r.value == Lookup(values, name) && r.error == Lookup(errors, name)
    ensures r.disabled == isLoading
  {
    FieldView(name, Label(name), Placeholder(name), InputType(name), Lookup(values, name), Lookup(errors, name), isLoading)
  }

  /** `config.fields.map(renderField)`: one input per listed field, in list order. */
  function RenderFields(fields: seq<string>, values: map<string, string>, errors: map<string, string>, isLoading: bool): (r: seq<FieldView>)
    ensures |r| == |fields|
    ensures forall i :: 0 <= i < |r| ==>
      r[i].name == fields[i] && r[i].disabled == isLoading
      && r[i].value == Lookup(values, fields[i]) && r[i].error == Lookup(errors, fields[i])
      && r[i].labelText == Label(fields[i]) && r[i].placeholder == Placeholder(fields[i])
      && r[i].inputType == InputType(fields[i])
  {
    seq(|fields|, i requires 0 <= i < |fields| => RenderField(fields[i], values, errors, isLoading))
  }

  /** The submit button: disabled, with a spinner, while loading. */
  function SubmitButton(config: FormConfig, isLoading: bool): (b: ButtonView)
    ensures b.text == config.submitText
    ensures b.disabled == isLoading && b.spinner == isLoading
  {
    ButtonView(config.submitText, isLoading, isLoading)
  }

  /** For the names the registry uses, the label is the name itself except
      for the confirmation, both password fields share one placeholder, and
      only the `password` field is masked. */
  lemma RegistryFieldViews(mode: Mode, i: int)
    requires 0 <= i < |Config(mode).fields|
    ensures var f := Config(mode).fields[i];
      && Label(f) == (if f == "confirmPassword" then "Confirm Password" else f)
      && Placeholder(f) == "Enter your " + (if f == "confirmPassword" then "password" else f)
      && InputType(f) == (if f == "password" then "password" else "text")
  {
    RegistryNames(mode, i);
    NameView(Config(mode).fields[i]);
  }

  lemma NameView(f: string)
    requires f in {"email", "password", "name", "confirmPassword"}
    ensures Label(f) == (if f == "confirmPassword" then "Confirm Password" else f)
    ensures Placeholder(f) == "Enter your " + (if f == "confirmPassword" then "password" else f)
    ensures InputType(f) == (if f == "password" then "password" else "text")
  {
    if f == "confirmPassword" {
      ConfirmationView();
    } else if f == "password" {
      PasswordView();
    } else if f == "email" {
      PlainView("email");
    } else {
      PlainView("name");
    }
  }

  lemma ConfirmationView()
    ensures Label("confirmPassword") == "Confirm Password"
    ensures Placeholder("confirmPassword") == "Enter your password"
    ensures InputType("confirmPassword") == "text"
  {
    ConfirmationIsText();
  }

  lemma RegistryNames(mode: Mode, i: int)
    requires 0 <= i < |Config(mode).fields|
    ensures Config(mode).fields[i] in {"email", "password", "name", "confirmPassword"}
  {
    match mode
    case Login => assert Config(mode).fields == ["email", "password"];
    case Register => assert Config(mode).fields == ["name", "email", "password"];
    case ForgotPassword => assert Config(mode).fields == ["email"];
    case ResetPassword => assert Config(mode).fields == ["password", "confirmPassword"];
  }

  lemma PasswordView()
    ensures Label("password") == "password" && Placeholder("password") == "Enter your password"
    ensures InputType("password") == "password"
  {
    ShorterExcludes("password", "confirmPassword");
    ReplaceWhole("password", "");
  }

  lemma PlainView(f: string)
    requires f == "email" || f == "name"
    ensures Label(f) == f && Placeholder(f) == "Enter your " + f && InputType(f) == "text"
  {
    ShorterExcludes(f, "confirmPassword");
    ShorterExcludes(f, "password");
  }
}
