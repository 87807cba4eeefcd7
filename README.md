# Auth form model

A Dafny model of the mode-driven authentication form `AuthForm`. One
component serves four modes: sign-in, registration, "forgot password" and
"reset password". For each mode a registry entry fixes:

- a validation schema;
- a title and a description;
- the ordered list of input fields;
- the submit label.

The component wires its parts together as follows:

- It mounts a form whose values all start empty.
- It renders one input per listed field. Each input's label, placeholder
  and input type are derived from the field's name.
- On submit it validates the values against the mode's schema. The page's
  `onSubmit` callback is called only when validation succeeds.
- It disables every input and the submit button while the page reports
  that it is loading.

The project is split into these modules:

- `Wrappers` (`wrappers.dfy`): `Option`, plus `Lookup` on maps.
- `Strings` (`strings.dfy`): the two string operations the rendering uses.
  - `Includes` is JavaScript's case-sensitive substring test.
  - `ReplaceFirst` is `String.prototype.replace` with a string pattern and
    a replacement without `$` patterns. It replaces only the first
    occurrence.
- `Schemas` (`schemas.dfy`): the subset of the schema library the forms
  use.
  - A field check is a minimum length, an email check, or nothing.
  - A missing key is reported as `"Required"`.
  - An optional object-level equality refinement reports its message on a
    chosen path.
  - Errors are collected the way the resolver collects them: one message per
    path, and a field's own error wins over the refinement's.
  - `Validate` returns either the validated data or a non-empty error map.
- `AuthConfig` (`auth_config.dfy`): the four modes, the four schemas with
  their exact messages and minimums, and the registry `Config`. Also the
  `defaultValues` fold.
- `ModeRules` (`mode_rules.dfy`): what validation demands in each mode. It
  gives an independent predicate `ModeAccepts` for acceptance and one lemma
  per rule.
- `FieldRendering` (`rendering.dfy`): label, placeholder and input type of
  a field; the rendered inputs; the submit button.
- `FormEngine` (`form_engine.dfy`): the class `AuthForm`, which holds the
  mounted form's state: `values`, `errors` and `isLoading`.
  - `SetFieldValue` models typing into an input.
  - `Submit` models `handleSubmit`.
  - `Complete` models the page finishing its asynchronous work.
  - Three scenario methods drive the class through concrete sessions.

Email syntax is a parameter, `emails: iset<string>`: the set of strings the
library's email check accepts. String length is the sequence length `|s|`.

Three points where the code may differ from what a reader expects:

- `confirmPassword` has no check of its own. It is neither required to be
  non-empty nor to have a minimum length. Two equal empty strings give it
  no error, but the password's minimum still applies.
- Labels are not capitalised by the component. The label text is the field
  name, with `confirmPassword` replaced by `Confirm Password`. Any
  capitalisation comes from a style class.
- The two-character name rule exists only in the registration schema.

## Model

| member | source | states |
|---|---|---|
| Strings.IndexOf | src/components/AuthForm.tsx:109 | the result is the first position at which the pattern occurs; `None` means it occurs nowhere |
| Strings.Includes | src/components/AuthForm.tsx:112 | true exactly when the pattern occurs at some position (case-sensitive) |
| Strings.ReplaceFirst | src/components/AuthForm.tsx:109 | a string without the pattern is returned unchanged; otherwise only the first occurrence is replaced |
| Strings.ShorterExcludes | src/components/AuthForm.tsx:112 | a string shorter than the pattern never contains it |
| Strings.ReplaceWhole | src/components/AuthForm.tsx:109 | replacing the pattern in the pattern itself yields exactly the replacement |
| Strings.AbsentFirstChar | src/components/AuthForm.tsx:112 | a string that never contains the pattern's first character does not contain the pattern |
| Schemas.NameSetMembers | src/components/AuthForm.tsx:28-49 | a name is a schema key exactly when some field carries it |
| Schemas.FieldIssue | src/components/AuthForm.tsx:28-45 | a field has no issue exactly when its key is present and its value passes the field's check |
| Schemas.FieldErrors | src/components/AuthForm.tsx:28-45 | the per-field error map names only schema keys |
| Schemas.FieldErrorsCoverFailures | src/components/AuthForm.tsx:28-45 | every field with an issue appears in the error map |
| Schemas.FieldErrorsExact | src/components/AuthForm.tsx:28-45 | with distinct field names, each field's entry is exactly its own issue: its message, or absent |
| Schemas.FieldErrorsEmpty | src/components/AuthForm.tsx:28-45 | the field errors are empty exactly when every field passes |
| Schemas.RefinementHolds | src/components/AuthForm.tsx:46-49 | the refinement fails only when both compared keys are present with different values; no refinement always holds |
| Schemas.SchemaErrors | src/components/AuthForm.tsx:28-49 | the error keys are the failing fields plus the refinement's path when it fails; every field's own message is kept, and the refinement's message appears only on a path no field issue took |
| Schemas.SchemaErrorsByField | src/components/AuthForm.tsx:43-49 | field messages win over the refinement message; a failed refinement is reported on its path when that field passes |
| Schemas.KeysPresent | src/components/AuthForm.tsx:28-49 | when no field has an issue, every schema key is present in the values |
| Schemas.Validate | src/components/AuthForm.tsx:28-49 | valid exactly when every field passes and the refinement holds; valid data are the schema's keys with the submitted values; an invalid result has a non-empty error map; errors name only schema keys and refinement paths; each failing field carries its own message; a passing field has no entry, except that a failed refinement's message is reported on its path when that field passes |
| AuthConfig.Config | src/components/AuthForm.tsx:62-91 | defined for every mode, and each entry is coherent: distinct field names, the field list is the schema's field order, refinement paths are keys, and an entry has the password-confirmation refinement exactly when it lists `confirmPassword` |
| AuthConfig.ConfigEntry | src/components/AuthForm.tsx:62-91 | the literal registry entries; each entry's field list names its schema's keys in declaration order |
| AuthConfig.FieldsAreSchemaKeys | src/components/AuthForm.tsx:62-91 | in every mode the rendered fields are exactly the schema's key set, each listed once |
| AuthConfig.RegistryKeys | src/components/AuthForm.tsx:28-49 | the key sets written out: sign-in {email, password}, registration {name, email, password}, forgot password {email}, reset {password, confirmPassword} |
| AuthConfig.EntryCoherent | src/components/AuthForm.tsx:62-91 | each literal registry entry is coherent with its schema |
| AuthConfig.FieldNames | src/components/AuthForm.tsx:62-91 | the names of a schema's fields, in order |
| AuthConfig.ListedKeys | src/components/AuthForm.tsx:62-91 | the set of a schema's field names is its key set |
| AuthConfig.AddEmpty | src/components/AuthForm.tsx:99 | the fold adds exactly the listed fields, each set to the empty string, and keeps every other entry |
| AuthConfig.DefaultValues | src/components/AuthForm.tsx:99 | the default values have exactly the listed fields as keys, all empty |
| ModeRules.Resolve | src/components/AuthForm.tsx:96-98 | the resolver on the mode's schema: errors name only the mode's keys, valid data have exactly the mode's fields as keys, and a failure always carries an error |
| ModeRules.ResolveMatchesModeRules | src/components/AuthForm.tsx:28-49 | in every mode, validation succeeds exactly when the independently stated mode rules hold; the data are then the values of the mode's fields |
| ModeRules.LoginRules | src/components/AuthForm.tsx:28-31 | sign-in accepts exactly a valid email and a non-empty password |
| ModeRules.RegisterRules | src/components/AuthForm.tsx:33-37 | registration accepts exactly a name of at least 2, a valid email and a password of at least 8 characters |
| ModeRules.ForgotPasswordRules | src/components/AuthForm.tsx:39-41 | the reset-link request accepts exactly a valid email |
| ModeRules.ResetPasswordRules | src/components/AuthForm.tsx:43-49 | the reset accepts exactly a password of at least 8 characters equal to its confirmation |
| ModeRules.PasswordRule | src/components/AuthForm.tsx:28-49 | the password error: under 1 character with "Password is required." in sign-in; under 8 with "Password must be at least 8 characters." in registration and reset |
| ModeRules.OneCharacterPassword | src/components/AuthForm.tsx:28-37 | the password "a" has no error in sign-in but fails registration with the 8-character message |
| ModeRules.NameRule | src/components/AuthForm.tsx:34 | a registration name under 2 characters gets "Name must be at least 2 characters.", otherwise no error |
| ModeRules.EmailRule | src/components/AuthForm.tsx:28-41 | in every mode with an email field, a string outside the email set gets "Invalid email address.", otherwise no error |
| ModeRules.ConfirmationRule | src/components/AuthForm.tsx:43-49 | in the reset form the confirmation has an error ("Passwords don't match") exactly when the two differ; the password's error depends only on its length; no other key gets an error |
| ModeRules.EmptyFieldsReported | src/components/AuthForm.tsx:28-49 | given that the empty string is not an email address, a missing or empty field other than the confirmation makes the submission fail with an error on that field |
| FieldRendering.Label | src/components/AuthForm.tsx:109 | `confirmPassword` is labelled "Confirm Password"; a name without `confirmPassword` is its own label |
| FieldRendering.Placeholder | src/components/AuthForm.tsx:113 | "Enter your password" for `confirmPassword`; "Enter your " followed by the name for a name without `confirmPassword` |
| FieldRendering.InputType | src/components/AuthForm.tsx:112 | "password" exactly when the name contains lower-case `password`, else "text" |
| FieldRendering.ConfirmationIsText | src/components/AuthForm.tsx:112 | the confirmation field is a plain text input, because the test is case-sensitive |
| FieldRendering.RenderField | src/components/AuthForm.tsx:102-122 | one input for the given name: masked exactly when the name contains lower-case `password`; the confirmation's label and placeholder replaced, other names used as they are; showing the form's value and message for that name; disabled exactly while loading |
| FieldRendering.RenderFields | src/components/AuthForm.tsx:133 | one input per listed field, in list order, each with that field's label, placeholder, input type, value and error, and disabled exactly while loading |
| FieldRendering.SubmitButton | src/components/AuthForm.tsx:134-137 | the button shows the mode's submit text, and is disabled and shows a spinner exactly while loading |
| FieldRendering.RegistryFieldViews | src/components/AuthForm.tsx:102-122 | for every registered field: label, placeholder and input type written out |
| FieldRendering.RegistryNames | src/components/AuthForm.tsx:62-91 | every registered field is one of `email`, `password`, `name`, `confirmPassword` |
| FieldRendering.NameView | src/components/AuthForm.tsx:109-113 | label, placeholder and type of each of the four registered names |
| FieldRendering.ConfirmationView | src/components/AuthForm.tsx:109-113 | `confirmPassword` is labelled "Confirm Password", has placeholder "Enter your password", and is a text input |
| FieldRendering.PasswordView | src/components/AuthForm.tsx:109-113 | `password` is labelled "password", has placeholder "Enter your password", and is masked |
| FieldRendering.PlainView | src/components/AuthForm.tsx:109-113 | `email` and `name` are their own labels, read "Enter your " followed by the name, and are text inputs |
| FormEngine.AuthForm.constructor | src/components/AuthForm.tsx:96-100 | a freshly mounted form holds the mode's default values, no errors, and is not loading |
| FormEngine.AuthForm.SetFieldValue | src/components/AuthForm.tsx:114-115 | an edit updates that one value unless loading, when the input is disabled and nothing changes; errors and loading are untouched |
| FormEngine.AuthForm.Submit | src/components/AuthForm.tsx:132-134 | while loading nothing happens; otherwise the values are validated afresh: on success the data are handed on, errors are cleared and loading starts; on failure the error map is replaced and nothing is handed on |
| FormEngine.AuthForm.Complete | src/pages/LoginPage.tsx:40 | loading ends; values and errors are unchanged |
| FormEngine.AuthForm.Inputs | src/components/AuthForm.tsx:133 | the rendered inputs of the current state: one per field, in order, each with its current value and error, disabled exactly while loading |
| FormEngine.AuthForm.Button | src/components/AuthForm.tsx:134-137 | the button of the current state: the mode's submit text, disabled and showing the spinner exactly while loading |
| FormEngine.MountedDefaults | src/components/AuthForm.tsx:99 | the default values of each of the four forms, written out |
| FormEngine.TwoDefaults | src/components/AuthForm.tsx:99 | the fold over a two-field list |
| FormEngine.ThreeDefaults | src/components/AuthForm.tsx:99 | the fold over a three-field list |
| FormEngine.ResetMismatchRejected | src/components/AuthForm.tsx:43-49 | a valid password with a different confirmation fails with the mismatch message on the confirmation only |
| FormEngine.ResetMatchAccepted | src/components/AuthForm.tsx:43-49 | a valid password with an equal confirmation is accepted with both values as data |
| FormEngine.ResetPasswordScenario | src/components/AuthForm.tsx:132-134 | a reset session: a mismatched submit is refused with only the confirmation error; the corrected submit hands on both values; a further submit while loading hands on nothing |
| FormEngine.OneCharacterSignInAccepted | src/components/AuthForm.tsx:28-31 | a valid email with the password "a" is accepted by sign-in |
| FormEngine.OneCharacterSignIn | src/components/AuthForm.tsx:132 | a sign-in session with the password "a" hands on exactly the entered email and password |
| FormEngine.OneCharacterRegistration | src/components/AuthForm.tsx:33-37 | a registration session with the password "a" hands on nothing and shows the 8-character message on the password |

## Left out

- The mode-dependent footer links (src/components/AuthForm.tsx:141-162): they are routing links with no logic.
- The page shells that host the form. Their timers, toasts and navigation are timing and I/O. Their `setIsLoading(true)` inside `onSubmit` is folded into `Submit`. Their `setIsLoading(false)` after the delay is `Complete`.
- The header and footer layout components: static markup and a clock read.
- `console.log` calls, the card, button and input UI components, the spinner icon and style classes. Of these, only the spinner's presence is kept, as `ButtonView.spinner`.
- The schema library's email regular expression. It is the parameter `emails`, the set of accepted strings.
- String length in UTF-16 code units. It is modelled as the sequence length of `seq<char>`.
- FormEngine.AuthForm.SetFieldValue: does not model react-hook-form revalidating a field on change after a failed submit. That timing is library-internal and not fixed by this component, so an edit leaves the error map as it was.
- Focus handling and touched/dirty flags of the form library: no logic of the component depends on them.
- FormEngine.AuthForm.Submit: one atomic step covering the resolver's validation, the call to `onSubmit` and the page's `setIsLoading(true)`. Its `isLoading` guard stands for the disabled button and inputs. In the component, `handleSubmit` itself never checks `isLoading`, and the disabled state takes effect only after the page's state update re-renders the form. A second submit event arriving in the window before that re-render is not modelled.
- Concurrency between the page's timer and further input: `Complete` is a separate step the caller takes.
