/** The part of zod's object-schema semantics that the authentication
    form relies on, together with the way the zod resolver of
    react-hook-form turns zod's issues into a per-field error map:
    string fields with at most one check each, and an optional
    object-level equality refinement that reports on one path. */
module Schemas {
  import opened Wrappers

  /** The check chained on a `z.string()` field. */
  datatype Check =
    | MinLength(min: nat, message: string)   // `.min(n, { message })`
    | Email(message: string)                 // `.email({ message })`
    | AnyString                              // plain `z.string()`

  datatype Field = Field(name: string, check: Check)

  /** `.refine(data => data[left] === data[right], { message, path: [path] })` */
  datatype Refinement = FieldsEqual(left: string, right: string, message: string, path: string)

  datatype Schema = Schema(fields: seq<Field>, refinement: Option<Refinement>)

  /** Either the parsed data, or a non-empty map from field name to its message. */
  datatype ValidationResult =
    | Valid(data: map<string, string>)
    | Invalid(errors: map<string, string>)
  {
    /** The error map the form shows: empty on success. */
    function Errors(): map<string, string> {
      if Valid? then map[] else errors
    }
  }

  /** zod's message for a key whose value is missing (undefined). */
  const RequiredMessage: string := "Required"

  function NameSet(fields: seq<Field>): set<string> {
    if fields == [] then {} else {fields[0].name} + NameSet(fields[1..])
  }

  lemma {:induction false} NameSetMembers(fields: seq<Field>, k: string)
    ensures k in NameSet(fields) <==> exists i :: 0 <= i < |fields| && fields[i].name == k
  {
    if fields != [] {
      NameSetMembers(fields[1..], k);
      if k in NameSet(fields[1..]) {
        var j :| 0 <= j < |fields[1..]| && fields[1..][j].name == k;
        assert fields[j + 1].name == k;
      }
      if exists i :: 0 <= i < |fields| && fields[i].name == k {
        var i :| 0 <= i < |fields| && fields[i].name == k;
        if i > 0 { assert fields[1..][i - 1].name == k; }
      }
    }
  }

  function Keys(schema: Schema): set<string> {
    NameSet(schema.fields)
  }

  predicate DistinctNames(fields: seq<Field>) {
    forall i, j :: 0 <= i < j < |fields| ==> fields[i].name != fields[j].name
  }

  /** The keys of a `z.object` shape are the keys of an object literal, hence distinct. */
  predicate WellFormed(schema: Schema) {
    DistinctNames(schema.fields)
  }

  /** The paths a failing refinement may report on. */
  function RefinementPaths(refinement: Option<Refinement>): set<string> {
    if refinement.Some? then {refinement.value.path} else {}
  }

  /** Whether the string `s` passes `check`; `emails` is the set of strings the library accepts as email addresses. */
  predicate Satisfies(check: Check, s: string, emails: iset<string>) {
    match check
    case MinLength(min, _) => |s| >= min
    case Email(_) => s in emails
    case AnyString => true
  }

  /** The issue zod reports for one field of the object, if any. */
  function FieldIssue(f: Field, values: map<string, string>, emails: iset<string>): (r: Option<string>)
    ensures r.None? <==> f.name in values && Satisfies(f.check, values[f.name], emails)
  {
    if f.name !in values then Some(RequiredMessage)
    else match f.check
      case MinLength(min, message) => if |values[f.name]| < min then Some(message) else None
      case Email(message) => if values[f.name] in emails then None else Some(message)
      case AnyString => None
  }

  /** The refinement holds, or is not evaluated because a compared key is missing
      (a missing key aborts the object parse before refinements run). Only the
      two compared keys are tested for presence: this is exact for a schema
      whose only keys are the compared ones, as the reset schema's are; a
      schema with further keys would also skip the refinement when one of
      those is missing. */
  predicate RefinementHolds(refinement: Option<Refinement>, values: map<string, string>): (b: bool)
    ensures refinement.None? ==> b
    ensures !b <==> (refinement.Some? && refinement.value.left in values && refinement.value.right in values
      && values[refinement.value.left] != values[refinement.value.right])
  {
    match refinement
    case None => true
    case Some(FieldsEqual(left, right, _, _)) =>
      left !in values || right !in values || values[left] == values[right]
  }

  /** The first issue of each field, keyed by field name: every field is
      checked, and a field's first issue is the one that is kept. */
  function FieldErrors(fields: seq<Field>, values: map<string, string>, emails: iset<string>): (r: map<string, string>)
    ensures r.Keys <= NameSet(fields)
  {
    if fields == [] then map[]
    else
      var rest := FieldErrors(fields[1..], values, emails);
      match FieldIssue(fields[0], values, emails)
      case Some(m) => rest[fields[0].name := m]
      case None => rest
  }

  /** Every failing field has an entry. */
  lemma {:induction false} FieldErrorsCoverFailures(fields: seq<Field>, values: map<string, string>, emails: iset<string>, i: int)
    requires 0 <= i < |fields| && FieldIssue(fields[i], values, emails).Some?
    ensures fields[i].name in FieldErrors(fields, values, emails)
  {
    if i > 0 {
      assert fields[1..][i - 1] == fields[i];
      FieldErrorsCoverFailures(fields[1..], values, emails, i - 1);
    }
  }

  /** With distinct names, each field's entry is exactly its own first issue. */
  lemma {:induction false} FieldErrorsExact(fields: seq<Field>, values: map<string, string>, emails: iset<string>, i: int)
    requires DistinctNames(fields) && 0 <= i < |fields|
    ensures Lookup(FieldErrors(fields, values, emails), fields[i].name) == FieldIssue(fields[i], values, emails)
  {
    var rest := FieldErrors(fields[1..], values, emails);
    if i == 0 {
      NameSetMembers(fields[1..], fields[0].name);
    } else {
      assert fields[1..][i - 1] == fields[i];
      FieldErrorsExact(fields[1..], values, emails, i - 1);
    }
  }

  /** No failing field, no entry. */
  lemma FieldErrorsEmpty(fields: seq<Field>, values: map<string, string>, emails: iset<string>)
    requires DistinctNames(fields)
    ensures FieldErrors(fields, values, emails) == map[] <==>
      forall i :: 0 <= i < |fields| ==> FieldIssue(fields[i], values, emails).None?
  {
    var r := FieldErrors(fields, values, emails);
    if r != map[] {
      var k :| k in r;
      NameSetMembers(fields, k);
      var i :| 0 <= i < |fields| && fields[i].name == k;
      FieldErrorsExact(fields, values, emails, i);
    }
    forall i | 0 <= i < |fields| && FieldIssue(fields[i], values, emails).Some? ensures fields[i].name in r {
      FieldErrorsCoverFailures(fields, values, emails, i);
    }
  }

  /** The error map the resolver builds from the issues in the order zod
      reports them (fields first, refinement last), keeping the first per path. */
  function SchemaErrors(schema: Schema, values: map<string, string>, emails: iset<string>): (r: map<string, string>)
    ensures r.Keys == FieldErrors(schema.fields, values, emails).Keys
      + (if RefinementHolds(schema.refinement, values) then {} else {schema.refinement.value.path})
    ensures forall k :: k in FieldErrors(schema.fields, values, emails) ==> r[k] == FieldErrors(schema.fields, values, emails)[k]
    ensures !RefinementHolds(schema.refinement, values) && schema.refinement.value.path !in FieldErrors(schema.fields, values, emails) ==>
      r[schema.refinement.value.path] == schema.refinement.value.message
  {
    var refinementErrors :=
      if RefinementHolds(schema.refinement, values) then map[]
      else map[schema.refinement.value.path := schema.refinement.value.message];
    refinementErrors + FieldErrors(schema.fields, values, emails)
  }

  /** How the entries of `SchemaErrors` arise from the field issues and the refinement. */
  lemma SchemaErrorsByField(schema: Schema, values: map<string, string>, emails: iset<string>)
    requires WellFormed(schema)
    ensures SchemaErrors(schema, values, emails) == map[] <==>
      (forall i :: 0 <= i < |schema.fields| ==> FieldIssue(schema.fields[i], values, emails).None?)
      && RefinementHolds(schema.refinement, values)
    ensures forall i :: 0 <= i < |schema.fields| ==>
      Lookup(SchemaErrors(schema, values, emails), schema.fields[i].name) ==
        if FieldIssue(schema.fields[i], values, emails).Some? then FieldIssue(schema.fields[i], values, emails)
        else if !RefinementHolds(schema.refinement, values) && schema.fields[i].name == schema.refinement.value.path
        then Some(schema.refinement.value.message)
        else None
    ensures !RefinementHolds(schema.refinement, values)
      && (forall i :: (0 <= i < |schema.fields| && schema.fields[i].name == schema.refinement.value.path
          ==> FieldIssue(schema.fields[i], values, emails).None?))
      ==> Lookup(SchemaErrors(schema, values, emails), schema.refinement.value.path) == Some(schema.refinement.value.message)
  {
    var fe := FieldErrors(schema.fields, values, emails);
    FieldErrorsEmpty(schema.fields, values, emails);
    if !RefinementHolds(schema.refinement, values) {
      var path := schema.refinement.value.path;
      assert path in SchemaErrors(schema, values, emails);
      NameSetMembers(schema.fields, path);
      if path in fe {
        var i :| 0 <= i < |schema.fields| && schema.fields[i].name == path;
        FieldErrorsExact(schema.fields, values, emails, i);
      }
    }
    forall i | 0 <= i < |schema.fields| ensures Lookup(fe, schema.fields[i].name) == FieldIssue(schema.fields[i], values, emails) {
      FieldErrorsExact(schema.fields, values, emails, i);
    }
  }

  /** Every key of the schema is present when no field has an issue. */
  lemma KeysPresent(schema: Schema, values: map<string, string>, emails: iset<string>)
    requires forall i :: 0 <= i < |schema.fields| ==> FieldIssue(schema.fields[i], values, emails).None?
    ensures Keys(schema) <= values.Keys
  {
    forall k | k in Keys(schema) ensures k in values {
      NameSetMembers(schema.fields, k);
      var i :| 0 <= i < |schema.fields| && schema.fields[i].name == k;
    }
  }

  /** Parse `values` against `schema`: the data restricted to the schema's
      keys when nothing fails, otherwise every failing path with its message. */
  function Validate(schema: Schema, values: map<string, string>, emails: iset<string>): (r: ValidationResult)
    requires WellFormed(schema)
    ensures r.Valid? <==>
      (forall i :: 0 <= i < |schema.fields| ==> FieldIssue(schema.fields[i], values, emails).None?)
      && RefinementHolds(schema.refinement, values)
    ensures r.Valid? ==>
      r.data.Keys == Keys(schema) && forall k :: k in r.data ==> k in values && r.data[k] == values[k]
    ensures r.Invalid? ==> r.errors != map[]
    ensures r.Errors().Keys <= Keys(schema) + RefinementPaths(schema.refinement)
    ensures forall i :: 0 <= i < |schema.fields| && FieldIssue(schema.fields[i], values, emails).Some? ==>
      Lookup(r.Errors(), schema.fields[i].name) == FieldIssue(schema.fields[i], values, emails)
    ensures forall i :: (0 <= i < |schema.fields|
      && FieldIssue(schema.fields[i], values, emails).None?
      && (RefinementHolds(schema.refinement, values) || schema.fields[i].name != schema.refinement.value.path)
      ==> schema.fields[i].name !in r.Errors())
    ensures !RefinementHolds(schema.refinement, values)
      && (forall i :: (0 <= i < |schema.fields| && schema.fields[i].name == schema.refinement.value.path
          ==> FieldIssue(schema.fields[i], values, emails).None?))
      ==> Lookup(r.Errors(), schema.refinement.value.path) == Some(schema.refinement.value.message)
  {
    var errors := SchemaErrors(schema, values, emails);
    SchemaErrorsByField(schema, values, emails);
    if errors == map[] then
      KeysPresent(schema, values, emails);
      Valid(map k | k in Keys(schema) && k in values :: values[k])
    else
      Invalid(errors)
  }
}
