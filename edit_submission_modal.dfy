/**
 * The edit dialog: the submission's form data without its bookkeeping keys,
 * and the schema it hands to the form, each field carrying the submission's
 * value as its `defaultValue`.
 */
module EditSubmissionModal {
  import opened Wrappers
  import opened JsValues
  import opened Schema
  import opened DynamicForm

  const MetaKeys: set<string> := {"id", "createdAt", "updatedAt"}

  /** `const { id, createdAt, updatedAt, ...formData } = submission`. */
  function GetFormData(submission: Obj): (data: Obj)
    ensures forall e :: e in data ==> e in submission && e.0 !in MetaKeys
  {
    Omit(submission, MetaKeys)
  }

  /** No bookkeeping key survives, every other key keeps its value. The
      submission is a value, so it is left as it was. */
  lemma FormDataEntries(submission: Obj, k: string)
    ensures k in MetaKeys ==> k !in Keys(GetFormData(submission)) && Get(GetFormData(submission), k) == Missing
    ensures k !in MetaKeys ==> Get(GetFormData(submission), k) == Get(submission, k)
  {
    GetOmit(submission, MetaKeys, k);
    if k in MetaKeys {
      assert forall i :: 0 <= i < |GetFormData(submission)| ==> GetFormData(submission)[i] in GetFormData(submission);
    }
  }

  /** `schema.fields.map(field => ({...field, defaultValue: data[field.name]}))`. */
  function EditFields(fields: seq<Field>, data: Obj): (r: seq<Field>)
    ensures |r| == |fields|
    ensures forall i :: 0 <= i < |fields| ==> r[i] == fields[i].(defaultValue := Some(Get(data, fields[i].name)))
  {
    if fields == [] then [] else [fields[0].(defaultValue := Some(Get(data, fields[0].name)))] + EditFields(fields[1..], data)
  }

  /** The schema the dialog renders. */
  function EditSchema(schema: FormSchema, submission: Obj): FormSchema {
    schema.(fields := EditFields(schema.fields, GetFormData(submission)))
  }

  /** Same title, same fields in the same order, each changed only in its
      `defaultValue`. */
  lemma EditSchemaShape(schema: FormSchema, submission: Obj)
    ensures var e := EditSchema(schema, submission);
            e.title == schema.title && e.description == schema.description
            && FieldNames(e.fields) == FieldNames(schema.fields)
            && forall i :: 0 <= i < |schema.fields| ==>
                 e.fields[i].(defaultValue := schema.fields[i].defaultValue) == schema.fields[i]
  {
    var e := EditSchema(schema, submission);
    assert |FieldNames(e.fields)| == |FieldNames(schema.fields)|;
  }

  /** As written, the form ignores every `defaultValue`: the edit dialog
      starts from exactly the blank values of a new submission. */
  lemma EditFormStartsBlank(schema: FormSchema, submission: Obj)
    ensures DefaultValues(EditSchema(schema, submission).fields) == DefaultValues(schema.fields)
  {
    DefaultsIgnoreTheRest(EditSchema(schema, submission).fields, schema.fields);
  }

  /** A submission whose full name is "Ann" opens with a blank name. */
  lemma EditFormLosesName()
    ensures var field := Field("fullName", Text, "Full Name", None, None, NoRules, None);
            var schema := FormSchema("", "", [field]);
            var submission := [("id", Str("SUB-000001")), ("fullName", Str("Ann"))];
            Get(GetFormData(submission), "fullName") == Str("Ann")
            && Get(DefaultValues(EditSchema(schema, submission).fields), "fullName") == Str("")
  {
    var field := Field("fullName", Text, "Full Name", None, None, NoRules, None);
    var submission := [("id", Str("SUB-000001")), ("fullName", Str("Ann"))];
    FormDataEntries(submission, "fullName");
    EditFormStartsBlank(FormSchema("", "", [field]), submission);
    DistinctFill([field], KindDefault, 0);
  }

  /** With the form honouring `defaultValue`, the dialog opens on the
      submission's own values: each field whose value the submission holds
      starts from it, any other from its kind's default. */
  lemma EditFormPrefilled(schema: FormSchema, submission: Obj, i: nat)
    requires i < |schema.fields| && Distinct(FieldNames(schema.fields))
    ensures var f := schema.fields[i];
            var start := Get(PrefilledValues(EditSchema(schema, submission).fields), f.name);
            (f.name !in MetaKeys && !Get(submission, f.name).Missing? ==> start == Get(submission, f.name))
            && (f.name in MetaKeys || Get(submission, f.name).Missing? ==> start == DefaultFor(f.kind))
  {
    var fields := EditSchema(schema, submission).fields;
    EditSchemaShape(schema, submission);
    DistinctFill(fields, GivenOrDefault, i);
    FormDataEntries(submission, schema.fields[i].name);
  }
}
