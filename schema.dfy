/**
 * The declarative form schema: an ordered list of field descriptors, each
 * with a kind, a label, options for the two select kinds, and a
 * `validation` object of optional rules.
 */
module Schema {
  import opened Wrappers
  import opened JsValues

  /** The eight values of a field's `type`. */
  datatype Kind = Text | Email | Number | Select | MultiSelect | Date | Textarea | Switch

  /** One `{label, value}` option of a select or multi-select. `label` is a
      Dafny keyword, so labels are called `caption` throughout the model. */
  datatype Choice = Choice(caption: string, value: string)

  /** A field's `validation` object; a key that is absent is `None`. A field
      with no `validation` object at all has `NoRules`. */
  datatype Rules = Rules(
    required: bool,
    minLength: Option<nat>,
    maxLength: Option<nat>,
    regex: Option<string>,
    regexMessage: Option<string>,
    min: Option<int>,
    max: Option<int>,
    minDate: Option<string>,
    minSelected: Option<nat>,
    maxSelected: Option<nat>)

  const NoRules: Rules := Rules(false, None, None, None, None, None, None, None, None, None)

  /** A field descriptor. `defaultValue` is absent in the served schema; the
      edit dialog adds it (possibly holding `undefined`). */
  datatype Field = Field(
    name: string,
    kind: Kind,
    caption: string,
    placeholder: Option<string>,
    options: Option<seq<Choice>>,
    rules: Rules,
    defaultValue: Option<Value>)

  datatype FormSchema = FormSchema(title: string, description: string, fields: seq<Field>)

  /** `options.map(opt => opt.value)`. */
  function OptionValues(cs: seq<Choice>): (vs: seq<string>)
    ensures |vs| == |cs| && forall i :: 0 <= i < |cs| ==> vs[i] == cs[i].value
  {
    if cs == [] then [] else [cs[0].value] + OptionValues(cs[1..])
  }

  /** The schema's field names, in order. */
  function FieldNames(fields: seq<Field>): (ns: seq<string>)
    ensures |ns| == |fields| && forall i :: 0 <= i < |fields| ==> ns[i] == fields[i].name
  {
    if fields == [] then [] else [fields[0].name] + FieldNames(fields[1..])
  }

  predicate Distinct<T(==)>(s: seq<T>) {
    forall i, j :: 0 <= i < j < |s| ==> s[i] != s[j]
  }
}
