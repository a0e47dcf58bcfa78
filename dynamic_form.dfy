/**
 * The form's starting values: `schema.fields.reduce` writing one entry per
 * field into an initially empty object, chosen by the field's kind alone.
 */
module DynamicForm {
  import opened Wrappers
  import opened JsValues
  import opened Schema
  import opened FieldChecks
  import opened FrontendValidation

  /** `[]` for a multi-select, `false` for a switch, `''` for the rest. */
  function DefaultFor(k: Kind): (v: Value)
    ensures IsBlank(v) <==> k != MultiSelect && k != Switch
    ensures !Truthy(v) <==> k != MultiSelect
  {
    if k == MultiSelect then List([]) else if k == Switch then Bool(false) else Str("")
  }

  /** The `reduce`: each field in turn writes `pick(field)` under its name
      into an object that starts empty. */
  function FillValues(fields: seq<Field>, pick: Field -> Value): Obj
    decreases |fields|
  {
    if fields == [] then []
    else
      var last := fields[|fields| - 1];
      Set(FillValues(fields[..|fields| - 1], pick), last.name, pick(last))
  }

  function KindDefault(f: Field): Value {
    DefaultFor(f.kind)
  }

  /** `defaultValues`, as written: the kind's default for every field. */
  function DefaultValues(fields: seq<Field>): Obj {
    FillValues(fields, KindDefault)
  }

  lemma FieldNamesSnoc(fields: seq<Field>)
    requires fields != []
    ensures FieldNames(fields) == FieldNames(fields[..|fields| - 1]) + [fields[|fields| - 1].name]
  {
    var init := fields[..|fields| - 1];
    assert |FieldNames(fields)| == |FieldNames(init) + [fields[|fields| - 1].name]|;
  }

  /** The filled object has each key once. */
  lemma {:induction false} FillIsObject(fields: seq<Field>, pick: Field -> Value)
    ensures IsObject(FillValues(fields, pick))
    decreases |fields|
  {
    if fields != [] {
      var init := fields[..|fields| - 1];
      var last := fields[|fields| - 1];
      FillIsObject(init, pick);
      SetKeepsObject(FillValues(init, pick), last.name, pick(last));
    }
  }

  /** Its keys are exactly the field names. */
  lemma {:induction false} FillKeys(fields: seq<Field>, pick: Field -> Value, name: string)
    ensures name in Keys(FillValues(fields, pick)) <==> name in FieldNames(fields)
    decreases |fields|
  {
    if fields != [] {
      var init := fields[..|fields| - 1];
      FillKeys(init, pick, name);
      FieldNamesSnoc(fields);
    }
  }

  /** Each name holds what was picked for the last field of that name. */
  lemma {:induction false} FillLastWins(fields: seq<Field>, pick: Field -> Value, i: nat)
    requires i < |fields|
    requires forall j :: i < j < |fields| ==> fields[j].name != fields[i].name
    ensures Get(FillValues(fields, pick), fields[i].name) == pick(fields[i])
    decreases |fields|
  {
    var init := fields[..|fields| - 1];
    var last := fields[|fields| - 1];
    GetSet(FillValues(init, pick), last.name, pick(last), fields[i].name);
    if i < |fields| - 1 {
      assert init[i] == fields[i];
      assert forall j :: i < j < |init| ==> init[j].name != init[i].name by {
        forall j | i < j < |init| ensures init[j].name != init[i].name { assert init[j] == fields[j]; }
      }
      FillLastWins(init, pick, i);
    }
  }

  /** With distinct names, every field's entry is what was picked for it. */
  lemma DistinctFill(fields: seq<Field>, pick: Field -> Value, i: nat)
    requires i < |fields| && Distinct(FieldNames(fields))
    ensures Get(FillValues(fields, pick), fields[i].name) == pick(fields[i])
  {
    forall j | i < j < |fields| ensures fields[j].name != fields[i].name {
      assert FieldNames(fields)[i] != FieldNames(fields)[j];
    }
    FillLastWins(fields, pick, i);
  }

  /** With distinct names the defaults object lists the names in schema
      order, and each field's entry is its kind's default. */
  lemma {:induction false} DefaultsInOrder(fields: seq<Field>)
    requires Distinct(FieldNames(fields))
    ensures Keys(DefaultValues(fields)) == FieldNames(fields)
    ensures forall i :: 0 <= i < |fields| ==> Get(DefaultValues(fields), fields[i].name) == DefaultFor(fields[i].kind)
    decreases |fields|
  {
    if fields != [] {
      var init := fields[..|fields| - 1];
      var last := fields[|fields| - 1];
      FieldNamesSnoc(fields);
      assert Distinct(FieldNames(init)) by {
        forall i, j | 0 <= i < j < |FieldNames(init)| ensures FieldNames(init)[i] != FieldNames(init)[j] {
          assert FieldNames(init)[i] == FieldNames(fields)[i] && FieldNames(init)[j] == FieldNames(fields)[j];
        }
      }
      DefaultsInOrder(init);
      assert last.name !in FieldNames(init) by {
        forall i | 0 <= i < |init| ensures FieldNames(init)[i] != last.name {
          assert FieldNames(fields)[i] != FieldNames(fields)[|fields| - 1];
        }
      }
      forall i | 0 <= i < |fields| ensures Get(DefaultValues(fields), fields[i].name) == DefaultFor(fields[i].kind) {
        DistinctFill(fields, KindDefault, i);
      }
    }
  }

  /** Only names and kinds matter: two schemas that agree on them, whatever
      their captions, rules or `defaultValue`s, start from the same values. */
  lemma {:induction false} DefaultsIgnoreTheRest(fields: seq<Field>, other: seq<Field>)
    requires |fields| == |other|
    requires forall i :: 0 <= i < |fields| ==> fields[i].name == other[i].name && fields[i].kind == other[i].kind
    ensures DefaultValues(fields) == DefaultValues(other)
    decreases |fields|
  {
    if fields != [] {
      DefaultsIgnoreTheRest(fields[..|fields| - 1], other[..|other| - 1]);
      assert KindDefault(fields[|fields| - 1]) == KindDefault(other[|other| - 1]);
    }
  }

  /** A required field left at its starting value fails the browser check
      with "<label> is required": an empty text, no option ticked, the switch
      off. */
  lemma RequiredDefaultFails(f: Field, test: Matcher)
    requires f.rules.required
    ensures ValidateField(f, DefaultFor(f.kind), test) == Some(RequiredMessage(f))
  {
  }

  /** So a schema of required fields with distinct names cannot be sent
      untouched: each field's entry in the starting values fails. */
  lemma StartingValueFails(fields: seq<Field>, i: nat, test: Matcher)
    requires i < |fields| && Distinct(FieldNames(fields)) && fields[i].rules.required
    ensures ValidateField(fields[i], Get(DefaultValues(fields), fields[i].name), test)
            == Some(RequiredMessage(fields[i]))
  {
    DistinctFill(fields, KindDefault, i);
    RequiredDefaultFails(fields[i], test);
  }

  // ---------------------------------------------------------------------------
  // Starting from given values

  /** A field's own `defaultValue` when it has one that is not `undefined`,
      its kind's default otherwise. */
  function GivenOrDefault(f: Field): Value {
    if f.defaultValue.Some? && !f.defaultValue.value.Missing? then f.defaultValue.value else DefaultFor(f.kind)
  }

  /** Starting values that honour each field's `defaultValue`. */
  function PrefilledValues(fields: seq<Field>): Obj {
    FillValues(fields, GivenOrDefault)
  }

  /** For a schema that gives no `defaultValue`, such as the served one, the
      prefilled values are the kind defaults. */
  lemma {:induction false} PrefilledWithoutGiven(fields: seq<Field>)
    requires forall i :: 0 <= i < |fields| ==> fields[i].defaultValue.None?
    ensures PrefilledValues(fields) == DefaultValues(fields)
    decreases |fields|
  {
    if fields != [] {
      PrefilledWithoutGiven(fields[..|fields| - 1]);
      assert GivenOrDefault(fields[|fields| - 1]) == KindDefault(fields[|fields| - 1]);
    }
  }
}
