/**
 * The server-side submission validator (the `validateSubmission`
 * middleware). It walks every schema field, writes a message into an
 * `errors` object for each failing check (a later failing check of the same
 * field overwrites an earlier one), and rejects the request with status 400
 * and that object exactly when the object is non-empty.
 */
module BackendValidation {
  import opened Wrappers
  import opened JsText
  import opened JsValues
  import opened Dates
  import opened Schema
  import opened FieldChecks

  /** The server words the multi-select count messages with "options". */
  const ServerUnit: string := "options"

  /** Every failing check of one field, in the order the handler runs them:
      the required checks end the field's turn, an empty optional value skips
      the rest, and otherwise every kind's checks run. */
  function ServerFailures(f: Field, v: Value, test: Matcher): seq<string> {
    if f.rules.required && IsBlank(v) then [RequiredMessage(f)]
    else if f.rules.required && f.kind == MultiSelect && v.List? && |v.items| == 0 then [RequiredMessage(f)]
    else if IsBlank(v) then []
    else
      TextFailures(f, v, test) + NumberFailures(f, v) + DateFailures(f, v)
      + SelectionFailures(f, v, ServerUnit) + ChoiceFailures(f, v)
  }

  /** The message the handler leaves for a field: the last failing check's. */
  function ServerFieldError(f: Field, v: Value, test: Matcher): Option<string> {
    Last(ServerFailures(f, v, test))
  }

  /** The per-field verdict, as a function of the field and its value. */
  type Check = (Field, Value) -> Option<string>

  /** An `errors` object built by visiting `fields` in order and writing each
      message `check` gives under the field's name. */
  function CollectErrors(fields: seq<Field>, data: Obj, check: Check): map<string, string>
    decreases |fields|
  {
    if fields == [] then map[]
    else
      var errors := CollectErrors(fields[..|fields| - 1], data, check);
      var f := fields[|fields| - 1];
      match check(f, Get(data, f.name))
      case None => errors
      case Some(m) => errors[f.name := m]
  }

  /** The `errors` object after the handler has visited `fields` in order. */
  function ServerErrors(fields: seq<Field>, data: Obj, test: Matcher): map<string, string> {
    CollectErrors(fields, data, (f, v) => ServerFieldError(f, v, test))
  }

  /** What the middleware does with a request. */
  datatype Outcome =
    | BadRequest(errors: map<string, string>)  // 400, `{success: false, errors}`
    | Next                                     // `next()`: on to the controller

  /** The message after a group of checks has run: each failing check of
      the group overwrites it, so it is the group's last failure, or the
      message from before the group when none fails. */
  function Overwrite(before: Option<string>, failures: seq<string>): Option<string> {
    if failures == [] then before else Last(failures)
  }

  lemma OverwriteTwice(before: Option<string>, a: seq<string>, b: seq<string>)
    ensures Overwrite(Overwrite(before, a), b) == Overwrite(before, a + b)
  {
    LastOfConcat(a, b);
  }

  /** One turn of the `forEach` callback: each failing check overwrites the
      field's message, and `return` ends the turn early. */
  method CheckField(field: Field, value: Value, test: Matcher) returns (msg: Option<string>)
    ensures msg == ServerFieldError(field, value, test)
  {
    var rules := field.rules;
    msg := None;
    if rules.required {
      if IsBlank(value) {
        msg := Some(RequiredMessage(field));
        return;
      }
      if field.kind == MultiSelect && value.List? && |value.items| == 0 {
        msg := Some(RequiredMessage(field));
        return;
      }
    }
    if IsBlank(value) {
      return;
    }
    msg := ApplyTextRules(field, value, test, msg);
    msg := ApplyNumberRules(field, value, msg);
    msg := ApplyDateRule(field, value, msg);
    msg := ApplySelectionRules(field, value, msg);
    msg := ApplyChoiceRule(field, value, msg);
    ghost var text, number, date := TextFailures(field, value, test), NumberFailures(field, value), DateFailures(field, value);
    ghost var selection, choice := SelectionFailures(field, value, ServerUnit), ChoiceFailures(field, value);
    OverwriteTwice(None, text, number);
    OverwriteTwice(None, text + number, date);
    OverwriteTwice(None, text + number + date, selection);
    OverwriteTwice(None, text + number + date + selection, choice);
  }

  method ApplyTextRules(field: Field, value: Value, test: Matcher, before: Option<string>) returns (msg: Option<string>)
    ensures msg == Overwrite(before, TextFailures(field, value, test))
  {
    msg := before;
    var rules := field.rules;
    if IsTextual(field.kind) {
      var len := JsLength(value);
      if Enabled(rules.minLength) && len.Some? && len.value < rules.minLength.value {
        msg := Some(MinLengthMessage(field, rules.minLength.value));
      }
      if Enabled(rules.maxLength) && len.Some? && len.value > rules.maxLength.value {
        msg := Some(MaxLengthMessage(field, rules.maxLength.value));
      }
      if HasText(rules.regex) {
        if !test(rules.regex.value, ToJsString(value)) {
          msg := Some(FormatMessage(field));
        }
      }
    }
  }

  method ApplyNumberRules(field: Field, value: Value, before: Option<string>) returns (msg: Option<string>)
    ensures msg == Overwrite(before, NumberFailures(field, value))
  {
    msg := before;
    var rules := field.rules;
    if field.kind == Number {
      var num := ToNumber(value);
      if num.None? {
        msg := Some(NotANumberMessage(field));
      } else {
        if rules.min.Some? && num.value < rules.min.value {
          msg := Some(BelowMinMessage(field, rules.min.value));
        }
        if rules.max.Some? && num.value > rules.max.value {
          msg := Some(AboveMaxMessage(field, rules.max.value));
        }
      }
    }
  }

  method ApplyDateRule(field: Field, value: Value, before: Option<string>) returns (msg: Option<string>)
    ensures msg == Overwrite(before, DateFailures(field, value))
  {
    msg := before;
    var rules := field.rules;
    if field.kind == Date && HasText(rules.minDate) {
      var inputDate := DateValue(value);
      var minDate := ParseIsoDate(rules.minDate.value);
      if DateBefore(inputDate, minDate) {
        msg := Some(TooEarlyMessage(field, rules.minDate.value));
      }
    }
  }

  method ApplySelectionRules(field: Field, value: Value, before: Option<string>) returns (msg: Option<string>)
    ensures msg == Overwrite(before, SelectionFailures(field, value, ServerUnit))
  {
    msg := before;
    var rules := field.rules;
    if field.kind == MultiSelect && value.List? {
      if Enabled(rules.minSelected) && |value.items| < rules.minSelected.value {
        msg := Some(TooFewMessage(rules.minSelected.value, ServerUnit));
      }
      if Enabled(rules.maxSelected) && |value.items| > rules.maxSelected.value {
        msg := Some(TooManyMessage(rules.maxSelected.value, ServerUnit));
      }
    }
  }

  method ApplyChoiceRule(field: Field, value: Value, before: Option<string>) returns (msg: Option<string>)
    ensures msg == Overwrite(before, ChoiceFailures(field, value))
  {
    msg := before;
    if field.kind == Select && field.options.Some? {
      var validValues := OptionValues(field.options.value);
      if !(value.Str? && value.s in validValues) {
        msg := Some(InvalidSelectionMessage(field));
      }
    }
  }

  /** The middleware: visit every schema field in order, then answer 400 with
      the collected messages, or pass the request on. */
  method ValidateSubmission(schema: FormSchema, data: Obj, test: Matcher) returns (outcome: Outcome)
    ensures var errors := ServerErrors(schema.fields, data, test);
            outcome == if |errors| > 0 then BadRequest(errors) else Next
  {
    var errors: map<string, string> := map[];
    var i := 0;
    while i < |schema.fields|
      invariant 0 <= i <= |schema.fields|
      invariant errors == ServerErrors(schema.fields[..i], data, test)
    {
      var field := schema.fields[i];
      var value := Get(data, field.name);
      var msg := CheckField(field, value, test);
      if msg.Some? {
        errors := errors[field.name := msg.value];
      }
      assert schema.fields[..i + 1][..i] == schema.fields[..i];
      i := i + 1;
    }
    assert schema.fields[..i] == schema.fields;
    if |errors| > 0 {
      return BadRequest(errors);
    }
    return Next;
  }

  // ---------------------------------------------------------------------------
  // Properties of one field's message

  /** A required field that is undefined, null or '' gets exactly the
      required message: no other check runs for it. */
  lemma RequiredBlankField(f: Field, v: Value, test: Matcher)
    requires f.rules.required && IsBlank(v)
    ensures ServerFailures(f, v, test) == [RequiredMessage(f)]
    ensures ServerFieldError(f, v, test) == Some(f.caption + " is required")
  {
  }

  /** A required multi-select given `[]` gets the required message too. */
  lemma RequiredEmptySelection(f: Field, test: Matcher)
    requires f.rules.required && f.kind == MultiSelect
    ensures ServerFieldError(f, List([]), test) == Some(f.caption + " is required")
  {
  }

  /** There is no switch rule on the server: a switch set to `false` never
      fails, required or not. */
  lemma SwitchNeverFails(f: Field, b: bool, test: Matcher)
    requires f.kind == Switch
    ensures ServerFieldError(f, Bool(b), test) == None
  {
  }

  /** An optional field that is undefined, null or '' never gets a message. */
  lemma OptionalBlankField(f: Field, v: Value, test: Matcher)
    requires !f.rules.required && IsBlank(v)
    ensures ServerFieldError(f, v, test) == None
  {
  }

  /** `[]` is not "empty" to the skip test, so an optional multi-select given
      `[]` still reaches the `minSelected` check. */
  lemma OptionalEmptySelectionCounted(f: Field, test: Matcher)
    requires !f.rules.required && f.kind == MultiSelect && Enabled(f.rules.minSelected)
    ensures ServerFieldError(f, List([]), test)
            == Some("Select at least " + IntToString(f.rules.minSelected.value) + " options")
  {
    var v := List([]);
    assert TextFailures(f, v, test) == [] && NumberFailures(f, v) == [];
    assert DateFailures(f, v) == [] && ChoiceFailures(f, v) == [];
    assert SelectionFailures(f, v, ServerUnit) == [TooFewMessage(f.rules.minSelected.value, ServerUnit)];
    assert ServerFailures(f, v, test) == [TooFewMessage(f.rules.minSelected.value, ServerUnit)];
    var n := IntToString(f.rules.minSelected.value);
    assert "Select at least " + n + " " + ServerUnit == "Select at least " + n + " options";
  }

  /** Text checks: when several fail, the message kept is the last one's. */
  lemma TextLastFailureWins(f: Field, v: Value, test: Matcher)
    requires IsTextual(f.kind) && !IsBlank(v)
    requires !(f.rules.required && f.kind == MultiSelect)
    ensures var r := f.rules;
            var len := JsLength(v);
            var tooShort := Enabled(r.minLength) && len.Some? && len.value < r.minLength.value;
            var tooLong := Enabled(r.maxLength) && len.Some? && len.value > r.maxLength.value;
            var badFormat := HasText(r.regex) && !test(r.regex.value, ToJsString(v));
            ServerFieldError(f, v, test)
            == if badFormat then Some(FormatMessage(f))
               else if tooLong then Some(MaxLengthMessage(f, r.maxLength.value))
               else if tooShort then Some(MinLengthMessage(f, r.minLength.value))
               else None
  {
  }

  /** A number field: NaN gets only "must be a valid number"; otherwise the
      range checks run, `max` after `min`. */
  lemma NumberChecks(f: Field, v: Value, test: Matcher)
    requires f.kind == Number && !IsBlank(v)
    ensures ToNumber(v).None? ==> ServerFieldError(f, v, test) == Some(f.caption + " must be a valid number")
    ensures ToNumber(v).Some? ==>
              var x := ToNumber(v).value;
              ServerFieldError(f, v, test)
              == if f.rules.max.Some? && x > f.rules.max.value then Some(AboveMaxMessage(f, f.rules.max.value))
                 else if f.rules.min.Some? && x < f.rules.min.value then Some(BelowMinMessage(f, f.rules.min.value))
                 else None
  {
    OnlyNumberChecks(f, v, test);
  }

  /** For a number field with a value, only the number checks can fail. */
  lemma OnlyNumberChecks(f: Field, v: Value, test: Matcher)
    requires f.kind == Number && !IsBlank(v)
    ensures ServerFailures(f, v, test) == NumberFailures(f, v)
  {
    assert TextFailures(f, v, test) == [] && DateFailures(f, v) == [];
    assert SelectionFailures(f, v, ServerUnit) == [] && ChoiceFailures(f, v) == [];
  }

  /** A date field fails iff its date is strictly before `minDate`: an equal
      date passes and an Invalid Date never fails. */
  lemma DateChecks(f: Field, v: Value, test: Matcher)
    requires f.kind == Date && !IsBlank(v) && HasText(f.rules.minDate)
    ensures var min := ParseIsoDate(f.rules.minDate.value);
            ServerFieldError(f, v, test)
            == if DateBefore(DateValue(v), min) then Some(TooEarlyMessage(f, f.rules.minDate.value)) else None
    ensures DateValue(v).None? || DateValue(v) == ParseIsoDate(f.rules.minDate.value)
            ==> ServerFieldError(f, v, test) == None
  {
  }

  /** A select value that equals no option's value is an invalid selection;
      one that equals some option's value passes. */
  lemma SelectMembership(f: Field, v: Value, test: Matcher)
    requires f.kind == Select && f.options.Some? && !IsBlank(v)
    ensures ServerFieldError(f, v, test)
            == if v.Str? && v.s in OptionValues(f.options.value) then None
               else Some(f.caption + " has an invalid selection")
  {
  }

  /** A multi-select longer than `maxSelected` ends with the "options" message. */
  lemma TooManySelected(f: Field, items: seq<string>, test: Matcher)
    requires f.kind == MultiSelect && Enabled(f.rules.maxSelected) && |items| > f.rules.maxSelected.value
    ensures ServerFieldError(f, List(items), test)
            == Some("Select no more than " + IntToString(f.rules.maxSelected.value) + " options")
  {
    var v := List(items);
    var n := f.rules.maxSelected.value;
    assert ServerFailures(f, v, test) == SelectionFailures(f, v, ServerUnit) by {
      assert TextFailures(f, v, test) == [] && NumberFailures(f, v) == [];
      assert DateFailures(f, v) == [] && ChoiceFailures(f, v) == [];
    }
    assert Last(SelectionFailures(f, v, ServerUnit)) == Some(TooManyMessage(n, ServerUnit));
    TooManyText(n);
  }

  /** The server's "options" wording of the too-many message. */
  lemma TooManyText(n: int)
    ensures TooManyMessage(n, ServerUnit) == "Select no more than " + IntToString(n) + " options"
  {
    var head := "Select no more than " + IntToString(n);
    assert " " + ServerUnit == " options";
    assert head + " " + ServerUnit == head + (" " + ServerUnit);
  }

  // ---------------------------------------------------------------------------
  // Properties of the errors object

  /** A field's entry in a collected `errors` object is its message; a key
      is only ever a field's name. */
  lemma {:induction false} CollectErrorsAt(fields: seq<Field>, data: Obj, check: Check, i: nat)
    requires Distinct(FieldNames(fields)) && i < |fields|
    ensures var e := check(fields[i], Get(data, fields[i].name));
            (fields[i].name in CollectErrors(fields, data, check) <==> e.Some?)
            && (e.Some? ==> CollectErrors(fields, data, check)[fields[i].name] == e.value)
    decreases |fields|
  {
    var init := fields[..|fields| - 1];
    var last := fields[|fields| - 1];
    if i < |init| {
      assert FieldNames(init) == FieldNames(fields)[..|fields| - 1];
      CollectErrorsAt(init, data, check, i);
      assert FieldNames(fields)[i] == init[i].name;
      assert init[i] == fields[i];
    } else {
      assert FieldNames(init) == FieldNames(fields)[..|fields| - 1];
      CollectErrorsKeys(init, data, check);
      assert last.name !in FieldNames(init) by {
        forall j | 0 <= j < |init| ensures FieldNames(init)[j] != last.name {
          assert FieldNames(fields)[j] == FieldNames(init)[j];
        }
      }
    }
  }

  lemma {:induction false} CollectErrorsKeys(fields: seq<Field>, data: Obj, check: Check)
    ensures forall k :: k in CollectErrors(fields, data, check) ==> k in FieldNames(fields)
    decreases |fields|
  {
    if fields != [] {
      var init := fields[..|fields| - 1];
      CollectErrorsKeys(init, data, check);
      assert FieldNames(fields) == FieldNames(init) + [fields[|fields| - 1].name];
    }
  }

  /** A collected `errors` object is empty iff no field has a message:
      messages are only ever added. */
  lemma {:induction false} CollectErrorsEmptyIff(fields: seq<Field>, data: Obj, check: Check)
    ensures CollectErrors(fields, data, check) == map[]
            <==> forall i :: 0 <= i < |fields| ==> check(fields[i], Get(data, fields[i].name)).None?
    decreases |fields|
  {
    if fields != [] {
      var init := fields[..|fields| - 1];
      CollectErrorsEmptyIff(init, data, check);
      var last := fields[|fields| - 1];
      if check(last, Get(data, last.name)).Some? {
        assert last.name in CollectErrors(fields, data, check);
      }
      assert forall i :: 0 <= i < |init| ==> init[i] == fields[i];
    }
  }

  /** With distinct field names, the keys of `errors` are exactly the fields
      that failed, each holding that field's message. */
  lemma ServerErrorsExact(fields: seq<Field>, data: Obj, test: Matcher)
    requires Distinct(FieldNames(fields))
    ensures forall i :: 0 <= i < |fields| ==>
              var e := ServerFieldError(fields[i], Get(data, fields[i].name), test);
              (fields[i].name in ServerErrors(fields, data, test) <==> e.Some?)
              && (e.Some? ==> ServerErrors(fields, data, test)[fields[i].name] == e.value)
    ensures forall k :: k in ServerErrors(fields, data, test) ==> k in FieldNames(fields)
  {
    var check: Check := (f, v) => ServerFieldError(f, v, test);
    forall i | 0 <= i < |fields|
      ensures var e := ServerFieldError(fields[i], Get(data, fields[i].name), test);
              (fields[i].name in ServerErrors(fields, data, test) <==> e.Some?)
              && (e.Some? ==> ServerErrors(fields, data, test)[fields[i].name] == e.value)
    {
      CollectErrorsAt(fields, data, check, i);
    }
    CollectErrorsKeys(fields, data, check);
  }

  /** The request passes iff no field fails. */
  lemma ServerErrorsEmptyIff(fields: seq<Field>, data: Obj, test: Matcher)
    ensures ServerErrors(fields, data, test) == map[]
            <==> forall i :: 0 <= i < |fields| ==> ServerFieldError(fields[i], Get(data, fields[i].name), test).None?
  {
    var check: Check := (f, v) => ServerFieldError(f, v, test);
    CollectErrorsEmptyIff(fields, data, check);
    assert forall i :: 0 <= i < |fields| ==>
             check(fields[i], Get(data, fields[i].name)) == ServerFieldError(fields[i], Get(data, fields[i].name), test);
  }
}
