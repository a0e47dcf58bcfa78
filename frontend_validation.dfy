/**
 * The browser-side field validator (`validateField`). It runs the same rule
 * checks as the server, in the same order, but returns the FIRST failing
 * check's message; it also requires a required switch to be on, words the
 * multi-select counts with "option(s)", and has no select-membership rule.
 */
module FrontendValidation {
  import opened Wrappers
  import opened JsText
  import opened JsValues
  import opened Dates
  import opened Schema
  import opened FieldChecks

  /** The browser words the multi-select count messages with "option(s)". */
  const ClientUnit: string := "option(s)"

  /** `validateField(field, value)`: a message, or `None` for `null`. */
  function ValidateField(f: Field, v: Value, test: Matcher): Option<string> {
    var r := f.rules;
    if r.required && IsBlank(v) then Some(RequiredMessage(f))
    else if r.required && f.kind == MultiSelect && v.List? && |v.items| == 0 then Some(RequiredMessage(f))
    else if r.required && f.kind == Switch && !Truthy(v) then Some(RequiredMessage(f))
    else if IsBlank(v) then None
    else if IsTextual(f.kind) && Enabled(r.minLength) && JsLength(v).Some? && JsLength(v).value < r.minLength.value
    then Some(MinLengthMessage(f, r.minLength.value))
    else if IsTextual(f.kind) && Enabled(r.maxLength) && JsLength(v).Some? && JsLength(v).value > r.maxLength.value
    then Some(MaxLengthMessage(f, r.maxLength.value))
    else if IsTextual(f.kind) && HasText(r.regex) && !test(r.regex.value, ToJsString(v))
    then Some(FormatMessage(f))
    else if f.kind == Number && ToNumber(v).None? then Some(NotANumberMessage(f))
    else if f.kind == Number && r.min.Some? && ToNumber(v).value < r.min.value
    then Some(BelowMinMessage(f, r.min.value))
    else if f.kind == Number && r.max.Some? && ToNumber(v).value > r.max.value
    then Some(AboveMaxMessage(f, r.max.value))
    else if f.kind == Date && HasText(r.minDate) && DateBefore(DateValue(v), ParseIsoDate(r.minDate.value))
    then Some(TooEarlyMessage(f, r.minDate.value))
    else if f.kind == MultiSelect && v.List? && Enabled(r.minSelected) && |v.items| < r.minSelected.value
    then Some(TooFewMessage(r.minSelected.value, ClientUnit))
    else if f.kind == MultiSelect && v.List? && Enabled(r.maxSelected) && |v.items| > r.maxSelected.value
    then Some(TooManyMessage(r.maxSelected.value, ClientUnit))
    else None
  }

  /** Every check the browser would fail for this value, in the order it runs
      them: the shared rule checks, plus the required-switch check. */
  function ClientFailures(f: Field, v: Value, test: Matcher): seq<string> {
    if f.rules.required && IsBlank(v) then [RequiredMessage(f)]
    else if f.rules.required && f.kind == MultiSelect && v.List? && |v.items| == 0 then [RequiredMessage(f)]
    else if f.rules.required && f.kind == Switch && !Truthy(v) then [RequiredMessage(f)]
    else if IsBlank(v) then []
    else
      TextFailures(f, v, test) + NumberFailures(f, v) + DateFailures(f, v)
      + SelectionFailures(f, v, ClientUnit)
  }

  /** The early returns pick the first failing check. */
  lemma ValidateFieldIsFirstFailure(f: Field, v: Value, test: Matcher)
    ensures ValidateField(f, v, test) == First(ClientFailures(f, v, test))
  {
    if !IsBlank(v) && !(f.rules.required && f.kind == MultiSelect && v.List? && |v.items| == 0)
       && !(f.rules.required && f.kind == Switch && !Truthy(v)) {
      if IsTextual(f.kind) {
        TextualFirstFailure(f, v, test);
      } else if f.kind == Number {
        NumberFirstFailure(f, v, test);
      } else if f.kind == MultiSelect {
        SelectionFirstFailure(f, v, test);
      } else {
        assert TextFailures(f, v, test) == [] && NumberFailures(f, v) == [];
        assert SelectionFailures(f, v, ClientUnit) == [];
      }
    }
  }

  lemma TextualFirstFailure(f: Field, v: Value, test: Matcher)
    requires IsTextual(f.kind) && !IsBlank(v)
    ensures ValidateField(f, v, test) == First(ClientFailures(f, v, test))
  {
    var r, len := f.rules, JsLength(v);
    var a := if Enabled(r.minLength) && len.Some? && len.value < r.minLength.value then [MinLengthMessage(f, r.minLength.value)] else [];
    var b := if Enabled(r.maxLength) && len.Some? && len.value > r.maxLength.value then [MaxLengthMessage(f, r.maxLength.value)] else [];
    var c := if HasText(r.regex) && !test(r.regex.value, ToJsString(v)) then [FormatMessage(f)] else [];
    TextualFailuresOnly(f, v, test);
    assert TextFailures(f, v, test) == a + b + c;
    FirstOfConcat(a, b);
    FirstOfConcat(a + b, c);
  }

  lemma NumberFirstFailure(f: Field, v: Value, test: Matcher)
    requires f.kind == Number && !IsBlank(v)
    ensures ValidateField(f, v, test) == First(ClientFailures(f, v, test))
  {
    NumberFailuresOnly(f, v, test);
    if ToNumber(v).None? {
      NaNFirstFailure(f, v, test);
    } else {
      RangeFirstFailure(f, v, test);
    }
  }

  lemma NaNFirstFailure(f: Field, v: Value, test: Matcher)
    requires f.kind == Number && !IsBlank(v) && ToNumber(v).None?
    ensures ValidateField(f, v, test) == First(NumberFailures(f, v))
  {
    assert NumberFailures(f, v) == [NotANumberMessage(f)];
  }

  lemma RangeFirstFailure(f: Field, v: Value, test: Matcher)
    requires f.kind == Number && !IsBlank(v) && ToNumber(v).Some?
    ensures ValidateField(f, v, test) == First(NumberFailures(f, v))
  {
    var x := ToNumber(v).value;
    var a := if f.rules.min.Some? && x < f.rules.min.value then [BelowMinMessage(f, f.rules.min.value)] else [];
    var b := if f.rules.max.Some? && x > f.rules.max.value then [AboveMaxMessage(f, f.rules.max.value)] else [];
    assert NumberFailures(f, v) == a + b;
    FirstOfConcat(a, b);
  }

  lemma SelectionFirstFailure(f: Field, v: Value, test: Matcher)
    requires f.kind == MultiSelect && !IsBlank(v) && !(f.rules.required && v.List? && |v.items| == 0)
    ensures ValidateField(f, v, test) == First(ClientFailures(f, v, test))
  {
    SelectionFailuresOnly(f, v, test);
    if v.List? {
      var r := f.rules;
      var a := if Enabled(r.minSelected) && |v.items| < r.minSelected.value then [TooFewMessage(r.minSelected.value, ClientUnit)] else [];
      var b := if Enabled(r.maxSelected) && |v.items| > r.maxSelected.value then [TooManyMessage(r.maxSelected.value, ClientUnit)] else [];
      FirstOfConcat(a, b);
    }
  }

  lemma TextualFailuresOnly(f: Field, v: Value, test: Matcher)
    requires IsTextual(f.kind) && !IsBlank(v)
    ensures ClientFailures(f, v, test) == TextFailures(f, v, test)
  {
    assert NumberFailures(f, v) == [] && DateFailures(f, v) == [] && SelectionFailures(f, v, ClientUnit) == [];
  }

  lemma NumberFailuresOnly(f: Field, v: Value, test: Matcher)
    requires f.kind == Number && !IsBlank(v)
    ensures ClientFailures(f, v, test) == NumberFailures(f, v)
  {
    assert TextFailures(f, v, test) == [] && DateFailures(f, v) == [] && SelectionFailures(f, v, ClientUnit) == [];
  }

  lemma SelectionFailuresOnly(f: Field, v: Value, test: Matcher)
    requires f.kind == MultiSelect && !IsBlank(v) && !(f.rules.required && v.List? && |v.items| == 0)
    ensures ClientFailures(f, v, test) == SelectionFailures(f, v, ClientUnit)
  {
    assert TextFailures(f, v, test) == [] && NumberFailures(f, v) == [] && DateFailures(f, v) == [];
  }

  /** A required field that is undefined, null or '' is reported as required. */
  lemma RequiredBlank(f: Field, v: Value, test: Matcher)
    requires f.rules.required && IsBlank(v)
    ensures ValidateField(f, v, test) == Some(f.caption + " is required")
  {
  }

  /** A required multi-select with nothing ticked is reported as required. */
  lemma RequiredEmptySelection(f: Field, test: Matcher)
    requires f.rules.required && f.kind == MultiSelect
    ensures ValidateField(f, List([]), test) == Some(f.caption + " is required")
  {
  }

  /** A required switch must be on: off is reported as required, on passes. */
  lemma RequiredSwitch(f: Field, b: bool, test: Matcher)
    requires f.rules.required && f.kind == Switch
    ensures ValidateField(f, Bool(b), test) == if b then None else Some(f.caption + " is required")
  {
  }

  /** An optional field that is undefined, null or '' is never reported. */
  lemma OptionalBlank(f: Field, v: Value, test: Matcher)
    requires !f.rules.required && IsBlank(v)
    ensures ValidateField(f, v, test) == None
  {
  }

  /** A NaN number is reported as not a number before any range check. */
  lemma NotANumberFirst(f: Field, test: Matcher)
    requires f.kind == Number
    ensures ValidateField(f, NaN, test) == Some(f.caption + " must be a valid number")
  {
  }

  /** A number in range passes; below `min` and above `max` are reported. */
  lemma NumberRange(f: Field, x: int, test: Matcher)
    requires f.kind == Number
    ensures ValidateField(f, Num(x), test)
            == if f.rules.min.Some? && x < f.rules.min.value then Some(BelowMinMessage(f, f.rules.min.value))
               else if f.rules.max.Some? && x > f.rules.max.value then Some(AboveMaxMessage(f, f.rules.max.value))
               else None
  {
  }

  /** The browser has no select-membership rule: any non-empty value of a
      select passes. */
  lemma SelectAnyValuePasses(f: Field, v: Value, test: Matcher)
    requires f.kind == Select && !IsBlank(v)
    ensures ValidateField(f, v, test) == None
  {
  }

  /** The message is never the empty string. */
  lemma MessageNonEmpty(f: Field, v: Value, test: Matcher)
    ensures ValidateField(f, v, test).Some? ==> |ValidateField(f, v, test).value| > 0
  {
  }
}
