/**
 * The rule checks that the server-side and the client-side validator share,
 * each written as the list of messages of the checks that fail, in the order
 * the source runs them. The two validators differ in how they pick from such
 * a list (the server keeps the last message, the client returns the first),
 * in the multi-select wording, and in the switch and select rules.
 */
module FieldChecks {
  import opened Wrappers
  import opened JsText
  import opened JsValues
  import opened Dates
  import opened Schema

  /** `new RegExp(pattern).test(subject)`: the regular-expression engine is
      not modelled, so every check that uses it takes it as a parameter. */
  type Matcher = (string, string) -> bool

  /** A numeric rule that JavaScript treats as set: present and not 0. */
  predicate Enabled(rule: Option<nat>) {
    rule.Some? && rule.value != 0
  }

  /** A string rule that JavaScript treats as set: present and not "". */
  predicate HasText(rule: Option<string>) {
    rule.Some? && rule.value != ""
  }

  predicate IsTextual(k: Kind) {
    k == Text || k == Email || k == Textarea
  }

  // ---------------------------------------------------------------------------
  // Messages

  function RequiredMessage(f: Field): string {
    f.caption + " is required"
  }

  function MinLengthMessage(f: Field, n: int): string {
    f.caption + " must be at least " + IntToString(n) + " characters"
  }

  function MaxLengthMessage(f: Field, n: int): string {
    f.caption + " must not exceed " + IntToString(n) + " characters"
  }

  /** `validation.regexMessage || \`${label} format is invalid\``. */
  function FormatMessage(f: Field): string {
    if HasText(f.rules.regexMessage) then f.rules.regexMessage.value
    else f.caption + " format is invalid"
  }

  function NotANumberMessage(f: Field): string {
    f.caption + " must be a valid number"
  }

  function BelowMinMessage(f: Field, n: int): string {
    f.caption + " must be at least " + IntToString(n)
  }

  function AboveMaxMessage(f: Field, n: int): string {
    f.caption + " must not exceed " + IntToString(n)
  }

  function TooEarlyMessage(f: Field, minDate: string): string {
    f.caption + " must be on or after " + minDate
  }

  /** `unit` is "options" on the server and "option(s)" in the browser. */
  function TooFewMessage(n: int, unit: string): string {
    "Select at least " + IntToString(n) + " " + unit
  }

  function TooManyMessage(n: int, unit: string): string {
    "Select no more than " + IntToString(n) + " " + unit
  }

  function InvalidSelectionMessage(f: Field): string {
    f.caption + " has an invalid selection"
  }

  // ---------------------------------------------------------------------------
  // Failing checks per kind

  /** text, email and textarea: minimum length, maximum length, pattern.
      `value.length` is undefined for numbers and booleans, and a comparison
      with undefined is false, so only strings and arrays can fail on length;
      the pattern is tested against `String(value)`. */
  function TextFailures(f: Field, v: Value, test: Matcher): seq<string> {
    if IsTextual(f.kind) then
      var r := f.rules;
      var len := JsLength(v);
      (if Enabled(r.minLength) && len.Some? && len.value < r.minLength.value
       then [MinLengthMessage(f, r.minLength.value)] else [])
      + (if Enabled(r.maxLength) && len.Some? && len.value > r.maxLength.value
         then [MaxLengthMessage(f, r.maxLength.value)] else [])
      + (if HasText(r.regex) && !test(r.regex.value, ToJsString(v))
         then [FormatMessage(f)] else [])
    else []
  }

  /** number: a value that is NaN after `Number(...)` fails only that check;
      otherwise it is compared with `min` and then `max`. */
  function NumberFailures(f: Field, v: Value): seq<string> {
    if f.kind == Number then
      match ToNumber(v)
      case None => [NotANumberMessage(f)]
      case Some(x) =>
        (if f.rules.min.Some? && x < f.rules.min.value then [BelowMinMessage(f, f.rules.min.value)] else [])
        + (if f.rules.max.Some? && x > f.rules.max.value then [AboveMaxMessage(f, f.rules.max.value)] else [])
    else []
  }

  /** date: strictly before `minDate` fails; an Invalid Date never does. */
  function DateFailures(f: Field, v: Value): seq<string> {
    if f.kind == Date && HasText(f.rules.minDate)
       && DateBefore(DateValue(v), ParseIsoDate(f.rules.minDate.value))
    then [TooEarlyMessage(f, f.rules.minDate.value)]
    else []
  }

  /** multi-select: only an array is counted, against `minSelected` and then
      `maxSelected`. */
  function SelectionFailures(f: Field, v: Value, unit: string): seq<string> {
    if f.kind == MultiSelect && v.List? then
      var r := f.rules;
      (if Enabled(r.minSelected) && |v.items| < r.minSelected.value
       then [TooFewMessage(r.minSelected.value, unit)] else [])
      + (if Enabled(r.maxSelected) && |v.items| > r.maxSelected.value
         then [TooManyMessage(r.maxSelected.value, unit)] else [])
    else []
  }

  /** select: the value must be strictly equal to one option's value, so a
      non-string value never is. */
  function ChoiceFailures(f: Field, v: Value): seq<string> {
    if f.kind == Select && f.options.Some? && !(v.Str? && v.s in OptionValues(f.options.value))
    then [InvalidSelectionMessage(f)]
    else []
  }

  /** Every message the checks can produce is non-empty. */
  lemma TextFailuresNonEmpty(f: Field, v: Value, test: Matcher)
    ensures forall m :: m in TextFailures(f, v, test) ==> m != ""
  {
  }

  lemma NumberFailuresNonEmpty(f: Field, v: Value)
    ensures forall m :: m in NumberFailures(f, v) ==> m != ""
  {
  }
}
