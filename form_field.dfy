/**
 * One rendered form field: how its input events turn into a new value, the
 * error list written beside it, when that error is shown, and which
 * captions it draws.
 */
module FormField {
  import opened Wrappers
  import opened JsText
  import opened JsValues
  import opened Schema
  import opened FieldChecks
  import opened FrontendValidation

  // ---------------------------------------------------------------------------
  // Multi-select checkboxes

  /** `fieldValue || []` for a multi-select: its array, or `[]` when it has
      none yet. */
  function Selected(v: Value): seq<string> {
    if v.List? then v.items else []
  }

  /** A checkbox is ticked iff its option's value is in the list. */
  predicate Checked(v: Value, option: string) {
    option in Selected(v)
  }

  /** `currentValues.filter(v => v !== option)`. */
  function Without(s: seq<string>, option: string): (r: seq<string>)
    ensures option !in r
    ensures forall x :: x in r ==> x in s
    ensures forall x :: x in s && x != option ==> x in r
    ensures multiset(r)[option] == 0 && forall x :: x != option ==> multiset(r)[x] == multiset(s)[x]
  {
    if s == [] then []
    else
      assert s == [s[0]] + s[1..];
      if s[0] == option then Without(s[1..], option) else [s[0]] + Without(s[1..], option)
  }

  /** The new value after a checkbox change: ticking appends the option's
      value at the end, unticking drops every occurrence of it. */
  function Toggle(v: Value, option: string, ticked: bool): (r: Value)
    ensures r.List?
    ensures ticked ==> r.items == Selected(v) + [option]
    ensures !ticked ==> r.items == Without(Selected(v), option)
    ensures Checked(r, option) == ticked
  {
    if ticked then List(Selected(v) + [option]) else List(Without(Selected(v), option))
  }

  /** Unticking keeps the other values in their order: drops only. */
  lemma {:induction false} WithoutIsSubsequence(s: seq<string>, option: string)
    ensures Without(s, option) == s <==> option !in s
    ensures |Without(s, option)| <= |s|
  {
    if s != [] {
      WithoutIsSubsequence(s[1..], option);
      if s[0] != option {
        assert Without(s, option) == [s[0]] + Without(s[1..], option);
        assert s == [s[0]] + s[1..];
      } else {
        assert option in s;
      }
    }
  }

  /** Ticking an option that was not ticked, then unticking it, restores the
      list. */
  lemma {:induction false} TickThenUntick(v: Value, option: string)
    requires !Checked(v, option)
    ensures Toggle(Toggle(v, option, true), option, false) == List(Selected(v))
  {
    WithoutAppend(Selected(v), option);
    WithoutIsSubsequence(Selected(v), option);
  }

  lemma {:induction false} WithoutAppend(s: seq<string>, option: string)
    ensures Without(s + [option], option) == Without(s, option)
  {
    if s == [] {
      assert Without([option], option) == Without([], option);
    } else {
      assert (s + [option])[0] == s[0] && (s + [option])[1..] == s[1..] + [option];
      WithoutAppend(s[1..], option);
    }
  }

  // ---------------------------------------------------------------------------
  // The number input

  /** `e.target.value ? Number(e.target.value) : ''`. */
  function NumberInput(text: string): (v: Value)
    ensures text == "" <==> v == Str("")
    ensures text != "" ==> (v.Num? || v.NaN?)
  {
    if text == "" then Str("")
    else match StringToNumber(text)
      case Some(n) => Num(n)
      case None => NaN
  }

  /** A typed-in integer arrives as that number. */
  lemma NumberInputOfNumeral(n: int)
    ensures NumberInput(IntToString(n)) == Num(n)
  {
    StringToNumberOfIntToString(n);
  }

  /** Clearing a required number field is reported as required. */
  lemma ClearedNumberRequired(f: Field, test: Matcher)
    requires f.kind == Number && f.rules.required
    ensures ValidateField(f, NumberInput(""), test) == Some(RequiredMessage(f))
  {
  }

  /** Text that is no number is reported as not a number, whether or not the
      field is required. */
  lemma LettersNotANumber(f: Field, text: string, test: Matcher)
    requires f.kind == Number && text != "" && StringToNumber(text).None?
    ensures ValidateField(f, NumberInput(text), test) == Some(NotANumberMessage(f))
  {
    assert NumberInput(text) == NaN;
    NotANumberFirst(f, test);
  }

  // ---------------------------------------------------------------------------
  // Errors

  /** `{ errors: error ? [error] : [] }`. */
  function ErrorsFor(f: Field, v: Value, test: Matcher): (errors: seq<string>)
    ensures |errors| <= 1
    ensures errors == [] <==> ValidateField(f, v, test).None?
    ensures errors != [] ==> Some(errors[0]) == ValidateField(f, v, test)
  {
    match ValidateField(f, v, test)
    case None => []
    case Some(e) => [e]
  }

  /** The field's value and meta in the form store. */
  class FieldState {
    var value: Value
    var errors: seq<string>
    var isTouched: bool

    /** `showError`. */
    predicate ShowError()
      reads this
    {
      isTouched && |errors| > 0
    }

    /** Freshly rendered: the starting value, no errors, untouched. */
    constructor (start: Value)
      ensures value == start && errors == [] && !isTouched && !ShowError()
    {
      value, errors, isTouched := start, [], false;
    }

    /** `handleChange`: store the value and validate it; touching is left as
        it was. */
    method HandleChange(f: Field, v: Value, test: Matcher)
      modifies this
      ensures value == v && errors == ErrorsFor(f, v, test) && isTouched == old(isTouched)
      ensures ShowError() <==> old(isTouched) && ValidateField(f, v, test).Some?
    {
      value := v;
      errors := ErrorsFor(f, v, test);
    }

    /** `handleBlur`: validate the stored value and mark the field touched. */
    method HandleBlur(f: Field, test: Matcher)
      modifies this
      ensures value == old(value) && errors == ErrorsFor(f, old(value), test) && isTouched
      ensures ShowError() <==> ValidateField(f, value, test).Some?
    {
      errors := ErrorsFor(f, value, test);
      isTouched := true;
    }
  }

  // ---------------------------------------------------------------------------
  // Captions

  /** Every kind but the switch has a caption above its input; the switch
      has its caption beside the toggle. */
  predicate HasTopCaption(f: Field) {
    f.kind != Switch
  }

  /** The red asterisk sits inside the top caption. */
  predicate ShowsAsterisk(f: Field) {
    HasTopCaption(f) && f.rules.required
  }

  /** A required switch is marked by no asterisk; any other required field
      is, and an optional field never is. */
  lemma AsteriskIffRequired(f: Field)
    ensures f.kind != Switch ==> (ShowsAsterisk(f) <==> f.rules.required)
    ensures f.kind == Switch ==> !ShowsAsterisk(f) && !HasTopCaption(f)
  {
  }
}
