/**
 * How the browser's verdict on a field relates to the server's. Both run the
 * shared rule checks in one order; the browser reports the first failure and
 * the server keeps the last, so they accept the same values except where
 * their rules differ: the required switch (browser only) and select
 * membership (server only).
 */
module Agreement {
  import opened Wrappers
  import opened JsText
  import opened JsValues
  import opened Schema
  import opened FieldChecks
  import opened BackendValidation
  import opened FrontendValidation

  /** The kinds for which the two validators run the very same checks. */
  predicate SameChecks(k: Kind) {
    k == Text || k == Email || k == Textarea || k == Number || k == Date
  }

  lemma {:induction false} SameFailureLists(f: Field, v: Value, test: Matcher)
    requires SameChecks(f.kind)
    ensures ClientFailures(f, v, test) == ServerFailures(f, v, test)
  {
    assert SelectionFailures(f, v, ClientUnit) == [] == SelectionFailures(f, v, ServerUnit);
    assert ChoiceFailures(f, v) == [];
  }

  /** For text, email, textarea, number and date fields the browser reports
      the first failing check and the server the last. */
  lemma FirstAndLast(f: Field, v: Value, test: Matcher)
    requires SameChecks(f.kind)
    ensures ValidateField(f, v, test) == First(ServerFailures(f, v, test))
    ensures ServerFieldError(f, v, test) == Last(ServerFailures(f, v, test))
  {
    ValidateFieldIsFirstFailure(f, v, test);
    SameFailureLists(f, v, test);
  }

  /** When at most one check fails, both report the same message. */
  lemma AgreeOnSingleFailure(f: Field, v: Value, test: Matcher)
    requires SameChecks(f.kind) && |ServerFailures(f, v, test)| <= 1
    ensures ValidateField(f, v, test) == ServerFieldError(f, v, test)
  {
    FirstAndLast(f, v, test);
  }

  /** Apart from switches and selects, a value passes in the browser iff it
      passes on the server. */
  lemma SameAcceptance(f: Field, v: Value, test: Matcher)
    requires f.kind != Switch && f.kind != Select
    ensures ValidateField(f, v, test).None? <==> ServerFieldError(f, v, test).None?
  {
    ValidateFieldIsFirstFailure(f, v, test);
    if f.kind == MultiSelect {
      var client, server := ClientFailures(f, v, test), ServerFailures(f, v, test);
      assert TextFailures(f, v, test) == [] && NumberFailures(f, v) == [];
      assert DateFailures(f, v) == [] && ChoiceFailures(f, v) == [];
      assert |SelectionFailures(f, v, ClientUnit)| == |SelectionFailures(f, v, ServerUnit)|;
      assert |client| == |server|;
    } else {
      SameFailureLists(f, v, test);
    }
  }

  /** A required switch left off is stopped in the browser but accepted by
      the server. */
  lemma SwitchOffDiffers(f: Field, test: Matcher)
    requires f.kind == Switch && f.rules.required
    ensures ValidateField(f, Bool(false), test) == Some(RequiredMessage(f))
    ensures ServerFieldError(f, Bool(false), test) == None
  {
  }

  /** A select value outside the options passes in the browser and is
      rejected by the server. */
  lemma UnknownChoiceDiffers(f: Field, s: string, test: Matcher)
    requires f.kind == Select && f.options.Some? && s != "" && s !in OptionValues(f.options.value)
    ensures ValidateField(f, Str(s), test) == None
    ensures ServerFieldError(f, Str(s), test) == Some(InvalidSelectionMessage(f))
  {
    assert ServerFailures(f, Str(s), test) == [InvalidSelectionMessage(f)];
  }

  /** Too many ticked options: same check, different unit word. */
  lemma TooManyWording(f: Field, items: seq<string>, test: Matcher)
    requires f.kind == MultiSelect && Enabled(f.rules.maxSelected) && |items| > f.rules.maxSelected.value
    requires !Enabled(f.rules.minSelected) || f.rules.minSelected.value <= f.rules.maxSelected.value
    ensures ValidateField(f, List(items), test) == Some(TooManyMessage(f.rules.maxSelected.value, "option(s)"))
    ensures ServerFieldError(f, List(items), test) == Some(TooManyMessage(f.rules.maxSelected.value, "options"))
  {
    TooManySelected(f, items, test);
  }

  /** A text that is both too short and malformed: the browser names the
      length, the server the format. */
  lemma ShortAndMalformedDiffers(f: Field, s: string, test: Matcher)
    requires f.kind == Text && Enabled(f.rules.minLength) && Utf16Length(s) < f.rules.minLength.value && s != ""
    requires HasText(f.rules.regex) && !test(f.rules.regex.value, s)
    ensures ValidateField(f, Str(s), test) == Some(MinLengthMessage(f, f.rules.minLength.value))
    ensures ServerFieldError(f, Str(s), test) == Some(FormatMessage(f))
  {
    FirstAndLast(f, Str(s), test);
    var r := f.rules;
    var tooLong := if Enabled(r.maxLength) && Utf16Length(s) > r.maxLength.value then [MaxLengthMessage(f, r.maxLength.value)] else [];
    assert TextFailures(f, Str(s), test) == [MinLengthMessage(f, r.minLength.value)] + tooLong + [FormatMessage(f)];
    assert ServerFailures(f, Str(s), test) == [MinLengthMessage(f, r.minLength.value)] + tooLong + [FormatMessage(f)];
  }
}
