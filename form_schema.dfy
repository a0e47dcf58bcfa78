/**
 * The served form schema (`formSchema`): the employee onboarding form, with
 * eight required fields, one of each kind, and the outcomes the server-side
 * validator gives for some of their values.
 */
module OnboardingForm {
  import opened Wrappers
  import opened JsText
  import opened JsValues
  import opened Dates
  import opened Schema
  import opened FieldChecks
  import opened BackendValidation
  import opened FrontendValidation
  import opened Agreement

  /** `{ required: true }` and nothing else. */
  const RequiredOnly: Rules := NoRules.(required := true)

  const FullName: Field := Field(
    "fullName", Text, "Full Name", Some("Enter your full name"), None,
    RequiredOnly.(minLength := Some(2), maxLength := Some(100)), None)

  const EmailPattern: string := "^[a-zA-Z0-9._%+-]+@[a-zA-Z0-9.-]+\\.[a-zA-Z]{2,}$"

  const EmailAddress: Field := Field(
    "email", Email, "Email Address", Some("your.email@company.com"), None,
    RequiredOnly.(regex := Some(EmailPattern), regexMessage := Some("Please enter a valid email address")), None)

  const Age: Field := Field(
    "age", Number, "Age", Some("Enter your age"), None,
    RequiredOnly.(min := Some(18), max := Some(100)), None)

  const Departments: seq<Choice> := [
    Choice("Engineering", "engineering"),
    Choice("Marketing", "marketing"),
    Choice("Sales", "sales"),
    Choice("Human Resources", "hr"),
    Choice("Finance", "finance")
  ]

  const Department: Field := Field(
    "department", Select, "Department", Some("Select your department"), Some(Departments),
    RequiredOnly, None)

  const SkillChoices: seq<Choice> := [
    Choice("JavaScript", "javascript"),
    Choice("Python", "python"),
    Choice("Java", "java"),
    Choice("React", "react"),
    Choice("Node.js", "nodejs"),
    Choice("SQL", "sql"),
    Choice("AWS", "aws"),
    Choice("Docker", "docker")
  ]

  const Skills: Field := Field(
    "skills", MultiSelect, "Technical Skills", Some("Select your skills"), Some(SkillChoices),
    RequiredOnly.(minSelected := Some(1), maxSelected := Some(5)), None)

  const StartDate: Field := Field(
    "startDate", Date, "Start Date", Some("Select your start date"), None,
    RequiredOnly.(minDate := Some("2024-01-01")), None)

  const Bio: Field := Field(
    "bio", Textarea, "Short Bio", Some("Tell us about yourself..."), None,
    RequiredOnly.(minLength := Some(10), maxLength := Some(500)), None)

  const AgreeToTerms: Field := Field(
    "agreeToTerms", Switch, "I agree to the terms and conditions", None, None,
    RequiredOnly, None)

  const Onboarding: FormSchema := FormSchema(
    "Employee Onboarding Form",
    "Please fill out this form to complete your onboarding process",
    [FullName, EmailAddress, Age, Department, Skills, StartDate, Bio, AgreeToTerms])

  function Kinds(fields: seq<Field>): (ks: seq<Kind>)
    ensures |ks| == |fields| && forall i :: 0 <= i < |fields| ==> ks[i] == fields[i].kind
  {
    if fields == [] then [] else [fields[0].kind] + Kinds(fields[1..])
  }

  const SchemaNames: seq<string> :=
    ["fullName", "email", "age", "department", "skills", "startDate", "bio", "agreeToTerms"]
  const SchemaKinds: seq<Kind> := [Text, Email, Number, Select, MultiSelect, Date, Textarea, Switch]

  lemma FieldNamesOfSchema()
    ensures FieldNames(Onboarding.fields) == SchemaNames
  {
  }

  lemma KindsOfSchema()
    ensures Kinds(Onboarding.fields) == SchemaKinds
  {
  }

  lemma SchemaNamesDistinct()
    ensures Distinct(SchemaNames)
  {
  }

  lemma SchemaKindsComplete()
    ensures Distinct(SchemaKinds) && forall k: Kind :: k in SchemaKinds
  {
    forall k: Kind ensures k in SchemaKinds {
      match k
      case Text => assert SchemaKinds[0] == k;
      case Email => assert SchemaKinds[1] == k;
      case Number => assert SchemaKinds[2] == k;
      case Select => assert SchemaKinds[3] == k;
      case MultiSelect => assert SchemaKinds[4] == k;
      case Date => assert SchemaKinds[5] == k;
      case Textarea => assert SchemaKinds[6] == k;
      case Switch => assert SchemaKinds[7] == k;
    }
  }

  /** Eight fields with distinct names, one of each kind, all required. */
  lemma FieldsShape()
    ensures |Onboarding.fields| == 8
    ensures Distinct(FieldNames(Onboarding.fields))
    ensures Distinct(Kinds(Onboarding.fields)) && forall k: Kind :: k in Kinds(Onboarding.fields)
    ensures forall i :: 0 <= i < 8 ==> Onboarding.fields[i].rules.required
  {
    FieldNamesOfSchema();
    KindsOfSchema();
    SchemaNamesDistinct();
    SchemaKindsComplete();
  }

  /** The bounds are consistent, and at most every skill can be ticked. */
  lemma BoundsConsistent()
    ensures FullName.rules.minLength.value <= FullName.rules.maxLength.value
    ensures Bio.rules.minLength.value <= Bio.rules.maxLength.value
    ensures Age.rules.min.value <= Age.rules.max.value
    ensures Skills.rules.minSelected.value <= Skills.rules.maxSelected.value <= |SkillChoices|
  {
  }

  const DepartmentValues: seq<string> := ["engineering", "marketing", "sales", "hr", "finance"]
  const SkillValues: seq<string> := ["javascript", "python", "java", "react", "nodejs", "sql", "aws", "docker"]

  lemma OptionValuesOfSchema()
    ensures OptionValues(Departments) == DepartmentValues
    ensures OptionValues(SkillChoices) == SkillValues
  {
    DepartmentOptionValues();
    SkillOptionValues();
  }

  lemma DepartmentOptionValues()
    ensures OptionValues(Departments) == DepartmentValues
  {
    var vs := OptionValues(Departments);
    forall i | 0 <= i < |vs| ensures vs[i] == DepartmentValues[i] {
      assert vs[i] == Departments[i].value;
    }
  }

  lemma SkillOptionValues()
    ensures OptionValues(SkillChoices) == SkillValues
  {
    var vs := OptionValues(SkillChoices);
    forall i | 0 <= i < |vs| ensures vs[i] == SkillValues[i] {
      assert vs[i] == SkillChoices[i].value;
    }
  }

  lemma OptionLiteralsDistinct()
    ensures Distinct(DepartmentValues) && Distinct(SkillValues)
  {
  }

  /** Both option lists are non-empty with distinct values. */
  lemma OptionsDistinct()
    ensures |Departments| > 0 && Distinct(OptionValues(Departments))
    ensures |SkillChoices| > 0 && Distinct(OptionValues(SkillChoices))
  {
    OptionValuesOfSchema();
    OptionLiteralsDistinct();
  }

  // ---------------------------------------------------------------------------
  // Concrete outcomes of the server-side validator

  /** `String(n)` of the bounds that appear in messages. */
  lemma BoundNumerals()
    ensures IntToString(5) == "5" && IntToString(18) == "18"
  {
    assert DecimalDigits(18) == DecimalDigits(1) + [DigitChar(8)];
  }

  lemma AgeBelowMinLiteral()
    ensures BelowMinMessage(Age, 18) == "Age must be at least 18"
  {
    BoundNumerals();
    assert BelowMinMessage(Age, 18) == "Age" + " must be at least " + "18";
  }

  lemma AgeTooYoung(test: Matcher)
    ensures ServerFieldError(Age, Num(17), test) == Some("Age must be at least 18")
  {
    NumberChecks(Age, Num(17), test);
    AgeBelowMinLiteral();
  }

  /** `Number("abc")` is NaN. */
  lemma LettersAreNaN()
    ensures ToNumber(Str("abc")).None?
  {
    assert TrimStart("abc") == "abc" by { assert !IsWhitespace('a'); }
    assert TrimEnd("abc") == "abc" by { assert !IsWhitespace('c'); }
    assert !IsNumeral("abc", 10) by { assert DigitValue("abc"[0], 10) < 0; }
    assert !IsNumeral("abc"[1..], 10) by { assert DigitValue("abc"[1..][0], 10) < 0; }
  }

  lemma AgeNotANumberMessage()
    ensures NotANumberMessage(Age) == "Age must be a valid number"
  {
    assert NotANumberMessage(Age) == "Age" + " must be a valid number";
  }

  lemma AgeNotANumber(test: Matcher)
    ensures ServerFieldError(Age, Str("abc"), test) == Some("Age must be a valid number")
  {
    LettersAreNaN();
    NumberChecks(Age, Str("abc"), test);
    AgeNotANumberMessage();
  }

  lemma AgeInRange(test: Matcher)
    ensures ServerFieldError(Age, Num(25), test) == None
  {
    NumberChecks(Age, Num(25), test);
  }

  lemma SkillsEmpty(test: Matcher)
    ensures ServerFieldError(Skills, List([]), test) == Some("Technical Skills is required")
  {
    BackendValidation.RequiredEmptySelection(Skills, test);
    assert ServerFieldError(Skills, List([]), test) == Some(Skills.caption + " is required");
    assert Skills.caption == "Technical Skills";
    assert Skills.caption + " is required" == "Technical Skills is required";
  }

  /** Ticking more than five skills, e.g. javascript, python, java, react,
      nodejs and sql, is refused with the "options" message. */
  lemma SkillsTooMany(picked: seq<string>, test: Matcher)
    requires |picked| > 5
    ensures ServerFieldError(Skills, List(picked), test) == Some("Select no more than 5 options")
  {
    assert Skills.rules.maxSelected == Some(5);
    TooManySelected(Skills, picked, test);
    FiveOptionsLiteral();
  }

  /** The same six skills in the browser: one minimum and one maximum are
      set, and the browser says "option(s)" where the server says "options". */
  lemma SkillsTooManyWording(picked: seq<string>, test: Matcher)
    requires |picked| > 5
    ensures ValidateField(Skills, List(picked), test) == Some("Select no more than 5 option(s)")
    ensures ServerFieldError(Skills, List(picked), test) == Some("Select no more than 5 options")
  {
    assert Skills.rules.minSelected == Some(1) && Skills.rules.maxSelected == Some(5);
    TooManyWording(Skills, picked, test);
    TooManyLiterals();
  }

  lemma TooManyLiterals()
    ensures TooManyMessage(5, "option(s)") == "Select no more than 5 option(s)"
    ensures TooManyMessage(5, "options") == "Select no more than 5 options"
  {
    BoundNumerals();
  }

  lemma FiveOptionsLiteral()
    ensures "Select no more than " + IntToString(5) + " options" == "Select no more than 5 options"
  {
    BoundNumerals();
  }

  /** Time values of the two dates involved. */
  lemma StartDateValues()
    ensures ParseIsoDate("2024-01-01") == Some(19723 * MsPerDay)
    ensures ParseIsoDate("2023-12-31") == Some(19722 * MsPerDay)
  {
    FirstDayOf2024();
    LastDayOf2023();
  }

  lemma FirstDayOf2024()
    ensures ParseIsoDate("2024-01-01") == Some(19723 * MsPerDay)
  {
    FirstDayOf2024Fields();
    EpochDays();
    ParseIsoDateOf("2024-01-01", 2024, 1, 1);
  }

  lemma LastDayOf2023()
    ensures ParseIsoDate("2023-12-31") == Some(19722 * MsPerDay)
  {
    LastDayOf2023Fields();
    EpochDays();
    ParseIsoDateOf("2023-12-31", 2023, 12, 31);
  }

  lemma FirstDayOf2024Fields()
    ensures var s := "2024-01-01";
            |s| == 10 && s[4] == '-' && s[7] == '-'
            && IsNumeral(s[..4], 10) && IsNumeral(s[5..7], 10) && IsNumeral(s[8..], 10)
            && NumeralValue(s[..4], 10) == 2024 && NumeralValue(s[5..7], 10) == 1 && NumeralValue(s[8..], 10) == 1
  {
    ParseIsoDateParts("2024-01-01");
  }

  lemma LastDayOf2023Fields()
    ensures var s := "2023-12-31";
            |s| == 10 && s[4] == '-' && s[7] == '-'
            && IsNumeral(s[..4], 10) && IsNumeral(s[5..7], 10) && IsNumeral(s[8..], 10)
            && NumeralValue(s[..4], 10) == 2023 && NumeralValue(s[5..7], 10) == 12 && NumeralValue(s[8..], 10) == 31
  {
    ParseIsoDateParts("2023-12-31");
  }

  lemma EpochDays()
    ensures EpochDay(2024, 1, 1) == 19723 && EpochDay(2023, 12, 31) == 19722
    ensures DaysInMonth(2023, 12) == 31
  {
    assert DaysBeforeYear(1970) == 719528 && DaysBeforeYear(2023) == 738886 && DaysBeforeYear(2024) == 739251;
  }

  lemma TooEarlyLiteral()
    ensures TooEarlyMessage(StartDate, "2024-01-01") == "Start Date must be on or after 2024-01-01"
  {
    assert StartDate.caption == "Start Date";
    TooEarlyWording("Start Date");
  }

  lemma TooEarlyWording(caption: string)
    requires caption == "Start Date"
    ensures caption + " must be on or after " + "2024-01-01" == "Start Date must be on or after 2024-01-01"
  {
  }

  lemma StartDateTooEarly(test: Matcher)
    ensures ServerFieldError(StartDate, Str("2023-12-31"), test)
            == Some("Start Date must be on or after 2024-01-01")
  {
    StartDateValues();
    DateChecks(StartDate, Str("2023-12-31"), test);
    assert DateBefore(DateValue(Str("2023-12-31")), ParseIsoDate("2024-01-01"));
    TooEarlyLiteral();
  }

  /** "2023-02-30" is not refused as malformed: it rolls over to the 2nd of
      March 2023 and is refused as too early. */
  lemma StartDateRollsOver(test: Matcher)
    ensures ParseIsoDate("2023-02-30") == ParseIsoDate("2023-03-02") == Some(19418 * MsPerDay)
    ensures ServerFieldError(StartDate, Str("2023-02-30"), test)
            == Some("Start Date must be on or after 2024-01-01")
  {
    FebruaryThirtieth();
    MarchSecond();
    FirstDayOf2024();
    DateChecks(StartDate, Str("2023-02-30"), test);
    assert DateBefore(DateValue(Str("2023-02-30")), ParseIsoDate("2024-01-01"));
    TooEarlyLiteral();
  }

  lemma FebruaryThirtieth()
    ensures ParseIsoDate("2023-02-30") == Some(19418 * MsPerDay)
  {
    ParseIsoDateParts("2023-02-30");
    DayRollsOver(2023, 2, 30);
    RolloverDays();
    ParseIsoDateOf("2023-02-30", 2023, 2, 30);
  }

  lemma MarchSecond()
    ensures ParseIsoDate("2023-03-02") == Some(19418 * MsPerDay)
  {
    ParseIsoDateParts("2023-03-02");
    RolloverDays();
    ParseIsoDateOf("2023-03-02", 2023, 3, 2);
  }

  lemma RolloverDays()
    ensures EpochDay(2023, 3, 2) == 19418 && EpochDay(2023, 2, 30) == 19418
  {
    assert DaysBeforeYear(1970) == 719528 && DaysBeforeYear(2023) == 738886;
  }

  lemma StartDateOnMinimum(test: Matcher)
    ensures ServerFieldError(StartDate, Str("2024-01-01"), test) == None
  {
    StartDateValues();
    DateChecks(StartDate, Str("2024-01-01"), test);
  }

  /** The browser gives the same verdicts on these values, and also stops
      the switch left off. */
  lemma BrowserAgrees(test: Matcher)
    ensures ValidateField(Age, Num(17), test) == Some("Age must be at least 18")
    ensures ValidateField(Age, Num(25), test) == None
    ensures ValidateField(Skills, List([]), test) == Some("Technical Skills is required")
    ensures ValidateField(StartDate, Str("2023-12-31"), test) == Some("Start Date must be on or after 2024-01-01")
    ensures ValidateField(AgreeToTerms, Bool(false), test) == Some("I agree to the terms and conditions is required")
  {
    BrowserAgeTooYoung(test);
    BrowserAgeInRange(test);
    BrowserSkillsEmpty(test);
    BrowserStartDateTooEarly(test);
    BrowserTermsOff(test);
  }

  lemma BrowserAgeTooYoung(test: Matcher)
    ensures ValidateField(Age, Num(17), test) == Some("Age must be at least 18")
  {
    AgeTooYoung(test);
    AgreeOnSingleFailure(Age, Num(17), test);
  }

  lemma BrowserAgeInRange(test: Matcher)
    ensures ValidateField(Age, Num(25), test) == None
  {
    AgeInRange(test);
    AgreeOnSingleFailure(Age, Num(25), test);
  }

  lemma BrowserSkillsEmpty(test: Matcher)
    ensures ValidateField(Skills, List([]), test) == Some("Technical Skills is required")
  {
    SkillsEmpty(test);
    FrontendValidation.RequiredEmptySelection(Skills, test);
  }

  lemma BrowserStartDateTooEarly(test: Matcher)
    ensures ValidateField(StartDate, Str("2023-12-31"), test) == Some("Start Date must be on or after 2024-01-01")
  {
    StartDateTooEarly(test);
    AgreeOnSingleFailure(StartDate, Str("2023-12-31"), test);
  }

  lemma BrowserTermsOff(test: Matcher)
    ensures ValidateField(AgreeToTerms, Bool(false), test) == Some("I agree to the terms and conditions is required")
  {
    RequiredSwitch(AgreeToTerms, false, test);
    TermsRequiredLiteral();
  }

  lemma TermsRequiredLiteral()
    ensures AgreeToTerms.caption + " is required" == "I agree to the terms and conditions is required"
  {
  }
}
