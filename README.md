# Employee onboarding form engine: a Dafny model

This project models the logic of a schema-driven form application. An
Express backend serves a form schema and validates submitted answers against
it. It keeps submissions in an in-memory store and lists them with sorting and
pagination. A React frontend renders the form from the same schema and checks
each field in the browser. It also shows the stored submissions in a table with
CSV export, a detail dialog and an edit dialog.

The model has one Dafny module per concern:

- **Values and text.** `Wrappers`, `JsText`, `JsValues` and `Dates` give the
  JavaScript values, strings, number parsing, plain objects and dates the
  sources rely on.
- **Schema and validation.**
  - `Schema` holds the field descriptors, and `OnboardingForm` the served schema.
  - `FieldChecks` holds the rule checks both validators share.
  - `BackendValidation` is the server's middleware: a loop that keeps the last
    failing message per field.
  - `FrontendValidation` is the browser's first-failure validator.
  - `Agreement` relates the two validators.
- **Store and endpoints.** `RecordSort` and `Store` model the store (a
  class). `Controller` models the listing and create endpoints.
- **Frontend.** `SubmissionTable`, `SubmissionsPage` (a class), `SubmissionModal`,
  `DynamicForm`, `FormField` (with a class for one field's state) and
  `EditSubmissionModal` model the components.

Some things are taken as parameters instead of being modelled:

- the regular-expression engine (`Matcher`);
- the clock (`now`);
- `toLocaleString` (`LocaleFormat`).

## Model

| member | source | states |
|---|---|---|
| JsText.TrimStartShape | frontend/src/components/SubmissionModal.jsx:22 | `trimStart` leaves a suffix that starts with no whitespace, and everything dropped is whitespace |
| JsText.TrimEndShape | frontend/src/components/SubmissionModal.jsx:22 | `trimEnd` leaves a prefix that ends with no whitespace, and everything dropped is whitespace |
| JsText.TrimOfTrimmed | frontend/src/components/SubmissionModal.jsx:22 | a string with no whitespace at either end is its own trim |
| JsText.PadStart | backend/src/store/submissionStore.js:9 | the result is the fill character repeated up to the width, followed by the input; a long enough input is unchanged |
| JsText.DecimalDigits | backend/src/store/submissionStore.js:9 | `String(n)` is a non-empty decimal numeral with no leading zero |
| JsText.DecimalDigitsValue | backend/src/store/submissionStore.js:9 | reading `String(n)` back gives `n` |
| JsText.IntToString | backend/src/middleware/validation.js:33 | the numeral of a bound is non-empty and does not end in a sign |
| JsText.StringToNumberOfIntToString | backend/src/middleware/validation.js:48 | `Number(String(i)) == i` |
| JsText.LeadingDigitCount | backend/src/controllers/submissionController.js:26 | the length of the longest digit prefix: all digits up to it and a non-digit right after it |
| JsText.ParseIntDigitPrefix | backend/src/controllers/submissionController.js:26 | `parseInt` reads the leading run of digits and ignores the rest, e.g. "12abc" gives 12 |
| JsText.ParseIntSigned | backend/src/controllers/submissionController.js:26-27 | a digit string that reads as n is parsed as n, and with a leading "-" as -n |
| JsText.ParseIntOfIntToString | backend/src/controllers/submissionController.js:26-27 | `parseInt(String(i)) == i` |
| JsText.StrLessIrreflexive | backend/src/store/submissionStore.js:27 | string `<` is irreflexive |
| JsText.StrLessAsymmetric | backend/src/store/submissionStore.js:27 | string `<` is asymmetric |
| JsText.StrLessTransitive | backend/src/store/submissionStore.js:27 | string `<` is transitive |
| JsText.StrLessTotal | backend/src/store/submissionStore.js:27 | two different strings are ordered one way or the other |
| JsText.CodeUnits | backend/src/middleware/validation.js:32 | a character takes one code unit below U+10000 and two above it, each a 16-bit value |
| JsText.Utf16LengthIsUnits | backend/src/middleware/validation.js:32 | the counted length is the number of code units; it is at least the number of characters, and equal exactly when no character is above U+FFFF |
| JsText.UnitsLessCommonPrefix | backend/src/store/submissionStore.js:27 | a shared leading character does not change the code-unit order |
| JsText.UnitKeyOrder | backend/src/store/submissionStore.js:27 | two different characters compare by key as their code units compare, whatever follows them |
| JsText.StrLessIsUtf16Order | backend/src/store/submissionStore.js:27 | string `<` is the lexicographic order of the two strings' UTF-16 code units |
| JsValues.ToNumber | backend/src/middleware/validation.js:48 | `Number` keeps a number; NaN and undefined give NaN |
| JsValues.ListToNumberIsJoin | backend/src/middleware/validation.js:48 | `Number` of an array is `Number` of its elements joined by ",": [] is 0, one element converts as itself, two or more are NaN |
| JsValues.JsLength | backend/src/middleware/validation.js:32 | `.length` is defined exactly for strings and arrays; an array's is its item count and a string's is at least its character count |
| JsValues.EmojiLength | backend/src/middleware/validation.js:32-37 | one emoji is two code units long, as long as two letters |
| JsValues.EmojiBeforeFullwidth | backend/src/store/submissionStore.js:27 | U+1F600 sorts before U+FF01, by its high surrogate |
| JsValues.GreaterAsymmetric | backend/src/store/submissionStore.js:26-30 | the comparator's `>` is asymmetric |
| JsValues.GreaterTransitive | backend/src/store/submissionStore.js:26-30 | the comparator's `>` is transitive |
| JsValues.GreaterTotalOnSameType | backend/src/store/submissionStore.js:26-30 | two different strings, numbers or booleans are ordered one way or the other |
| JsValues.Keys | frontend/src/components/SubmissionTable.jsx:42 | `Object.keys` lists the entries' keys in order |
| JsValues.Get | backend/src/middleware/validation.js:8 | a key that is absent reads as undefined |
| JsValues.Set | frontend/src/components/DynamicForm.jsx:11 | an existing key keeps its place, and a new key goes last |
| JsValues.GetSet | frontend/src/components/DynamicForm.jsx:11 | after `o[k] = v`, `k` reads `v` and every other key reads as before |
| JsValues.SetKeepsObject | frontend/src/components/DynamicForm.jsx:11 | assigning a key never duplicates a key |
| JsValues.GetAssign | backend/src/store/submissionStore.js:10 | after a spread, a key of the source reads the source's value and any other key the target's |
| JsValues.AssignKeepsObject | backend/src/store/submissionStore.js:8-12 | a spread never duplicates a key |
| JsValues.AssignKeysPrefix | backend/src/store/submissionStore.js:8-12 | a spread keeps the target's keys first, in order |
| JsValues.Omit | frontend/src/components/EditSubmissionModal.jsx:27 | every entry of the rest object is an entry of the input whose key was not named |
| JsValues.GetOmit | frontend/src/components/EditSubmissionModal.jsx:27 | a named key reads as undefined in the rest object, and any other key as in the input |
| Dates.ParseIsoDate | backend/src/middleware/validation.js:63-64 | only a "YYYY-MM-DD" string parses to a time value |
| Dates.ParseIsoDateParts | backend/src/middleware/validation.js:63-64 | year, month and day are the values of their digits |
| Dates.ParseIsoDateOf | backend/src/middleware/validation.js:63-64 | a "YYYY-MM-DD" string with month 01-12 and day 01-31 is UTC midnight of that day, counted on from the first of the month |
| Dates.MonthsAdjoin | backend/src/middleware/validation.js:63-64 | each month starts where the one before it ends |
| Dates.DayRollsOver | backend/src/middleware/validation.js:63-64 | a day past the end of a month (not December) is the same instant as the matching day of the next month |
| Dates.EpochStart | backend/src/middleware/validation.js:63 | "1970-01-01" is time value 0 |
| Schema.OptionValues | backend/src/middleware/validation.js:82 | `options.map(opt => opt.value)`, position by position |
| Schema.FieldNames | backend/src/middleware/validation.js:7-8 | the fields' names in schema order |
| FieldChecks.TextFailuresNonEmpty | backend/src/middleware/validation.js:31-44 | every text-check message is non-empty |
| FieldChecks.NumberFailuresNonEmpty | backend/src/middleware/validation.js:47-59 | every number-check message is non-empty |
| BackendValidation.OverwriteTwice | backend/src/middleware/validation.js:31-86 | overwriting with one group of failures and then another is the same as overwriting once with both groups |
| BackendValidation.CheckField | backend/src/middleware/validation.js:8-86 | one turn of the loop leaves the message of the last failing check of that field, after the early returns |
| BackendValidation.ApplyTextRules | backend/src/middleware/validation.js:31-44 | the length and pattern checks overwrite the message with the last one that fails |
| BackendValidation.ApplyNumberRules | backend/src/middleware/validation.js:47-59 | a NaN value gets only the number message; otherwise the later of the min and max failures wins |
| BackendValidation.ApplyDateRule | backend/src/middleware/validation.js:62-68 | the date message is written iff both dates are valid and the input is before the minimum |
| BackendValidation.ApplySelectionRules | backend/src/middleware/validation.js:71-78 | only an array is counted, against minSelected and then maxSelected |
| BackendValidation.ApplyChoiceRule | backend/src/middleware/validation.js:81-86 | a select value that is not strictly equal to an option value gets the invalid-selection message |
| BackendValidation.ValidateSubmission | backend/src/middleware/validation.js:5-96 | the loop builds exactly the errors map of the whole schema; the answer is 400 with that map iff the map is non-empty, and `next()` otherwise |
| BackendValidation.RequiredBlankField | backend/src/middleware/validation.js:12-16 | a required undefined, null or '' value gets exactly "<label> is required", and no other check runs |
| BackendValidation.RequiredEmptySelection | backend/src/middleware/validation.js:19-22 | a required multi-select given [] gets "<label> is required" |
| BackendValidation.SwitchNeverFails | backend/src/middleware/validation.js:12-86 | a switch given either boolean never gets a message, required or not |
| BackendValidation.OptionalBlankField | backend/src/middleware/validation.js:26-28 | an optional undefined, null or '' value never gets a message |
| BackendValidation.OptionalEmptySelectionCounted | backend/src/middleware/validation.js:71-74 | an optional multi-select given [] still gets "Select at least N options" |
| BackendValidation.TextLastFailureWins | backend/src/middleware/validation.js:31-44 | of too short, too long and bad format, the last one that fails is the message kept |
| BackendValidation.NumberChecks | backend/src/middleware/validation.js:47-59 | NaN gets "<label> must be a valid number"; otherwise above max wins over below min, and a value in range passes |
| BackendValidation.DateChecks | backend/src/middleware/validation.js:62-68 | the date fails iff it is strictly before minDate; the minimum itself and an Invalid Date pass |
| BackendValidation.SelectMembership | backend/src/middleware/validation.js:81-86 | a select passes iff its value is one of the option values |
| BackendValidation.TooManySelected | backend/src/middleware/validation.js:75-77 | a multi-select longer than maxSelected ends with "Select no more than N options" |
| BackendValidation.TooManyText | backend/src/middleware/validation.js:76 | the server's too-many message reads "Select no more than N options" |
| BackendValidation.OnlyNumberChecks | backend/src/middleware/validation.js:47-59 | for a non-blank value of a number field only the number checks can fail |
| BackendValidation.CollectErrorsAt | backend/src/middleware/validation.js:7-87 | with distinct names, a field is a key of the map iff it has a message, and the key holds that message |
| BackendValidation.CollectErrorsKeys | backend/src/middleware/validation.js:7-87 | every key of the map is a field's name |
| BackendValidation.ServerErrorsExact | backend/src/middleware/validation.js:7-87 | the map's keys are exactly the failing fields, each holding its own message |
| BackendValidation.CollectErrorsEmptyIff | backend/src/middleware/validation.js:7-87 | a collected errors map is empty iff no field has a message, since messages are only added |
| BackendValidation.ServerErrorsEmptyIff | backend/src/middleware/validation.js:89-96 | the map is empty iff no field fails |
| BackendValidation.ServerFieldError | backend/src/middleware/validation.js:8-86 | the message one field leaves in `errors`, specified by ServerFailures with TooManySelected, DateChecks and SelectMembership |
| BackendValidation.ServerErrors | backend/src/middleware/validation.js:5-87 | the `errors` object, specified by ServerErrorsExact and ServerErrorsEmptyIff |
| FrontendValidation.ValidateFieldIsFirstFailure | frontend/src/utils/validation.js:5-71 | the result is the first failing check, in the order required, length, pattern, number, date, multi-select |
| FrontendValidation.ValidateField | frontend/src/utils/validation.js:5-71 | `validateField`, specified by ValidateFieldIsFirstFailure and RequiredBlank |
| FrontendValidation.RequiredBlank | frontend/src/utils/validation.js:6-8 | a required undefined, null or '' value gets "<label> is required" |
| FrontendValidation.RequiredEmptySelection | frontend/src/utils/validation.js:9-11 | a required multi-select given [] gets "<label> is required" |
| FrontendValidation.RequiredSwitch | frontend/src/utils/validation.js:12-14 | a required switch that is off gets "<label> is required", and one that is on passes |
| FrontendValidation.OptionalBlank | frontend/src/utils/validation.js:18-20 | an optional undefined, null or '' value passes whatever other rules exist |
| FrontendValidation.NotANumberFirst | frontend/src/utils/validation.js:39-43 | NaN gets "must be a valid number" before any range check |
| FrontendValidation.NumberRange | frontend/src/utils/validation.js:44-49 | below min gets the min message first, then above max the max message; a value in range passes |
| FrontendValidation.SelectAnyValuePasses | frontend/src/utils/validation.js:22-71 | there is no membership rule: any non-empty select value passes |
| FrontendValidation.MessageNonEmpty | frontend/src/utils/validation.js:1-72 | a message that is returned is never empty |
| Agreement.SameFailureLists | frontend/src/utils/validation.js:23-59 | for text, email, textarea, number and date fields both validators fail the same checks in the same order |
| Agreement.FirstAndLast | frontend/src/utils/validation.js:23-59 | for those kinds the browser reports the first failing check and the server keeps the last |
| Agreement.AgreeOnSingleFailure | frontend/src/utils/validation.js:23-59 | when at most one check fails, both validators give the same message |
| Agreement.SameAcceptance | frontend/src/utils/validation.js:5-71 | except for switches and selects, a value passes in the browser iff it passes on the server |
| Agreement.SwitchOffDiffers | frontend/src/utils/validation.js:12-14 | a required switch that is off is stopped in the browser and accepted by the server |
| Agreement.UnknownChoiceDiffers | backend/src/middleware/validation.js:81-86 | a select value outside the options passes in the browser and is rejected by the server |
| Agreement.TooManyWording | frontend/src/utils/validation.js:66-68 | the too-many message says "option(s)" in the browser and "options" on the server |
| Agreement.ShortAndMalformedDiffers | frontend/src/utils/validation.js:24-35 | for a text too short and malformed, the browser names the length and the server names the format |
| OnboardingForm.FieldNamesOfSchema | backend/src/data/formSchema.js:4-104 | the eight field names, in order |
| OnboardingForm.KindsOfSchema | backend/src/data/formSchema.js:4-104 | the eight field kinds, in order |
| OnboardingForm.FieldsShape | backend/src/data/formSchema.js:4-104 | eight fields with distinct names, one of each kind, all required |
| OnboardingForm.BoundsConsistent | backend/src/data/formSchema.js:10-94 | minLength ≤ maxLength for fullName and bio, min ≤ max for age, and minSelected ≤ maxSelected ≤ the 8 skills |
| OnboardingForm.OptionValuesOfSchema | backend/src/data/formSchema.js:43-68 | the department and skill option values |
| OnboardingForm.OptionsDistinct | backend/src/data/formSchema.js:43-68 | both option lists are non-empty and have distinct values |
| OnboardingForm.AgeTooYoung | backend/src/data/formSchema.js:28-36 | age 17 gets "Age must be at least 18" on the server |
| OnboardingForm.AgeNotANumber | backend/src/data/formSchema.js:28-36 | age "abc" gets "Age must be a valid number" on the server |
| OnboardingForm.AgeInRange | backend/src/data/formSchema.js:28-36 | age 25 passes on the server |
| OnboardingForm.SkillsEmpty | backend/src/data/formSchema.js:55-73 | skills [] gets "Technical Skills is required" on the server |
| OnboardingForm.SkillsTooMany | backend/src/data/formSchema.js:55-73 | any selection of more than five skills, such as six, gets "Select no more than 5 options" on the server |
| OnboardingForm.SkillsTooManyWording | frontend/src/utils/validation.js:66-68 | six ticked skills: the browser says "Select no more than 5 option(s)" and the server "Select no more than 5 options" |
| OnboardingForm.TooManyLiterals | frontend/src/utils/validation.js:66-68 | the two too-many messages for a maximum of 5 |
| OnboardingForm.StartDateValues | backend/src/data/formSchema.js:82 | the time values of 2024-01-01 and 2023-12-31 are one day apart |
| OnboardingForm.StartDateTooEarly | backend/src/data/formSchema.js:76-83 | start date "2023-12-31" gets "Start Date must be on or after 2024-01-01" |
| OnboardingForm.StartDateOnMinimum | backend/src/data/formSchema.js:76-83 | start date "2024-01-01" passes |
| OnboardingForm.StartDateRollsOver | backend/src/middleware/validation.js:63-66 | "2023-02-30" is the 2nd of March 2023, and the start date refuses it as too early rather than as malformed |
| OnboardingForm.FebruaryThirtieth | backend/src/middleware/validation.js:63-64 | "2023-02-30" is day 19418 after the epoch |
| OnboardingForm.MarchSecond | backend/src/middleware/validation.js:63-64 | "2023-03-02" is day 19418 after the epoch |
| OnboardingForm.RolloverDays | backend/src/middleware/validation.js:63-64 | the day counts of 2023-02-30 and 2023-03-02 agree |
| OnboardingForm.BrowserAgrees | backend/src/data/formSchema.js:4-104 | the browser gives the same verdicts on those values, and also stops agreeToTerms when it is false |
| RecordSort.Insert | backend/src/store/submissionStore.js:22-31 | one insertion step adds exactly its record |
| RecordSort.SortRecords | backend/src/store/submissionStore.js:22 | the sorted copy is a permutation of the records |
| RecordSort.After | backend/src/store/submissionStore.js:26-30 | the comparator's "a goes after b", specified by AfterAsymmetric, NotAfterTransitive and StringKeysRelated |
| RecordSort.AfterAsymmetric | backend/src/store/submissionStore.js:26-30 | the comparator never puts each of two records after the other |
| RecordSort.NotAfterTransitive | backend/src/store/submissionStore.js:26-30 | for related keys, "does not come after" is transitive |
| RecordSort.InsertInOrder | backend/src/store/submissionStore.js:22-31 | inserting into an ordered list keeps it ordered |
| RecordSort.SortInOrder | backend/src/store/submissionStore.js:22-31 | the sorted copy is ordered when every two keys are related |
| RecordSort.SortSpec | backend/src/store/submissionStore.js:22-31 | a permutation in which no key is greater than a later one for 'asc', and none is smaller for any other order |
| RecordSort.SortStrict | backend/src/store/submissionStore.js:26-30 | records with different keys are strictly ascending for 'asc' and strictly descending otherwise |
| RecordSort.StringKeysRelated | backend/src/store/submissionStore.js:22-31 | keys that are all strings, like every stored createdAt, are pairwise related |
| Store.FormatId | backend/src/store/submissionStore.js:9 | an id is "SUB-" followed by at least six characters |
| Store.IdDigitsValue | backend/src/store/submissionStore.js:9 | the digits after "SUB-" read back as the counter |
| Store.FormatIdInjective | backend/src/store/submissionStore.js:9 | two ids are equal iff their counters are |
| Store.FirstId | backend/src/store/submissionStore.js:4-9 | the first id is "SUB-000001" |
| Store.NewSubmissionFields | backend/src/store/submissionStore.js:8-12 | createdAt is the store's timestamp whatever the data holds; the data's own id overrides the generated one; other keys keep the data's values |
| Store.NewSubmissionShape | backend/src/store/submissionStore.js:8-12 | the new record is a well-formed object whose first key is id |
| Store.FindIndex | backend/src/store/submissionStore.js:55 | the first position with that id, or -1 iff there is none |
| Store.NewSubmission | backend/src/store/submissionStore.js:8-12 | the record `create` builds, specified by NewSubmissionFields and NewSubmissionShape |
| Store.PageOf | backend/src/store/submissionStore.js:22-36 | the page `getAll` answers, specified by PageOfSize and SortedSlice |
| Store.RemoveAt | backend/src/store/submissionStore.js:57 | `splice(i, 1)` drops exactly the record at i and keeps the others in order |
| Store.JsSlice | backend/src/store/submissionStore.js:36 | a slice is never longer than the list |
| Store.CeilDiv | backend/src/store/submissionStore.js:43 | `Math.ceil(n / d)` is the least q with n ≤ q·d |
| Store.SliceBound | backend/src/store/submissionStore.js:36 | a `slice` bound is clamped to the list, and a negative one counts from the end |
| Store.PageSlice | backend/src/store/submissionStore.js:34-36 | page p of limit l holds the positions from (p-1)·l up to (p-1)·l+l, clamped to the list |
| Store.PageOfSize | backend/src/store/submissionStore.js:34-36 | the page has min(limit, max(0, N - (page-1)·limit)) records |
| Store.SliceInOrder | backend/src/store/submissionStore.js:36 | a slice of an ordered list is ordered |
| Store.SubrangeInOrder | backend/src/store/submissionStore.js:36 | a contiguous piece of an ordered list is ordered |
| Store.SortedSlice | backend/src/store/submissionStore.js:22-36 | a slice of the sorted copy holds only stored records, and is ordered when every two keys are related |
| Store.StampedAfterAppend | backend/src/store/submissionStore.js:7-14 | every stored record keeps a string createdAt after a create |
| Store.SlicePart | backend/src/store/submissionStore.js:36 | a slice holds only records of the list |
| Store.CreatedIsFound | backend/src/store/submissionStore.js:50-52 | a created record is found by its id unless an earlier record already has that id |
| Store.SubmissionStore.constructor | backend/src/store/submissionStore.js:2-5 | a new store has no records and counter 1 |
| Store.SubmissionStore.Create | backend/src/store/submissionStore.js:7-18 | appends exactly the new record, increments the counter by one and returns the record |
| Store.SubmissionStore.GetAll | backend/src/store/submissionStore.js:20-48 | the stored records are unchanged; data is the page of the sorted copy, holds stored records only, and is ordered for related keys and for createdAt; the pagination numbers are as stated |
| Store.SubmissionStore.GetById | backend/src/store/submissionStore.js:50-52 | the first record with that id, or nothing |
| Store.SubmissionStore.DeleteById | backend/src/store/submissionStore.js:54-61 | true iff a record had the id; exactly that first record is removed and the others keep their order; the counter is unchanged |
| Controller.IntOr | backend/src/controllers/submissionController.js:26-27 | `parseInt(v) \|\| fallback`, specified by FalsyNumbersDefault, WrittenPageKept and CheckQueryOnRawParameters |
| Controller.StringOr | backend/src/controllers/submissionController.js:28-29 | a string or the fallback: a missing value or '' gives the fallback, any other string is kept |
| Controller.CheckQuery | backend/src/controllers/submissionController.js:26-44 | an accepted query has page ≥ 1, 1 ≤ limit ≤ 100 and sortOrder 'asc' or 'desc' |
| Controller.EmptyQueryDefaults | backend/src/controllers/submissionController.js:26-29 | a query with no parameters is page 1, limit 10, createdAt, desc |
| Controller.FalsyNumbersDefault | backend/src/controllers/submissionController.js:26-27 | a missing, unparsable or zero page becomes 1, and such a limit becomes 10 |
| Controller.WrittenPageKept | backend/src/controllers/submissionController.js:26 | a non-zero decimal page is taken as written |
| Controller.CheckQueryOnRawParameters | backend/src/controllers/submissionController.js:26-44 | on the raw parameters: pagination is refused iff page reads as a negative integer or limit as a negative one or one above 100; otherwise the sort order is refused iff it is present, non-empty and neither asc nor desc; every other query is accepted |
| Controller.SortByUnchecked | backend/src/controllers/submissionController.js:28 | any non-empty sortBy is accepted and used as given |
| Controller.GetSubmissions | backend/src/controllers/submissionController.js:24-53 | a rejected query answers 400 with its message; otherwise the store is asked only with a valid query and its page and pagination are returned |
| Controller.CreateSubmission | backend/src/controllers/submissionController.js:3-14 | the store gains exactly the new record, and the answer is 201 with its id and createdAt |
| SubmissionTable.DoubleQuotes | frontend/src/components/SubmissionTable.jsx:59 | doubling quotes only copies or adds characters from the input |
| SubmissionTable.QuoteCell | frontend/src/components/SubmissionTable.jsx:58-60 | the quoting of one string cell, specified by QuoteCellRoundTrip |
| SubmissionTable.CsvCell | frontend/src/components/SubmissionTable.jsx:50-60 | one CSV cell, specified by MissingKeyEmptyCell and CellOnOneLine |
| SubmissionTable.UndoubleDoubleQuotes | frontend/src/components/SubmissionTable.jsx:59 | replacing each '""' with '"' undoes the doubling |
| SubmissionTable.QuoteCellRoundTrip | frontend/src/components/SubmissionTable.jsx:58-60 | a string with ',' or '"' is wrapped in quotes and comes back after unwrapping and undoubling; any other string is unchanged |
| SubmissionTable.RowCells | frontend/src/components/SubmissionTable.jsx:49-62 | one cell per header key, in header order, each the CSV form of the record's value |
| SubmissionTable.MissingKeyEmptyCell | frontend/src/components/SubmissionTable.jsx:50 | a key the record lacks gives an empty cell |
| SubmissionTable.RowLines | frontend/src/components/SubmissionTable.jsx:48-64 | one line per record: its cells joined by ',' |
| SubmissionTable.CsvLines | frontend/src/components/SubmissionTable.jsx:42-67 | one line more than there are records: the first record's keys joined by ',', then one row per record |
| SubmissionTable.ExportCsv | frontend/src/components/SubmissionTable.jsx:38-67 | no CSV iff the data is empty |
| SubmissionTable.SplitJoin | frontend/src/components/SubmissionTable.jsx:67 | splitting a join at a separator that no part contains gives the parts back |
| SubmissionTable.CellOnOneLine | frontend/src/components/SubmissionTable.jsx:52-62 | a value without line breaks gives a cell without line breaks; arrays are joined by '; ' first |
| SubmissionTable.RowOnOneLine | frontend/src/components/SubmissionTable.jsx:63 | a row of such values is one line |
| SubmissionTable.ExportLines | frontend/src/components/SubmissionTable.jsx:42-67 | without line breaks in the data, the CSV splits at '\n' into exactly the header and the rows, and the header splits at ',' into the keys when no key holds ',' |
| SubmissionTable.ToggleSort | frontend/src/components/SubmissionTable.jsx:168 | the new order is 'asc' or 'desc' and differs from the current one |
| SubmissionTable.ToggleTwice | frontend/src/components/SubmissionTable.jsx:168 | toggling 'asc' or 'desc' twice gives it back |
| SubmissionTable.PageButtons | frontend/src/components/SubmissionTable.jsx:238-248 | on a non-empty page, Previous is disabled iff page = 1, and Next iff page = totalPages, which is iff page·limit ≥ N |
| SubmissionTable.PreviousDisabled | frontend/src/components/SubmissionTable.jsx:240 | Previous is off on page 1, specified by PageButtons |
| SubmissionTable.NextDisabled | frontend/src/components/SubmissionTable.jsx:248 | Next is off on the last page, specified by PageButtons |
| SubmissionTable.LastPageBound | frontend/src/components/SubmissionTable.jsx:248 | a page that starts inside the list is at most totalPages, and equal to it iff it reaches the end |
| SubmissionTable.EmptyPageHint | frontend/src/components/SubmissionTable.jsx:135-142 | a page the store answered is empty iff it lies past the last page; its hint asks for a submission iff the store holds none, and otherwise suggests other search terms |
| SubmissionsPage.PageState.constructor | frontend/src/pages/SubmissionsPage.jsx:9-14 | page 1, limit 10, createdAt, desc |
| SubmissionsPage.PageState.HandlePageChange | frontend/src/pages/SubmissionsPage.jsx:21-23 | only the page changes |
| SubmissionsPage.PageState.HandleLimitChange | frontend/src/pages/SubmissionsPage.jsx:25-27 | sets the limit and goes back to page 1, and the sort is unchanged |
| SubmissionsPage.PageState.HandleSortChange | frontend/src/pages/SubmissionsPage.jsx:29-31 | sets the order and goes back to page 1, and the limit is unchanged; sortBy stays createdAt |
| SubmissionsPage.PageState.ClickSort | frontend/src/pages/SubmissionsPage.jsx:61-64 | the sort button sends the toggled order, which is 'asc' or 'desc' and differs from the old one |
| SubmissionModal.FormatValue | frontend/src/components/SubmissionModal.jsx:5-16 | `formatValue`, specified by FormatValueIdempotent and ArrayBeforeKey |
| SubmissionModal.FormatLabel | frontend/src/components/SubmissionModal.jsx:18-23 | `formatLabel`, specified by LabelShape, LabelKeepsLetters and the two caption examples |
| SubmissionModal.FormatValueIdempotent | frontend/src/components/SubmissionModal.jsx:5-16 | outside createdAt, formatting twice is formatting once, and only arrays and booleans change |
| SubmissionModal.ArrayBeforeKey | frontend/src/components/SubmissionModal.jsx:6-14 | an array under createdAt is joined and not localised |
| SubmissionModal.UpperChar | frontend/src/components/SubmissionModal.jsx:21 | a lower-case ASCII letter becomes upper case, and any other character is unchanged |
| SubmissionModal.SpaceBeforeCapitals | frontend/src/components/SubmissionModal.jsx:20 | inserting spaces never shortens the key |
| SubmissionModal.SpacedConcat | frontend/src/components/SubmissionModal.jsx:20 | the global replace works character by character |
| SubmissionModal.UpperFirst | frontend/src/components/SubmissionModal.jsx:21 | only the first character is upper-cased |
| SubmissionModal.TrimLeadingSpace | frontend/src/components/SubmissionModal.jsx:22 | trim drops a single leading space in front of a letter |
| SubmissionModal.LabelEnd | frontend/src/components/SubmissionModal.jsx:20-21 | spacing and upper-casing keep a last character that is a letter or digit |
| SubmissionModal.LabelShape | frontend/src/components/SubmissionModal.jsx:18-23 | for a key whose first and last characters are letters or digits: a key that starts with a capital loses its inserted leading space; any other key is spaced and then has its first letter upper-cased |
| SubmissionModal.RemoveSpacesOfSpaced | frontend/src/components/SubmissionModal.jsx:20 | the inserted spaces are the only change |
| SubmissionModal.SpacesBeforeCapitals | frontend/src/components/SubmissionModal.jsx:20 | every space in the spaced key stands right before a capital |
| SubmissionModal.LabelKeepsLetters | frontend/src/components/SubmissionModal.jsx:18-23 | removing the spaces from a label gives the key with its first letter upper-cased, and every space precedes a capital |
| SubmissionModal.NoCapitalsUnspaced | frontend/src/components/SubmissionModal.jsx:20 | a key without capitals gets no spaces |
| SubmissionModal.LowercaseKey | frontend/src/components/SubmissionModal.jsx:19-22 | a key without capitals only has its first character upper-cased |
| SubmissionModal.FullNameCaption | frontend/src/components/SubmissionModal.jsx:18-23 | "fullName" becomes "Full Name" |
| SubmissionModal.AgreeToTermsCaption | frontend/src/components/SubmissionModal.jsx:18-23 | "agreeToTerms" becomes "Agree To Terms" |
| DynamicForm.DefaultFor | frontend/src/components/DynamicForm.jsx:11-12 | the default is blank iff the kind is neither multi-select nor switch, and falsy iff the kind is not multi-select ([] is truthy) |
| DynamicForm.FillValues | frontend/src/components/DynamicForm.jsx:10-14 | the `reduce` that writes one entry per field, specified by FillIsObject, FillKeys, FillLastWins and DistinctFill |
| DynamicForm.DefaultValues | frontend/src/components/DynamicForm.jsx:10-14 | `getDefaultValues`, specified by DefaultsInOrder and DefaultsIgnoreTheRest |
| DynamicForm.FillIsObject | frontend/src/components/DynamicForm.jsx:10-14 | the reduce builds an object with each key once |
| DynamicForm.FillKeys | frontend/src/components/DynamicForm.jsx:10-14 | the object has an entry for a name iff some field has that name |
| DynamicForm.FillLastWins | frontend/src/components/DynamicForm.jsx:10-14 | a name holds what was written for the last field with that name |
| DynamicForm.DistinctFill | frontend/src/components/DynamicForm.jsx:10-14 | with distinct names, each field's entry is what was written for it |
| DynamicForm.DefaultsInOrder | frontend/src/components/DynamicForm.jsx:10-14 | with distinct names, the keys are the field names in schema order, each holding its kind's default |
| DynamicForm.DefaultsIgnoreTheRest | frontend/src/components/DynamicForm.jsx:6-14 | the defaults depend only on names and kinds, whatever the captions, rules and defaultValues |
| DynamicForm.RequiredDefaultFails | frontend/src/components/DynamicForm.jsx:11-12 | a required field at its default fails with "<label> is required" |
| DynamicForm.StartingValueFails | frontend/src/components/DynamicForm.jsx:10-14 | in a schema with distinct names, each required field's starting entry fails with "<label> is required" |
| DynamicForm.GivenOrDefault | frontend/src/components/EditSubmissionModal.jsx:65-68 | a field's own defined defaultValue, else its kind's default (the corrected behaviour), specified by PrefilledWithoutGiven and EditSubmissionModal.EditFormPrefilled |
| DynamicForm.PrefilledWithoutGiven | frontend/src/components/DynamicForm.jsx:10-14 | for a schema without defaultValues, the corrected starting values equal the written ones |
| FormField.Without | frontend/src/components/FormField.jsx:109 | the option is gone, every other value stays, and each other value keeps its count |
| FormField.WithoutIsSubsequence | frontend/src/components/FormField.jsx:109 | unticking changes the list iff it contained the option, and never lengthens it |
| FormField.WithoutAppend | frontend/src/components/FormField.jsx:106-109 | removing an option that was just appended is the same as removing it from the old list |
| FormField.Toggle | frontend/src/components/FormField.jsx:105-110 | ticking appends the option to the current list (a missing list counts as []), unticking removes it; afterwards the box is checked iff it was ticked |
| FormField.Selected | frontend/src/components/FormField.jsx:105 | `fieldValue \|\| []` as a list of ticked values, specified by Toggle and TickThenUntick |
| FormField.Checked | frontend/src/components/FormField.jsx:105 | a box is ticked iff its value is among the selected ones, specified by Toggle |
| FormField.TickThenUntick | frontend/src/components/FormField.jsx:105-110 | ticking an unticked option and unticking it again restores the list |
| FormField.NumberInput | frontend/src/components/FormField.jsx:51 | empty text gives '', and any other text gives a number or NaN |
| FormField.NumberInputOfNumeral | frontend/src/components/FormField.jsx:51 | a typed integer arrives as that number |
| FormField.ClearedNumberRequired | frontend/src/components/FormField.jsx:51 | clearing a required number field reports it as required |
| FormField.LettersNotANumber | frontend/src/components/FormField.jsx:51 | non-numeric text reports "must be a valid number" |
| FormField.ErrorsFor | frontend/src/components/FormField.jsx:11-12 | at most one error, none iff the field is valid, and otherwise the validator's message |
| FormField.FieldState.constructor | frontend/src/components/FormField.jsx:23-25 | a fresh field has no errors, is untouched and shows no error |
| FormField.FieldState.HandleChange | frontend/src/components/FormField.jsx:8-13 | stores the value and its errors and leaves isTouched alone, so an error shows iff the field was touched and the value fails |
| FormField.FieldState.HandleBlur | frontend/src/components/FormField.jsx:15-21 | validates the stored value and marks the field touched, so an error shows iff that value fails |
| FormField.FieldState.ShowError | frontend/src/components/FormField.jsx:23-25 | an error shows iff the field is touched and has errors, specified by the constructor, HandleChange and HandleBlur |
| FormField.AsteriskIffRequired | frontend/src/components/FormField.jsx:151-158 | a non-switch field shows the asterisk iff it is required; a switch has no top caption and no asterisk |
| FormField.ShowsAsterisk | frontend/src/components/FormField.jsx:151-157 | the asterisk beside the caption, specified by AsteriskIffRequired |
| EditSubmissionModal.GetFormData | frontend/src/components/EditSubmissionModal.jsx:26-29 | only entries of the submission survive, and none with key id, createdAt or updatedAt |
| EditSubmissionModal.FormDataEntries | frontend/src/components/EditSubmissionModal.jsx:27-28 | id, createdAt and updatedAt are gone, and every other key keeps its value |
| EditSubmissionModal.EditFields | frontend/src/components/EditSubmissionModal.jsx:65-68 | each field, position by position, gains defaultValue = the form data under its name |
| EditSubmissionModal.EditSchemaShape | frontend/src/components/EditSubmissionModal.jsx:63-69 | same title, description and field names in order; each field differs only in defaultValue |
| EditSubmissionModal.EditFormStartsBlank | frontend/src/components/EditSubmissionModal.jsx:62-73 | as written, the edit form starts from exactly the defaults of a blank form |
| EditSubmissionModal.EditFormLosesName | frontend/src/components/EditSubmissionModal.jsx:62-73 | a submission with fullName "Ann" opens with fullName '' |
| EditSubmissionModal.EditFormPrefilled | frontend/src/components/EditSubmissionModal.jsx:63-73 | corrected: each field starts from the submission's value when it has one that is not a metadata key, else from its kind's default |

## Left out

- HTTP plumbing is not modelled: Express routing, request and response objects, JSON, and the 500 branches of the controller. The schema endpoint, the network client and the missing update and delete endpoints are also out.
- Rendering is not modelled: JSX, styling, react-query caching, react-table, the submit flow, `form.reset` and the timers.
- The download is not modelled: `Blob`, the object URL and the DOM link of the CSV export. Only the CSV text is.
- The clock is a parameter: `new Date().toISOString()` is the `now` argument of `Create` and `CreateSubmission`.
- `toLocaleString` is a parameter, the uninterpreted function `LocaleFormat`.
- The regular-expression engine is a parameter (`Matcher`) and is not modelled. The email pattern is kept only as its source text.
- Numbers are integers. `Number(...)` accepts trimmed, optionally signed decimal integers, with blank text read as 0.
  - Fractions, exponents, hexadecimal and `Infinity` are read as NaN.
  - A 64-bit float's rounding is not modelled.
- `parseInt` ignores fractional input after the digits, as JavaScript does. It is not bounded to any integer width.
- Dates are parsed only in the date-only "YYYY-MM-DD" form, as UTC midnight, with V8's rule that a day from 01 to 31 past the month's end runs on into the next month. Every other string is an Invalid Date. The browser is taken to parse dates as V8 does; engines that refuse "2023-02-30" are not modelled. A number is taken as a time value.
- Strings are sequences of Unicode scalar values. A lone surrogate, which a JavaScript string may hold, cannot be written. Lengths and `<` count and compare UTF-16 code units.
- JsValues.Keys: keys are listed in insertion order. JavaScript lists integer-like keys such as "7" first, in numeric order; that ordering is not modelled, so this contract and the next three hold only for objects without integer-like keys.
- JsValues.Set: a new key goes last, even an integer-like one.
- JsValues.AssignKeysPrefix: the target's keys stay first, even when the source brings integer-like keys.
- Store.NewSubmissionShape: `id` is the first key, although `create({"7": "x"})` lists "7" before `id` in JavaScript.
- `>` and `<` on mixed or array values are taken as false. The store's sort is modelled by an insertion sort that drives the same comparator. The order among equal keys depends on the engine, so only a permutation that is ordered when all keys are related is claimed.
- Listing values are limited: array values hold strings only, and objects are flat.
- Store.SubmissionStore.GetAll: requires limit ≥ 1. A limit of 0 would give `Infinity` pages and is never passed, because the controller rejects it.
- SubmissionModal.UpperChar: ASCII only. `toUpperCase` on other letters and the regular expression `[A-Z]` are not modelled beyond ASCII.
- SubmissionTable.CsvCell: line breaks inside a value are not quoted, as in the source, unlike rule 6 of section 2 of RFC 4180. So ExportLines assumes values without line breaks.
- FormField.Selected: a truthy value that is not an array is read as no selection. The source would call `includes` on it.
- FormField.FieldState.HandleChange: keeps `isTouched`. This assumes the form library merges the meta passed to `setFieldMeta`, which is library behaviour.
- SubmissionsPage.PageState: `sortBy` is never written, so the page always asks for `createdAt`. The query cache is not modelled.

## Findings

| source | as written | input that shows it | evidently intended | confidence | as-written member | corrected member |
|---|---|---|---|---|---|---|
| frontend/src/components/EditSubmissionModal.jsx:62-73 | The edit dialog passes each field's value as `defaultValue`, and also passes `initialValues`. The form component takes neither (frontend/src/components/DynamicForm.jsx:6) and builds its starting values from the field kinds alone (frontend/src/components/DynamicForm.jsx:10-14). | A submission `{id: "SUB-000001", fullName: "Ann"}` with a text field fullName: the dialog opens with fullName '' | The edit form opens on the submission's own values | not executed | EditSubmissionModal.EditFormLosesName | EditSubmissionModal.EditFormPrefilled |
