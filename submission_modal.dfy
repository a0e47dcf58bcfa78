/**
 * The details modal's two formatters: how a stored value is shown and how a
 * camelCase key becomes a caption. `toLocaleString` depends on the browser's
 * locale and is a parameter.
 */
module SubmissionModal {
  import opened JsText
  import opened JsValues

  /** `new Date(value).toLocaleString()`, whatever the locale makes of it. */
  type LocaleFormat = Value -> string

  /** `formatValue`: arrays and booleans first, then the `createdAt` key;
      anything else is shown as it is. */
  function FormatValue(key: string, v: Value, toLocale: LocaleFormat): Value {
    match v
    case List(items) => Str(Join(items, ", "))
    case Bool(b) => Str(if b then "Yes" else "No")
    case _ => if key == "createdAt" then Str(toLocale(v)) else v
  }

  /** Only arrays, booleans and `createdAt` are changed, and what they become
      is a string; formatting twice changes nothing more, except that a
      `createdAt` string goes through the locale formatter again. */
  lemma FormatValueIdempotent(key: string, v: Value, toLocale: LocaleFormat)
    requires key != "createdAt"
    ensures FormatValue(key, FormatValue(key, v, toLocale), toLocale) == FormatValue(key, v, toLocale)
    ensures FormatValue(key, v, toLocale) != v ==> v.List? || v.Bool?
    ensures v.List? || v.Bool? ==> FormatValue(key, v, toLocale).Str?
  {
  }

  /** The array check wins over the key: a `createdAt` that is an array is
      joined, not dated. */
  lemma ArrayBeforeKey(items: seq<string>, toLocale: LocaleFormat)
    ensures FormatValue("createdAt", List(items), toLocale) == Str(Join(items, ", "))
  {
  }

  // ---------------------------------------------------------------------------
  // Captions

  predicate IsUpper(c: char) {
    'A' <= c <= 'Z'
  }

  /** `String.prototype.toUpperCase` on one character, ASCII letters only. */
  function UpperChar(c: char): (u: char)
    ensures 'a' <= c <= 'z' ==> IsUpper(u)
    ensures !('a' <= c <= 'z') ==> u == c
  {
    if 'a' <= c <= 'z' then (c as int - 32) as char else c
  }

  /** `key.replace(/([A-Z])/g, ' $1')`. */
  function SpaceBeforeCapitals(s: string): (r: string)
    ensures |r| >= |s|
  {
    if s == [] then ""
    else if IsUpper(s[0]) then [' ', s[0]] + SpaceBeforeCapitals(s[1..])
    else [s[0]] + SpaceBeforeCapitals(s[1..])
  }

  /** `.replace(/^./, str => str.toUpperCase())`. The line terminators that
      `.` does not match are left alone by the uppercasing anyway. */
  function UpperFirst(s: string): (r: string)
    ensures |r| == |s|
    ensures s != [] ==> r[0] == UpperChar(s[0])
    ensures forall i :: 1 <= i < |s| ==> r[i] == s[i]
  {
    if s == [] then "" else [UpperChar(s[0])] + s[1..]
  }

  /** `formatLabel`. */
  function FormatLabel(key: string): string {
    Trim(UpperFirst(SpaceBeforeCapitals(key)))
  }

  /** The characters of a camelCase key such as the schema's field names. */
  predicate IsKeyChar(c: char) {
    'a' <= c <= 'z' || 'A' <= c <= 'Z' || '0' <= c <= '9'
  }

  predicate IsIdentifier(key: string) {
    forall i :: 0 <= i < |key| ==> IsKeyChar(key[i])
  }

  lemma {:induction false} SpacedConcat(a: string, b: string)
    ensures SpaceBeforeCapitals(a + b) == SpaceBeforeCapitals(a) + SpaceBeforeCapitals(b)
  {
    if a == [] {
      assert a + b == b;
    } else {
      assert (a + b)[0] == a[0] && (a + b)[1..] == a[1..] + b;
      SpacedConcat(a[1..], b);
    }
  }

  /** The spaced key ends in the key's last character, and starts with a
      space exactly when the key starts with a capital. */
  lemma SpacedEnds(key: string)
    requires key != []
    ensures var r := SpaceBeforeCapitals(key);
            r[|r| - 1] == key[|key| - 1]
            && (IsUpper(key[0]) ==> |r| >= 2 && r[0] == ' ' && r[1] == key[0])
            && (!IsUpper(key[0]) ==> r[0] == key[0])
  {
    var init := key[..|key| - 1];
    var last := key[|key| - 1];
    assert key == init + [last];
    SpacedConcat(init, [last]);
  }

  lemma KeyCharNotWhitespace(c: char)
    requires IsKeyChar(c)
    ensures !IsWhitespace(c) && c != ' '
  {
  }

  /** Trimming a string whose one leading space is followed by a
      non-whitespace character and which ends in one. */
  lemma TrimLeadingSpace(u: string)
    requires |u| >= 2 && u[0] == ' ' && !IsWhitespace(u[1]) && !IsWhitespace(u[|u| - 1])
    ensures Trim(u) == u[1..]
  {
    assert TrimStart(u) == TrimStart(u[1..]);
    TrimOfTrimmed(u[1..]);
  }

  /** A key that starts and ends with a letter or digit starts either with
      a capital, whose inserted space the trim removes, or with another
      character, which is uppercased. */
  lemma LabelShape(key: string)
    requires key != [] && IsKeyChar(key[0]) && IsKeyChar(key[|key| - 1])
    ensures IsUpper(key[0]) ==> FormatLabel(key) == SpaceBeforeCapitals(key)[1..]
    ensures !IsUpper(key[0]) ==> FormatLabel(key) == UpperFirst(SpaceBeforeCapitals(key))
  {
    if IsUpper(key[0]) {
      CapitalStartLabel(key);
    } else {
      OtherStartLabel(key);
    }
  }

  /** The spaced and uppercased key ends in the key's last character, or
      is the key's one character uppercased: a letter or digit either way. */
  lemma LabelEnd(key: string)
    requires key != [] && IsKeyChar(key[0]) && IsKeyChar(key[|key| - 1])
    ensures var u := UpperFirst(SpaceBeforeCapitals(key));
            u != [] && IsKeyChar(u[|u| - 1])
  {
    SpacedEnds(key);
    UpperFirstLast(SpaceBeforeCapitals(key));
  }

  /** Uppercasing the first character keeps a last letter or digit one. */
  lemma UpperFirstLast(s: string)
    requires s != [] && IsKeyChar(s[|s| - 1])
    ensures IsKeyChar(UpperFirst(s)[|s| - 1])
  {
    UpperFirstEnd(s);
    if |s| == 1 {
      UpperKeyChar(s[0]);
    }
  }

  lemma CapitalStartLabel(key: string)
    requires key != [] && IsKeyChar(key[|key| - 1]) && IsUpper(key[0])
    ensures FormatLabel(key) == SpaceBeforeCapitals(key)[1..]
  {
    var spaced := SpaceBeforeCapitals(key);
    LabelEnd(key);
    SpacedEnds(key);
    UpperFirstOfSpace(spaced);
    KeyCharNotWhitespace(spaced[|spaced| - 1]);
    KeyCharNotWhitespace(key[0]);
    TrimLeadingSpace(spaced);
  }

  lemma UpperFirstOfSpace(s: string)
    requires s != [] && s[0] == ' '
    ensures UpperFirst(s) == s
  {
    assert UpperFirst(s) == [' '] + s[1..];
  }

  lemma OtherStartLabel(key: string)
    requires key != [] && IsKeyChar(key[0]) && IsKeyChar(key[|key| - 1]) && !IsUpper(key[0])
    ensures FormatLabel(key) == UpperFirst(SpaceBeforeCapitals(key))
  {
    var u := UpperFirst(SpaceBeforeCapitals(key));
    LabelEnd(key);
    OtherStartFirst(key);
    KeyCharNotWhitespace(u[0]);
    KeyCharNotWhitespace(u[|u| - 1]);
    TrimOfTrimmed(u);
  }

  /** A key not starting with a capital keeps its first character in front,
      uppercased: still a letter or digit. */
  lemma OtherStartFirst(key: string)
    requires key != [] && IsKeyChar(key[0]) && !IsUpper(key[0])
    ensures var u := UpperFirst(SpaceBeforeCapitals(key));
            u != [] && IsKeyChar(u[0])
  {
    var u := UpperFirst(SpaceBeforeCapitals(key));
    SpacedEnds(key);
    assert u[0] == UpperChar(key[0]);
    UpperKeyChar(key[0]);
  }

  lemma UpperKeyChar(c: char)
    requires IsKeyChar(c)
    ensures IsKeyChar(UpperChar(c))
  {
  }

  /** Uppercasing the first character leaves a longer string's last one,
      and a one-character string becomes that character uppercased. */
  lemma UpperFirstEnd(s: string)
    requires s != []
    ensures |s| >= 2 ==> UpperFirst(s)[|s| - 1] == s[|s| - 1]
    ensures |s| == 1 ==> UpperFirst(s)[0] == UpperChar(s[0])
  {
    var u := UpperFirst(s);
    if |s| >= 2 {
      assert u[|s| - 1] == u[1..][|s| - 2];
    }
  }

  function RemoveSpaces(s: string): (r: string)
    ensures ' ' !in r
  {
    if s == [] then "" else if s[0] == ' ' then RemoveSpaces(s[1..]) else [s[0]] + RemoveSpaces(s[1..])
  }

  lemma {:induction false} RemoveSpacesConcat(a: string, b: string)
    ensures RemoveSpaces(a + b) == RemoveSpaces(a) + RemoveSpaces(b)
  {
    if a != [] {
      assert (a + b)[0] == a[0] && (a + b)[1..] == a[1..] + b;
      RemoveSpacesConcat(a[1..], b);
    } else {
      assert a + b == b;
    }
  }

  lemma {:induction false} RemoveSpacesNoSpace(s: string)
    requires ' ' !in s
    ensures RemoveSpaces(s) == s
  {
    if s != [] {
      assert forall c :: c in s[1..] ==> c in s;
      RemoveSpacesNoSpace(s[1..]);
      assert [s[0]] + s[1..] == s;
    }
  }

  lemma {:induction false} RemoveSpacesOfSpaced(s: string)
    ensures RemoveSpaces(SpaceBeforeCapitals(s)) == RemoveSpaces(s)
  {
    if s != [] {
      RemoveSpacesOfSpaced(s[1..]);
      var head := if IsUpper(s[0]) then [' ', s[0]] else [s[0]];
      assert SpaceBeforeCapitals(s) == head + SpaceBeforeCapitals(s[1..]);
      RemoveSpacesConcat(head, SpaceBeforeCapitals(s[1..]));
      assert s == [s[0]] + s[1..];
      RemoveSpacesConcat([s[0]], s[1..]);
    }
  }

  /** In the spaced form of a key without spaces, every space comes just
      before a capital. */
  predicate SpacesPrecedeCapitals(r: string) {
    forall i :: 0 <= i < |r| && r[i] == ' ' ==> i + 1 < |r| && IsUpper(r[i + 1])
  }

  lemma {:induction false} SpacesBeforeCapitals(s: string)
    requires ' ' !in s
    ensures SpacesPrecedeCapitals(SpaceBeforeCapitals(s))
  {
    if s != [] {
      assert ' ' !in s[1..] by {
        forall i | 0 <= i < |s[1..]| ensures s[1..][i] != ' ' { assert s[1..][i] == s[i + 1]; }
      }
      SpacesBeforeCapitals(s[1..]);
      var rest := SpaceBeforeCapitals(s[1..]);
      var r := SpaceBeforeCapitals(s);
      var k := if IsUpper(s[0]) then 2 else 1;
      assert r == (if IsUpper(s[0]) then [' ', s[0]] else [s[0]]) + rest;
      assert s[0] != ' ';
      forall i | 0 <= i < |r| && r[i] == ' ' ensures i + 1 < |r| && IsUpper(r[i + 1]) {
        if i >= k {
          assert r[i] == rest[i - k];
          assert r[i + 1] == rest[i - k + 1];
        }
      }
    }
  }

  lemma NoSpaceInIdentifier(key: string)
    requires IsIdentifier(key)
    ensures ' ' !in key
  {
    forall i | 0 <= i < |key| ensures key[i] != ' ' {
      KeyCharNotWhitespace(key[i]);
    }
  }

  /** The spaced key of a key starting with a capital, less its leading
      space. */
  lemma CapitalStartLetters(key: string)
    requires key != [] && IsIdentifier(key) && IsUpper(key[0])
    ensures var r := SpaceBeforeCapitals(key)[1..];
            RemoveSpaces(r) == UpperFirst(key) && SpacesPrecedeCapitals(r)
  {
    var spaced := SpaceBeforeCapitals(key);
    SpacedEnds(key);
    RemoveSpacesOfSpaced(key);
    NoSpaceInIdentifier(key);
    SpacesBeforeCapitals(key);
    assert spaced == [' '] + spaced[1..];
    RemoveSpacesConcat([' '], spaced[1..]);
    assert RemoveSpaces([' ']) == "";
    RemoveSpacesNoSpace(key);
    assert UpperFirst(key) == key;
    var r := spaced[1..];
    forall i | 0 <= i < |r| && r[i] == ' ' ensures i + 1 < |r| && IsUpper(r[i + 1]) {
      assert r[i] == spaced[i + 1];
    }
  }

  /** The spaced key of a key starting with anything else, with its first
      character uppercased. */
  lemma OtherStartLetters(key: string)
    requires key != [] && IsIdentifier(key) && !IsUpper(key[0])
    ensures var u := UpperFirst(SpaceBeforeCapitals(key));
            RemoveSpaces(u) == UpperFirst(key) && SpacesPrecedeCapitals(u)
  {
    var spaced := SpaceBeforeCapitals(key);
    SpacedEnds(key);
    RemoveSpacesOfSpaced(key);
    NoSpaceInIdentifier(key);
    SpacesBeforeCapitals(key);
    KeyCharNotWhitespace(key[0]);
    var u := UpperFirst(spaced);
    RemoveSpacesNoSpace(key[1..]);
    assert RemoveSpaces([key[0]]) == [key[0]];
    assert RemoveSpaces([UpperChar(key[0])]) == [UpperChar(key[0])];
    assert key == [key[0]] + key[1..];
    RemoveSpacesConcat([key[0]], key[1..]);
    assert spaced == [key[0]] + spaced[1..];
    assert u == [UpperChar(key[0])] + spaced[1..];
    RemoveSpacesConcat([key[0]], spaced[1..]);
    RemoveSpacesConcat([UpperChar(key[0])], spaced[1..]);
    RemoveSpacesConcat([UpperChar(key[0])], key[1..]);
    assert UpperFirst(key) == [UpperChar(key[0])] + key[1..];
    forall i | 0 <= i < |u| && u[i] == ' ' ensures i + 1 < |u| && IsUpper(u[i + 1]) {
      assert i >= 1 && u[i] == spaced[i] && u[i + 1] == spaced[i + 1];
    }
  }

  /** Taking the spaces out of a caption gives the key with its first letter
      uppercased, and every space in it comes just before a capital. */
  lemma LabelKeepsLetters(key: string)
    requires key != [] && IsIdentifier(key)
    ensures RemoveSpaces(FormatLabel(key)) == UpperFirst(key)
    ensures SpacesPrecedeCapitals(FormatLabel(key))
  {
    LabelShape(key);
    if IsUpper(key[0]) {
      CapitalStartLetters(key);
    } else {
      OtherStartLetters(key);
    }
  }

  lemma {:induction false} NoCapitalsUnspaced(s: string)
    requires forall i :: 0 <= i < |s| ==> !IsUpper(s[i])
    ensures SpaceBeforeCapitals(s) == s
  {
    if s != [] {
      assert forall i :: 0 <= i < |s[1..]| ==> s[1..][i] == s[i + 1];
      NoCapitalsUnspaced(s[1..]);
      assert [s[0]] + s[1..] == s;
    }
  }

  /** A key with no capitals only has its first character uppercased. */
  lemma LowercaseKey(key: string)
    requires key != [] && IsIdentifier(key) && forall i :: 0 <= i < |key| ==> !IsUpper(key[i])
    ensures FormatLabel(key) == UpperFirst(key)
  {
    NoCapitalsUnspaced(key);
    LabelShape(key);
  }

  /** A capital followed by lower-case characters gets one space in front. */
  lemma CapitalisedWord(c: char, rest: string)
    requires IsUpper(c) && forall i :: 0 <= i < |rest| ==> !IsUpper(rest[i])
    ensures SpaceBeforeCapitals([c] + rest) == [' ', c] + rest
  {
    assert ([c] + rest)[1..] == rest;
    NoCapitalsUnspaced(rest);
  }

  /** The caption of a key starting with a lower-case letter, from its
      spaced form. */
  lemma LowerStartCaption(key: string, spaced: string, caption: string)
    requires key != [] && IsKeyChar(key[0]) && IsKeyChar(key[|key| - 1]) && !IsUpper(key[0])
    requires SpaceBeforeCapitals(key) == spaced && UpperFirst(spaced) == caption
    ensures FormatLabel(key) == caption
  {
    LabelShape(key);
  }

  lemma FullNameSpaced()
    ensures SpaceBeforeCapitals("fullName") == "full Name"
  {
    SpacedConcat("full", "Name");
    FullUnspaced();
    NameSpaced();
    FullNameParts();
  }

  lemma FullNameParts()
    ensures "fullName" == "full" + "Name" && "full" + " Name" == "full Name"
  {
  }

  lemma FullUnspaced()
    ensures SpaceBeforeCapitals("full") == "full"
  {
    NoCapitalsUnspaced("full");
  }

  lemma NameSpaced()
    ensures SpaceBeforeCapitals("Name") == " Name"
  {
    assert "Name" == ['N'] + "ame";
    CapitalisedWord('N', "ame");
  }

  lemma FullNameCaption()
    ensures FormatLabel("fullName") == "Full Name"
  {
    FullNameSpaced();
    FullNameUpper();
    LowerStartCaption("fullName", "full Name", "Full Name");
  }

  lemma FullNameUpper()
    ensures UpperFirst("full Name") == "Full Name"
  {
    assert UpperFirst("full Name") == ['F'] + "ull Name";
  }

  lemma ToTermsSpaced()
    ensures SpaceBeforeCapitals("ToTerms") == " To Terms"
  {
    SpacedConcat("To", "Terms");
    ToSpaced();
    TermsSpaced();
    ToTermsParts();
  }

  lemma ToTermsParts()
    ensures "ToTerms" == "To" + "Terms" && " To" + " Terms" == " To Terms"
  {
  }

  lemma ToSpaced()
    ensures SpaceBeforeCapitals("To") == " To"
  {
    assert "To" == ['T'] + "o";
    CapitalisedWord('T', "o");
  }

  lemma TermsSpaced()
    ensures SpaceBeforeCapitals("Terms") == " Terms"
  {
    assert "Terms" == ['T'] + "erms";
    CapitalisedWord('T', "erms");
  }

  lemma AgreeToTermsSpaced()
    ensures SpaceBeforeCapitals("agreeToTerms") == "agree To Terms"
  {
    SpacedConcat("agree", "ToTerms");
    AgreeUnspaced();
    ToTermsSpaced();
    AgreeToTermsParts();
  }

  lemma AgreeToTermsParts()
    ensures "agreeToTerms" == "agree" + "ToTerms" && "agree" + " To Terms" == "agree To Terms"
  {
  }

  lemma AgreeUnspaced()
    ensures SpaceBeforeCapitals("agree") == "agree"
  {
    NoCapitalsUnspaced("agree");
  }

  lemma AgreeToTermsCaption()
    ensures FormatLabel("agreeToTerms") == "Agree To Terms"
  {
    AgreeToTermsSpaced();
    AgreeToTermsUpper();
    LowerStartCaption("agreeToTerms", "agree To Terms", "Agree To Terms");
  }

  lemma AgreeToTermsUpper()
    ensures UpperFirst("agree To Terms") == "Agree To Terms"
  {
    assert UpperFirst("agree To Terms") == ['A'] + "gree To Terms";
  }
}
