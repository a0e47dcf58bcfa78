/**
 * The JavaScript string operations the form engine relies on: whitespace and
 * `trim`, `Array.prototype.join`, `String(n)` for integers, `padStart`, the
 * string-to-number conversions `Number(s)` and `parseInt(s)`, and the
 * relational comparison of two strings.
 *
 * Numbers are modelled as integers, so the numeral grammars below are the
 * integer parts of ECMAScript's: no fractions, exponents or `Infinity`.
 */
module JsText {
  import opened Wrappers

  /** ECMAScript WhiteSpace and LineTerminator code points: what `trim()`,
      `Number()` and `parseInt()` skip. */
  predicate IsWhitespace(c: char) {
    c == ' ' || c == '\t' || c == '\n' || c == '\U{000B}' || c == '\U{000C}' || c == '\r'
    || c == '\U{00A0}' || c == '\U{1680}' || ('\U{2000}' <= c <= '\U{200A}')
    || c == '\U{2028}' || c == '\U{2029}' || c == '\U{202F}' || c == '\U{205F}'
    || c == '\U{3000}' || c == '\U{FEFF}'
  }

  /** `s.trimStart()`: drop leading whitespace. */
  function TrimStart(s: string): string {
    if s != [] && IsWhitespace(s[0]) then TrimStart(s[1..]) else s
  }

  /** `s.trimEnd()`: drop trailing whitespace. */
  function TrimEnd(s: string): string {
    if s != [] && IsWhitespace(s[|s| - 1]) then TrimEnd(s[..|s| - 1]) else s
  }

  /** `trimStart` leaves a suffix that starts with no whitespace, and all it
      dropped is whitespace. */
  lemma {:induction false} TrimStartShape(s: string)
    ensures var r := TrimStart(s);
            |r| <= |s| && r == s[|s| - |r|..]
            && (r == [] || !IsWhitespace(r[0]))
            && forall i :: 0 <= i < |s| - |r| ==> IsWhitespace(s[i])
  {
    if s != [] && IsWhitespace(s[0]) {
      TrimStartShape(s[1..]);
      var r := TrimStart(s[1..]);
      forall i | 0 <= i < |s| - |r| ensures IsWhitespace(s[i]) {
        if i > 0 { assert s[i] == s[1..][i - 1]; }
      }
    }
  }

  /** `trimEnd` leaves a prefix that ends with no whitespace, and all it
      dropped is whitespace. */
  lemma {:induction false} TrimEndShape(s: string)
    ensures var r := TrimEnd(s);
            |r| <= |s| && r == s[..|r|]
            && (r == [] || !IsWhitespace(r[|r| - 1]))
            && forall i :: |r| <= i < |s| ==> IsWhitespace(s[i])
  {
    if s != [] && IsWhitespace(s[|s| - 1]) {
      var init := s[..|s| - 1];
      TrimEndShape(init);
      var r := TrimEnd(init);
      assert r == s[..|r|];
      forall i | |r| <= i < |s| ensures IsWhitespace(s[i]) {
        if i < |s| - 1 { assert s[i] == init[i]; }
      }
    }
  }

  /** `s.trim()`. */
  function Trim(s: string): string {
    TrimEnd(TrimStart(s))
  }

  /** A string with neither leading nor trailing whitespace is its own trim. */
  lemma TrimOfTrimmed(s: string)
    requires s == [] || (!IsWhitespace(s[0]) && !IsWhitespace(s[|s| - 1]))
    ensures Trim(s) == s
  {
  }

  /** `parts.join(sep)`. */
  function Join(parts: seq<string>, sep: string): string {
    if |parts| == 0 then ""
    else if |parts| == 1 then parts[0]
    else parts[0] + sep + Join(parts[1..], sep)
  }

  /** `n` copies of `c`. */
  function Repeat(c: char, n: nat): (r: string)
    ensures |r| == n && forall i :: 0 <= i < n ==> r[i] == c
  {
    if n == 0 then "" else [c] + Repeat(c, n - 1)
  }

  /** `s.padStart(width, [c])`: left-pad with `c` up to `width` characters;
      a string already that long is returned unchanged. */
  function PadStart(s: string, width: nat, c: char): (r: string)
    ensures |r| == if |s| >= width then |s| else width
    ensures r == Repeat(c, |r| - |s|) + s
  {
    if |s| >= width then (assert Repeat(c, 0) + s == s; s) else Repeat(c, width - |s|) + s
  }

  // ---------------------------------------------------------------------------
  // Numerals

  /** The value of `c` as a digit in base 10 or 16, or -1 if it is not one. */
  function DigitValue(c: char, radix: nat): int {
    if '0' <= c <= '9' then c as int - '0' as int
    else if radix == 16 && 'a' <= c <= 'f' then c as int - 'a' as int + 10
    else if radix == 16 && 'A' <= c <= 'F' then c as int - 'A' as int + 10
    else -1
  }

  predicate IsNumeral(s: string, radix: nat) {
    forall i :: 0 <= i < |s| ==> 0 <= DigitValue(s[i], radix)
  }

  /** The value of a string of digits, most significant first. */
  function NumeralValue(s: string, radix: nat): nat
    requires IsNumeral(s, radix)
  {
    if s == [] then 0
    else radix * NumeralValue(s[..|s| - 1], radix) + DigitValue(s[|s| - 1], radix)
  }

  function DigitChar(d: nat): (c: char)
    requires d < 10
    ensures DigitValue(c, 10) == d
  {
    ('0' as int + d) as char
  }

  /** `String(n)` for a non-negative integer: its shortest decimal numeral. */
  function DecimalDigits(n: nat): (s: string)
    ensures |s| >= 1 && IsNumeral(s, 10)
    ensures n > 0 ==> s[0] != '0'
    ensures '0' <= s[0] <= '9' && '0' <= s[|s| - 1] <= '9'
    decreases n
  {
    if n < 10 then [DigitChar(n)] else DecimalDigits(n / 10) + [DigitChar(n % 10)]
  }

  /** `String(i)` for any integer. */
  function IntToString(i: int): (s: string)
    ensures |s| >= 1 && s[|s| - 1] != '-'
  {
    if i < 0 then "-" + DecimalDigits(-i) else DecimalDigits(i)
  }

  /** Reading back the numeral `String(n)` gives `n`. */
  lemma {:induction false} DecimalDigitsValue(n: nat)
    ensures NumeralValue(DecimalDigits(n), 10) == n
    decreases n
  {
    if n >= 10 {
      var s := DecimalDigits(n / 10) + [DigitChar(n % 10)];
      assert s[..|s| - 1] == DecimalDigits(n / 10);
      DecimalDigitsValue(n / 10);
    }
  }

  /** Leading zeros do not change the value of a numeral. */
  lemma {:induction false} LeadingZerosValue(k: nat, s: string)
    requires IsNumeral(s, 10)
    ensures IsNumeral(Repeat('0', k) + s, 10)
    ensures NumeralValue(Repeat('0', k) + s, 10) == NumeralValue(s, 10)
    decreases |s|, k
  {
    var z := Repeat('0', k);
    if s == [] {
      assert z + s == z;
      if k > 0 {
        assert z[..k - 1] == Repeat('0', k - 1);
        LeadingZerosValue(k - 1, []);
        assert Repeat('0', k - 1) + [] == Repeat('0', k - 1);
      }
    } else {
      var t := s[..|s| - 1];
      assert (z + s)[..|z + s| - 1] == z + t;
      LeadingZerosValue(k, t);
    }
  }

  // ---------------------------------------------------------------------------
  // String to number

  /** A StrDecimalLiteral restricted to integers: an optional sign and digits. */
  function ParseSignedDecimal(s: string): Option<int> {
    if |s| >= 2 && (s[0] == '-' || s[0] == '+') && IsNumeral(s[1..], 10) then
      var v: int := NumeralValue(s[1..], 10);
      Some(if s[0] == '-' then -v else v)
    else if |s| >= 1 && IsNumeral(s, 10) then
      Some(NumeralValue(s, 10))
    else
      None
  }

  /** `Number(s)` for a string: surrounding whitespace is ignored, an empty or
      all-blank string is 0, anything else that is not an integer numeral is
      NaN (`None`). */
  function StringToNumber(s: string): Option<int> {
    var t := Trim(s);
    if t == "" then Some(0) else ParseSignedDecimal(t)
  }

  /** `Number(String(i)) == i`. */
  lemma StringToNumberOfIntToString(i: int)
    ensures StringToNumber(IntToString(i)) == Some(i)
  {
    IntToStringIsTrimmed(i);
    ParseSignedDecimalOfIntToString(i);
  }

  lemma IntToStringIsTrimmed(i: int)
    ensures Trim(IntToString(i)) == IntToString(i)
  {
    var s := IntToString(i);
    assert !IsWhitespace(s[0]) && !IsWhitespace(s[|s| - 1]);
    TrimOfTrimmed(s);
  }

  lemma ParseSignedDecimalOfIntToString(i: int)
    ensures ParseSignedDecimal(IntToString(i)) == Some(i)
  {
    var s := IntToString(i);
    if i < 0 {
      var d := DecimalDigits(-i);
      assert s == "-" + d && s[1..] == d;
      DecimalDigitsValue(-i);
      assert |s| >= 2 && s[0] == '-' && IsNumeral(s[1..], 10);
      assert NumeralValue(s[1..], 10) == -i;
    } else {
      DecimalDigitsValue(i);
    }
  }

  /** The length of the longest prefix of `s` made of digits of `radix`. */
  function LeadingDigitCount(s: string, radix: nat): (k: nat)
    ensures k <= |s| && IsNumeral(s[..k], radix)
    ensures k < |s| ==> DigitValue(s[k], radix) < 0
  {
    if s != [] && 0 <= DigitValue(s[0], radix) then
      var k := 1 + LeadingDigitCount(s[1..], radix);
      assert s[..k] == [s[0]] + s[1..][..k - 1];
      k
    else 0
  }

  /** The longest run of `radix` digits at the start of `body`, read as a number. */
  function DigitPrefixValue(body: string, radix: nat): Option<nat> {
    var k := LeadingDigitCount(body, radix);
    if k == 0 then None else Some(NumeralValue(body[..k], radix))
  }

  /** The unsigned part of `parseInt`: a `0x`/`0X` prefix selects base 16. */
  function UnsignedPrefixValue(u: string): Option<nat> {
    if |u| >= 2 && u[0] == '0' && (u[1] == 'x' || u[1] == 'X') then DigitPrefixValue(u[2..], 16)
    else DigitPrefixValue(u, 10)
  }

  /** `parseInt(s)` with no radix: leading whitespace is skipped, then an
      optional sign, then a `0x`/`0X` prefix selects base 16; the longest run
      of digits that follows is read and the rest ignored. No digits is NaN. */
  function ParseInt(s: string): Option<int> {
    var t := TrimStart(s);
    if t != [] && t[0] == '-' then
      match UnsignedPrefixValue(t[1..])
      case None => None
      case Some(v) => Some(-(v as int))
    else if t != [] && t[0] == '+' then
      match UnsignedPrefixValue(t[1..])
      case None => None
      case Some(v) => Some(v)
    else
      match UnsignedPrefixValue(t)
      case None => None
      case Some(v) => Some(v)
  }

  /** A run of digits followed by anything that does not start with a digit is
      read as its leading digits, e.g. "12abc" and "12.5" both give 12. */
  lemma ParseIntDigitPrefix(digits: string, rest: string)
    requires |digits| >= 1 && IsNumeral(digits, 10)
    requires rest == [] || DigitValue(rest[0], 10) < 0
    requires |digits| >= 2 ==> digits[1] != 'x' && digits[1] != 'X'
    requires |digits| == 1 ==> rest == [] || (rest[0] != 'x' && rest[0] != 'X')
    ensures ParseInt(digits + rest) == Some(NumeralValue(digits, 10))
  {
    var s := digits + rest;
    assert s[..|digits|] == digits;
    NoLeadingSpace(s);
    DigitRunValue(s, digits);
    assert !(|s| >= 2 && s[0] == '0' && (s[1] == 'x' || s[1] == 'X')) by {
      if |s| >= 2 {
        assert s[1] == if |digits| >= 2 then digits[1] else rest[0];
      }
    }
  }

  lemma NoLeadingSpace(s: string)
    requires s != [] && '0' <= s[0] <= '9'
    ensures TrimStart(s) == s && s[0] != '-' && s[0] != '+'
  {
  }

  /** A string that starts with the digit run `digits` has that run's value
      as its digit prefix. */
  lemma DigitRunValue(s: string, digits: string)
    requires |digits| <= |s| && s[..|digits|] == digits && IsNumeral(digits, 10)
    requires |digits| < |s| ==> DigitValue(s[|digits|], 10) < 0
    requires |digits| >= 1
    ensures DigitPrefixValue(s, 10) == Some(NumeralValue(digits, 10))
  {
    AllDigitsPrefix(s, |digits|);
  }

  lemma {:induction false} AllDigitsPrefix(s: string, n: nat)
    requires n <= |s| && IsNumeral(s[..n], 10)
    requires n < |s| ==> DigitValue(s[n], 10) < 0
    ensures LeadingDigitCount(s, 10) == n
  {
    if n > 0 {
      assert s[1..][..n - 1] == s[..n][1..];
      assert s[0] == s[..n][0];
      AllDigitsPrefix(s[1..], n - 1);
    }
  }

  /** `parseInt(String(i)) == i`. */
  lemma ParseIntOfIntToString(i: int)
    ensures ParseInt(IntToString(i)) == Some(i)
  {
    var n: nat := if i < 0 then -i else i;
    DecimalDigitsUnsigned(n);
    ParseIntSigned(DecimalDigits(n), n);
  }

  /** A string of digits that starts with a digit and reads as `n` is
      parsed as `n`, and with a minus sign in front as `-n`. */
  lemma ParseIntSigned(d: string, n: nat)
    requires d != [] && '0' <= d[0] <= '9' && UnsignedPrefixValue(d) == Some(n)
    ensures ParseInt(d) == Some(n)
    ensures ParseInt("-" + d) == Some(-(n as int))
  {
    NoLeadingSpace(d);
    ParseIntNegated(d, n);
  }

  lemma ParseIntNegated(d: string, n: nat)
    requires UnsignedPrefixValue(d) == Some(n)
    ensures ParseInt("-" + d) == Some(-(n as int))
  {
    var s := "-" + d;
    assert s[1..] == d;
    MinusNoLeadingSpace(s);
  }

  lemma MinusNoLeadingSpace(s: string)
    requires s != [] && s[0] == '-'
    ensures TrimStart(s) == s
  {
  }

  /** The digits of `String(n)` are read back as `n`: no `0x` prefix, and
      the run of digits is the whole string. */
  lemma DecimalDigitsUnsigned(n: nat)
    ensures UnsignedPrefixValue(DecimalDigits(n)) == Some(n)
  {
    var d := DecimalDigits(n);
    assert d[..|d|] == d;
    DigitRunValue(d, d);
    DecimalDigitsValue(n);
  }

  // ---------------------------------------------------------------------------
  // Comparison

  // ---------------------------------------------------------------------------
  // UTF-16: a JavaScript string is a sequence of 16-bit code units; a
  // character above U+FFFF takes two of them (a surrogate pair).

  /** The code units that encode one character. */
  function CodeUnits(c: char): (u: seq<int>)
    ensures 1 <= |u| <= 2 && (|u| == 1 <==> c as int < 0x1_0000)
    ensures forall k :: 0 <= k < |u| ==> 0 <= u[k] < 0x1_0000
  {
    if c as int < 0x1_0000 then [c as int]
    else
      var v := c as int - 0x1_0000;
      [0xD800 + v / 0x400, 0xDC00 + v % 0x400]
  }

  /** A string's code units, character by character. */
  function Utf16(s: string): seq<int> {
    if s == [] then [] else CodeUnits(s[0]) + Utf16(s[1..])
  }

  /** `s.length`: the number of code units, two for a character above U+FFFF. */
  function Utf16Length(s: string): nat {
    if s == [] then 0
    else (if s[0] as int < 0x1_0000 then 1 else 2) + Utf16Length(s[1..])
  }

  /** The count is the length of the encoding; it is never below the number
      of characters and equals it exactly when every character is in the
      Basic Multilingual Plane. */
  lemma {:induction false} Utf16LengthIsUnits(s: string)
    ensures Utf16Length(s) == |Utf16(s)|
    ensures Utf16Length(s) >= |s|
    ensures Utf16Length(s) == |s| <==> forall k :: 0 <= k < |s| ==> (s[k] as int) < 0x1_0000
  {
    if s != [] {
      Utf16LengthIsUnits(s[1..]);
      assert forall k :: 1 <= k < |s| ==> s[k] == s[1..][k - 1];
    }
  }

  /** A key that orders characters as their first code units do, and
      characters with the same first code unit as their second ones: the
      characters from U+E000 to U+FFFF sort above every surrogate pair. */
  function UnitKey(c: char): int {
    if c as int < 0xD800 then c as int
    else if c as int < 0x1_0000 then c as int + 0x11_0000
    else c as int
  }

  /** `a < b` on two strings: lexicographic, code unit by code unit. */
  predicate StrLess(a: string, b: string) {
    if a == [] then b != []
    else if b == [] then false
    else if a[0] != b[0] then UnitKey(a[0]) < UnitKey(b[0])
    else StrLess(a[1..], b[1..])
  }

  /** The lexicographic order of two code-unit sequences. */
  predicate UnitsLess(x: seq<int>, y: seq<int>) {
    if x == [] then y != []
    else if y == [] then false
    else if x[0] != y[0] then x[0] < y[0]
    else UnitsLess(x[1..], y[1..])
  }

  lemma UnitsLessCommonPrefix(p: seq<int>, x: seq<int>, y: seq<int>)
    requires |p| <= 2
    ensures UnitsLess(p + x, p + y) == UnitsLess(x, y)
  {
    if p != [] {
      assert (p + x)[0] == (p + y)[0] == p[0];
      assert (p + x)[1..] == p[1..] + x && (p + y)[1..] == p[1..] + y;
      UnitsLessCommonPrefix(p[1..], x, y);
    } else {
      assert p + x == x && p + y == y;
    }
  }

  /** The high and low halves of a surrogate pair order the characters. */
  lemma PairOrder(v: int, w: int)
    requires 0 <= v < w
    ensures v / 0x400 < w / 0x400 || (v / 0x400 == w / 0x400 && v % 0x400 < w % 0x400)
  {
  }

  /** Two different characters: the key order is the order of their
      encodings, whatever follows them. */
  lemma UnitKeyOrder(c: char, d: char, x: seq<int>, y: seq<int>)
    requires c != d
    ensures UnitsLess(CodeUnits(c) + x, CodeUnits(d) + y) == (UnitKey(c) < UnitKey(d))
  {
    var u, w := CodeUnits(c) + x, CodeUnits(d) + y;
    assert u[0] == CodeUnits(c)[0] && w[0] == CodeUnits(d)[0];
    if c as int >= 0x1_0000 && d as int >= 0x1_0000 {
      var v, z := c as int - 0x1_0000, d as int - 0x1_0000;
      if v < z { PairOrder(v, z); } else { PairOrder(z, v); }
      if u[0] == w[0] {
        assert u[1..][0] == CodeUnits(c)[1] && w[1..][0] == CodeUnits(d)[1];
      }
    }
  }

  /** `StrLess` is the order JavaScript uses: the lexicographic order of the
      two strings' UTF-16 code units. */
  lemma {:induction false} StrLessIsUtf16Order(a: string, b: string)
    ensures StrLess(a, b) == UnitsLess(Utf16(a), Utf16(b))
  {
    if a != [] && b != [] {
      if a[0] == b[0] {
        UnitsLessCommonPrefix(CodeUnits(a[0]), Utf16(a[1..]), Utf16(b[1..]));
        StrLessIsUtf16Order(a[1..], b[1..]);
      } else {
        UnitKeyOrder(a[0], b[0], Utf16(a[1..]), Utf16(b[1..]));
      }
    }
  }

  lemma {:induction false} StrLessIrreflexive(a: string)
    ensures !StrLess(a, a)
  {
    if a != [] { StrLessIrreflexive(a[1..]); }
  }

  lemma {:induction false} StrLessAsymmetric(a: string, b: string)
    ensures StrLess(a, b) ==> !StrLess(b, a)
  {
    if a != [] && b != [] && a[0] == b[0] { StrLessAsymmetric(a[1..], b[1..]); }
  }

  lemma {:induction false} StrLessTransitive(a: string, b: string, c: string)
    requires StrLess(a, b) && StrLess(b, c)
    ensures StrLess(a, c)
  {
    if a != [] && b != [] && c != [] && a[0] == b[0] && b[0] == c[0] {
      StrLessTransitive(a[1..], b[1..], c[1..]);
    }
  }

  /** Two different strings are ordered one way or the other. */
  lemma {:induction false} StrLessTotal(a: string, b: string)
    requires a != b
    ensures StrLess(a, b) || StrLess(b, a)
  {
    if a != [] && b != [] && a[0] == b[0] {
      assert a == [a[0]] + a[1..] && b == [b[0]] + b[1..];
      StrLessTotal(a[1..], b[1..]);
    }
  }
}
