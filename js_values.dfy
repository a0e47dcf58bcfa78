/**
 * JavaScript values as they reach the form engine (request bodies, form
 * state, stored records), the coercions the source applies to them, and
 * plain objects as ordered lists of key/value entries.
 */
module JsValues {
  import opened Wrappers
  import opened JsText

  /** A field value: what JSON can carry for a form field, plus `undefined`
      (`Missing`) and the `NaN` that `Number(...)` can produce in the browser.
      Numbers are integers; a multi-select value is an array of strings. */
  datatype Value =
    | Missing
    | Null
    | Str(s: string)
    | Num(n: int)
    | Bool(b: bool)
    | List(items: seq<string>)
    | NaN

  /** `v === undefined || v === null || v === ''`: the source's "empty" test. */
  predicate IsBlank(v: Value) {
    v.Missing? || v.Null? || v == Str("")
  }

  /** JavaScript truthiness. Every array, even `[]`, is truthy. */
  predicate Truthy(v: Value) {
    match v
    case Missing => false
    case Null => false
    case Str(s) => s != ""
    case Num(n) => n != 0
    case Bool(b) => b
    case List(_) => true
    case NaN => false
  }

  /** `String(v)`: an array is its elements joined by ",". */
  function ToJsString(v: Value): string {
    match v
    case Missing => "undefined"
    case Null => "null"
    case Str(s) => s
    case Num(n) => IntToString(n)
    case Bool(b) => if b then "true" else "false"
    case List(items) => Join(items, ",")
    case NaN => "NaN"
  }

  /** `Number(v)`, `None` standing for NaN. An array converts through its
      string form, so `[]` is 0, `["7"]` is 7 and `["1","2"]` is NaN; the
      array case is written by length, and ListToNumberIsJoin shows it is
      `Number(items.join(","))`. */
  function ToNumber(v: Value): (r: Option<int>)
    ensures v.Num? ==> r == Some(v.n)
    ensures v.NaN? || v.Missing? ==> r.None?
  {
    match v
    case Missing => None
    case Null => Some(0)
    case Str(s) => StringToNumber(s)
    case Num(n) => Some(n)
    case Bool(b) => Some(if b then 1 else 0)
    case List(items) => ListToNumber(items)
    case NaN => None
  }

  /** `Number(array)`: the empty array is 0, a single element converts as
      itself, and two or more elements always contain a "," and are NaN. */
  function ListToNumber(items: seq<string>): Option<int> {
    if |items| == 0 then Some(0)
    else if |items| == 1 then StringToNumber(items[0])
    else None
  }

  /** The array case is the conversion of the array's string form. */
  lemma ListToNumberIsJoin(items: seq<string>)
    ensures ListToNumber(items) == StringToNumber(Join(items, ","))
  {
    if |items| >= 2 {
      var s := Join(items, ",");
      assert s == items[0] + "," + Join(items[1..], ",");
      assert s[|items[0]|] == ',';
      CommaSurvivesTrim(s, |items[0]|);
      CommaNotNumber(Trim(s));
    }
  }

  /** A comma is not whitespace, so `trim` keeps it. */
  lemma CommaSurvivesTrim(s: string, p: nat)
    requires p < |s| && s[p] == ','
    ensures ',' in Trim(s)
  {
    var r := TrimStart(s);
    TrimStartShape(s);
    assert !IsWhitespace(s[p]);
    var q := p - (|s| - |r|);
    assert r[q] == s[p];
    var t := TrimEnd(r);
    TrimEndShape(r);
    assert q < |t|;
    assert t[q] == ',';
  }

  /** A string holding a comma is no integer numeral. */
  lemma CommaNotNumber(t: string)
    requires ',' in t
    ensures t != "" && ParseSignedDecimal(t) == None
  {
    var k :| 0 <= k < |t| && t[k] == ',';
    assert DigitValue(t[k], 10) < 0;
    if k >= 1 {
      assert t[1..][k - 1] == ',';
    }
  }

  /** `v.length`: defined for strings and arrays, `undefined` (`None`)
      otherwise; a string counts its UTF-16 code units. */
  function JsLength(v: Value): (r: Option<nat>)
    ensures r.Some? <==> v.Str? || v.List?
    ensures v.Str? ==> r.value >= |v.s|
    ensures v.List? ==> r.value == |v.items|
  {
    match v
    case Str(s) => Utf16LengthIsUnits(s); Some(Utf16Length(s))
    case List(items) => Some(|items|)
    case _ => None
  }

  /** One emoji is two code units long, as many as two letters. */
  lemma EmojiLength()
    ensures JsLength(Str("\U{1F600}")) == Some(2) == JsLength(Str("ab"))
  {
  }

  /** A character above U+FFFF sorts by its high surrogate (U+D83D here), so
      it comes before U+FF01 although its number is larger. */
  lemma EmojiBeforeFullwidth()
    ensures StrLess("\U{1F600}", "\U{FF01}") && !StrLess("\U{FF01}", "\U{1F600}")
  {
  }

  /** `a > b` for two field values: strings compare lexicographically, numbers
      and booleans numerically. Comparisons with `undefined`, `null`, `NaN` or
      an array, and comparisons across types, are taken as false. */
  predicate Greater(a: Value, b: Value) {
    match (a, b)
    case (Str(x), Str(y)) => StrLess(y, x)
    case (Num(x), Num(y)) => x > y
    case (Bool(x), Bool(y)) => x && !y
    case _ => false
  }

  lemma GreaterAsymmetric(a: Value, b: Value)
    ensures Greater(a, b) ==> !Greater(b, a)
  {
    if a.Str? && b.Str? { StrLessAsymmetric(b.s, a.s); }
  }

  lemma GreaterTransitive(a: Value, b: Value, c: Value)
    requires Greater(a, b) && Greater(b, c)
    ensures Greater(a, c)
  {
    if a.Str? { StrLessTransitive(c.s, b.s, a.s); }
  }

  /** Two different strings, or two different numbers, are always ordered. */
  lemma GreaterTotalOnSameType(a: Value, b: Value)
    requires (a.Str? && b.Str?) || (a.Num? && b.Num?) || (a.Bool? && b.Bool?)
    requires a != b
    ensures Greater(a, b) || Greater(b, a)
  {
    if a.Str? { StrLessTotal(a.s, b.s); }
  }

  // ---------------------------------------------------------------------------
  // Plain objects

  /** A plain object: its own enumerable properties in insertion order. */
  type Obj = seq<(string, Value)>

  /** A well-formed object has each key once. */
  predicate IsObject(o: Obj) {
    forall i, j :: 0 <= i < j < |o| ==> o[i].0 != o[j].0
  }

  /** `Object.keys(o)`. */
  function Keys(o: Obj): (ks: seq<string>)
    ensures |ks| == |o| && forall i :: 0 <= i < |o| ==> ks[i] == o[i].0
  {
    if o == [] then [] else [o[0].0] + Keys(o[1..])
  }

  /** `o[k]`: the entry's value, or `undefined` when `k` is not a key. */
  function Get(o: Obj, k: string): (v: Value)
    ensures k !in Keys(o) ==> v == Missing
  {
    if o == [] then Missing else if o[0].0 == k then o[0].1 else Get(o[1..], k)
  }

  /** `o[k] = v`: an existing key keeps its position, a new key goes last. */
  function Set(o: Obj, k: string, v: Value): (r: Obj)
    ensures Keys(r) == if k in Keys(o) then Keys(o) else Keys(o) + [k]
  {
    if o == [] then [(k, v)]
    else if o[0].0 == k then [(k, v)] + o[1..]
    else
      assert Keys(o) == [o[0].0] + Keys(o[1..]);
      [o[0]] + Set(o[1..], k, v)
  }

  lemma {:induction false} GetSet(o: Obj, k: string, v: Value, k': string)
    ensures Get(Set(o, k, v), k') == if k' == k then v else Get(o, k')
  {
    if o != [] && o[0].0 != k {
      GetSet(o[1..], k, v, k');
    }
  }

  lemma {:induction false} SetKeepsObject(o: Obj, k: string, v: Value)
    requires IsObject(o)
    ensures IsObject(Set(o, k, v))
  {
    var r := Set(o, k, v);
    assert Keys(r) == if k in Keys(o) then Keys(o) else Keys(o) + [k];
    forall i, j | 0 <= i < j < |r| ensures r[i].0 != r[j].0 {
      assert Keys(r)[i] == r[i].0 && Keys(r)[j] == r[j].0;
      if j < |o| {
        assert Keys(o)[i] == o[i].0 && Keys(o)[j] == o[j].0;
      } else {
        assert k !in Keys(o);
        assert Keys(o)[i] == o[i].0;
      }
    }
  }

  /** `{...o, ...src}`: every entry of `src`, in order, assigned onto `o`. */
  function Assign(o: Obj, src: Obj): Obj
    decreases |src|
  {
    if src == [] then o else Assign(Set(o, src[0].0, src[0].1), src[1..])
  }

  lemma {:induction false} GetAssign(o: Obj, src: Obj, k: string)
    requires IsObject(src)
    ensures Get(Assign(o, src), k) == if k in Keys(src) then Get(src, k) else Get(o, k)
    decreases |src|
  {
    if src != [] {
      var o' := Set(o, src[0].0, src[0].1);
      GetAssign(o', src[1..], k);
      GetSet(o, src[0].0, src[0].1, k);
      assert Keys(src) == [src[0].0] + Keys(src[1..]);
      if k == src[0].0 {
        assert k !in Keys(src[1..]) by {
          forall i | 0 <= i < |src[1..]| ensures Keys(src[1..])[i] != k {
            assert src[1..][i] == src[i + 1];
          }
        }
      }
    }
  }

  lemma {:induction false} AssignKeepsObject(o: Obj, src: Obj)
    requires IsObject(o)
    ensures IsObject(Assign(o, src))
    decreases |src|
  {
    if src != [] {
      SetKeepsObject(o, src[0].0, src[0].1);
      AssignKeepsObject(Set(o, src[0].0, src[0].1), src[1..]);
    }
  }

  /** Assignment never loses a key: the keys of `o` come first, in order. */
  lemma {:induction false} AssignKeysPrefix(o: Obj, src: Obj)
    ensures |Keys(o)| <= |Keys(Assign(o, src))|
    ensures Keys(Assign(o, src))[..|Keys(o)|] == Keys(o)
    decreases |src|
  {
    if src != [] {
      var o' := Set(o, src[0].0, src[0].1);
      AssignKeysPrefix(o', src[1..]);
      assert Keys(o')[..|Keys(o)|] == Keys(o);
    }
  }

  /** `const {k1, k2, ...rest} = o`: `rest` is `o` without the keys `ks`,
      in the original order. */
  function Omit(o: Obj, ks: set<string>): (r: Obj)
    ensures forall e :: e in r ==> e in o && e.0 !in ks
  {
    if o == [] then []
    else if o[0].0 in ks then Omit(o[1..], ks)
    else [o[0]] + Omit(o[1..], ks)
  }

  lemma {:induction false} GetOmit(o: Obj, ks: set<string>, k: string)
    ensures Get(Omit(o, ks), k) == if k in ks then Missing else Get(o, k)
  {
    if o != [] {
      GetOmit(o[1..], ks, k);
    }
    if k in ks {
      assert k !in Keys(Omit(o, ks));
    }
  }
}
