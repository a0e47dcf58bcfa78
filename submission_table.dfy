/**
 * The pure parts of the submissions table: the CSV text of `exportToCSV`,
 * the sort-order toggle, the disabling of the page buttons and the hint shown
 * when there are no rows.
 *
 * CSV cells follow section 2 rule 7 of RFC 4180 (a field holding a comma or a
 * double quote is enclosed in double quotes, and each inner double quote is
 * doubled), but not rule 6: a line break inside a value is not quoted.
 */
module SubmissionTable {
  import opened Wrappers
  import opened JsText
  import opened JsValues
  import opened Store

  // ---------------------------------------------------------------------------
  // Cells

  /** `value.replace(/"/g, '""')`. */
  function DoubleQuotes(s: string): (r: string)
    ensures |r| >= |s|
    ensures forall c :: c in r ==> c in s
  {
    if s == [] then ""
    else if s[0] == '"' then "\"\"" + DoubleQuotes(s[1..])
    else [s[0]] + DoubleQuotes(s[1..])
  }

  predicate NeedsQuotes(s: string) {
    ',' in s || '"' in s
  }

  /** A string cell: quoted, with inner quotes doubled, when it holds a comma
      or a double quote; unchanged otherwise. */
  function QuoteCell(s: string): string {
    if NeedsQuotes(s) then "\"" + DoubleQuotes(s) + "\"" else s
  }

  /** What `[...].join(',')` writes for one value: an array is first joined
      with "; ", `undefined` and `null` write nothing. */
  function CsvCell(v: Value): string {
    match v
    case Missing => ""
    case Null => ""
    case Str(s) => QuoteCell(s)
    case List(items) => QuoteCell(Join(items, "; "))
    case _ => ToJsString(v)
  }

  /** Reading a quoted cell's body back: every `""` becomes `"`. */
  function UndoubleQuotes(s: string): string {
    if |s| >= 2 && s[0] == '"' && s[1] == '"' then "\"" + UndoubleQuotes(s[2..])
    else if s == [] then ""
    else [s[0]] + UndoubleQuotes(s[1..])
  }

  lemma {:induction false} UndoubleDoubleQuotes(s: string)
    ensures UndoubleQuotes(DoubleQuotes(s)) == s
  {
    if s != [] {
      UndoubleDoubleQuotes(s[1..]);
      if s[0] == '"' {
        assert DoubleQuotes(s) == "\"\"" + DoubleQuotes(s[1..]);
        assert (DoubleQuotes(s))[2..] == DoubleQuotes(s[1..]);
      } else {
        var d := DoubleQuotes(s);
        assert d == [s[0]] + DoubleQuotes(s[1..]);
        assert d[1..] == DoubleQuotes(s[1..]);
      }
    }
  }

  /** Stripping the outer quotes of a quoted cell and undoubling its quotes
      gives back the original string; a string that needs no quotes is
      written as it is. */
  lemma QuoteCellRoundTrip(s: string)
    ensures NeedsQuotes(s) ==>
              var q := QuoteCell(s);
              |q| >= 2 && q[0] == '"' && q[|q| - 1] == '"' && UndoubleQuotes(q[1..|q| - 1]) == s
    ensures !NeedsQuotes(s) ==> QuoteCell(s) == s
  {
    if NeedsQuotes(s) {
      var q := QuoteCell(s);
      assert q[1..|q| - 1] == DoubleQuotes(s);
      UndoubleDoubleQuotes(s);
    }
  }

  // ---------------------------------------------------------------------------
  // The exported text

  /** One cell per header key, in header order. */
  function RowCells(record: Obj, keys: seq<string>): (cells: seq<string>)
    ensures |cells| == |keys|
    ensures forall i :: 0 <= i < |keys| ==> cells[i] == CsvCell(Get(record, keys[i]))
  {
    if keys == [] then [] else [CsvCell(Get(record, keys[0]))] + RowCells(record, keys[1..])
  }

  /** The header line, then one line per record. */
  function CsvLines(data: seq<Obj>): (lines: seq<string>)
    requires data != []
    ensures |lines| == 1 + |data|
    ensures lines[0] == Join(Keys(data[0]), ",")
    ensures forall i :: 0 <= i < |data| ==> lines[i + 1] == Join(RowCells(data[i], Keys(data[0])), ",")
  {
    var keys := Keys(data[0]);
    [Join(keys, ",")] + RowLines(data, keys)
  }

  function RowLines(data: seq<Obj>, keys: seq<string>): (rows: seq<string>)
    ensures |rows| == |data|
    ensures forall i :: 0 <= i < |data| ==> rows[i] == Join(RowCells(data[i], keys), ",")
  {
    if data == [] then [] else [Join(RowCells(data[0], keys), ",")] + RowLines(data[1..], keys)
  }

  /** `exportToCSV`'s text; no text at all for an empty table. */
  function ExportCsv(data: seq<Obj>): (csv: Option<string>)
    ensures csv.None? <==> data == []
  {
    if data == [] then None else Some(Join(CsvLines(data), "\n"))
  }

  /** A key missing from a record gives an empty cell. */
  lemma MissingKeyEmptyCell(record: Obj, keys: seq<string>, i: nat)
    requires i < |keys| && keys[i] !in Keys(record)
    ensures RowCells(record, keys)[i] == ""
  {
  }

  // ---------------------------------------------------------------------------
  // Reading the text back

  /** `s.split(c)` for a one-character separator. */
  function Split(s: string, c: char): (parts: seq<string>)
    ensures |parts| >= 1
  {
    if s == [] then [""]
    else
      var rest := Split(s[1..], c);
      if s[0] == c then [""] + rest else [[s[0]] + rest[0]] + rest[1..]
  }

  lemma {:induction false} SplitNoSeparator(s: string, c: char)
    requires c !in s
    ensures Split(s, c) == [s]
  {
    if s != [] {
      SplitNoSeparator(s[1..], c);
      assert [s[0]] + s[1..] == s;
    }
  }

  lemma {:induction false} SplitAfterPart(p: string, c: char, t: string)
    requires c !in p
    ensures Split(p + [c] + t, c) == [p] + Split(t, c)
  {
    if p == [] {
      assert [] + [c] + t == [c] + t;
      assert ([c] + t)[1..] == t;
    } else {
      var s := p + [c] + t;
      assert s[1..] == p[1..] + [c] + t;
      SplitAfterPart(p[1..], c, t);
      assert [p[0]] + p[1..] == p;
    }
  }

  /** Splitting parts joined by a character they do not contain gives the
      parts back. */
  lemma {:induction false} SplitJoin(parts: seq<string>, c: char)
    requires |parts| >= 1
    requires forall i :: 0 <= i < |parts| ==> c !in parts[i]
    ensures Split(Join(parts, [c]), c) == parts
  {
    if |parts| == 1 {
      SplitNoSeparator(parts[0], c);
    } else {
      SplitJoin(parts[1..], c);
      SplitAfterPart(parts[0], c, Join(parts[1..], [c]));
      assert parts == [parts[0]] + parts[1..];
    }
  }

  lemma {:induction false} JoinAvoids(parts: seq<string>, sep: string, c: char)
    requires c !in sep && forall i :: 0 <= i < |parts| ==> c !in parts[i]
    ensures c !in Join(parts, sep)
  {
    if |parts| > 1 {
      JoinAvoids(parts[1..], sep, c);
    }
  }

  /** No line break anywhere in a value. */
  predicate ValueOnOneLine(v: Value) {
    match v
    case Str(s) => '\n' !in s
    case List(items) => forall i :: 0 <= i < |items| ==> '\n' !in items[i]
    case _ => true
  }

  lemma CellOnOneLine(v: Value)
    requires ValueOnOneLine(v)
    ensures '\n' !in CsvCell(v)
  {
    match v
    case Str(s) =>
    case List(items) => JoinAvoids(items, "; ", '\n');
    case Num(n) =>
      var m: nat := if n < 0 then -n else n;
      DigitsOnly(m);
      assert '\n' !in DecimalDigits(m);
    case _ =>
  }

  lemma {:induction false} DigitsOnly(n: nat)
    ensures forall c :: c in DecimalDigits(n) ==> '0' <= c <= '9'
    decreases n
  {
    if n >= 10 { DigitsOnly(n / 10); }
  }

  lemma RowOnOneLine(record: Obj, keys: seq<string>)
    requires forall k :: k in keys ==> ValueOnOneLine(Get(record, k))
    ensures '\n' !in Join(RowCells(record, keys), ",")
  {
    var cells := RowCells(record, keys);
    forall i | 0 <= i < |cells| ensures '\n' !in cells[i] {
      CellOnOneLine(Get(record, keys[i]));
    }
    JoinAvoids(cells, ",", '\n');
  }

  /** When no key and no value holds a line break, the text splits at "\n"
      into exactly the header and one line per record, and the header splits
      at "," into the first record's keys when no key holds a comma. */
  lemma ExportLines(data: seq<Obj>)
    requires data != []
    requires forall k :: k in Keys(data[0]) ==> '\n' !in k
    requires forall r, k :: r in data && k in Keys(data[0]) ==> ValueOnOneLine(Get(r, k))
    ensures var lines := Split(ExportCsv(data).value, '\n');
            |lines| == 1 + |data| && lines == CsvLines(data)
    ensures (forall k :: k in Keys(data[0]) ==> ',' !in k) && |data[0]| > 0
            ==> Split(Split(ExportCsv(data).value, '\n')[0], ',') == Keys(data[0])
  {
    var keys := Keys(data[0]);
    var lines := CsvLines(data);
    forall i | 0 <= i < |keys| ensures '\n' !in keys[i] {
      assert keys[i] in keys;
    }
    JoinAvoids(keys, ",", '\n');
    forall i | 0 <= i < |lines| ensures '\n' !in lines[i] {
      if i > 0 {
        assert data[i - 1] in data;
        RowOnOneLine(data[i - 1], keys);
      }
    }
    SplitJoin(lines, '\n');
    if (forall k :: k in keys ==> ',' !in k) && |data[0]| > 0 {
      forall i | 0 <= i < |keys| ensures ',' !in keys[i] {
        assert keys[i] in keys;
      }
      SplitJoin(keys, ',');
    }
  }

  // ---------------------------------------------------------------------------
  // Controls

  /** The sort button: 'asc' becomes 'desc', anything else 'asc'. */
  function ToggleSort(current: string): (next: string)
    ensures next == "asc" || next == "desc"
    ensures next != current
  {
    if current == "asc" then "desc" else "asc"
  }

  lemma ToggleTwice(order: string)
    requires order == "asc" || order == "desc"
    ensures ToggleSort(ToggleSort(order)) == order
  {
  }

  predicate PreviousDisabled(p: Pagination) {
    p.currentPage == 1
  }

  predicate NextDisabled(p: Pagination) {
    p.currentPage == p.totalPages
  }

  /** On a non-empty page the store answered, Previous is off only on page 1
      and Next is off exactly when no later page holds records. */
  lemma PageButtons(records: seq<Obj>, query: Query)
    requires query.page >= 1 && query.limit >= 1 && PageOf(records, query) != []
    ensures var p := Pagination(query.page, CeilDiv(|records|, query.limit), |records|, query.limit);
            (PreviousDisabled(p) <==> query.page == 1)
            && (NextDisabled(p) <==> query.page * query.limit >= |records|)
  {
    PageOfSize(records, query);
    LastPageBound(|records|, query.page, query.limit);
  }

  /** Page `p` of `l` starts before item `n` iff `p` is at most the page
      count, and it is the last page iff it reaches item `n`. */
  lemma LastPageBound(n: nat, p: int, l: int)
    requires p >= 1 && l >= 1 && (p - 1) * l < n
    ensures p <= CeilDiv(n, l)
    ensures p == CeilDiv(n, l) <==> p * l >= n
  {
    var t := CeilDiv(n, l);
    assert n > 0 by { MulLe(0, p - 1, l); }
    if p > t {
      MulLe(t, p - 1, l);
    }
    if p * l >= n && t > p {
      MulLe(p, t - 1, l);
    }
  }

  lemma MulLe(a: int, b: int, l: int)
    requires a <= b && l >= 0
    ensures a * l <= b * l
  {
    assert (b - a) * l >= 0;
  }

  /** The hint under "No submissions found". */
  function EmptyHint(totalItems: nat): string {
    if totalItems == 0 then "Submit the form to see submissions here" else "Try adjusting your search terms"
  }

  /** A page the store answered is empty exactly when it lies past the last
      page; the table then asks for a submission only when the store holds
      none, and otherwise suggests other search terms although the listing
      has no search. */
  lemma EmptyPageHint(records: seq<Obj>, query: Query)
    requires query.page >= 1 && query.limit >= 1
    ensures PageOf(records, query) == [] <==> query.page > CeilDiv(|records|, query.limit)
    ensures PageOf(records, query) == [] ==>
              (EmptyHint(|records|) == "Submit the form to see submissions here" <==> records == [])
    ensures PageOf(records, query) == [] && records != [] ==>
              EmptyHint(|records|) == "Try adjusting your search terms"
  {
    PageOfSize(records, query);
    var n, p, l, q := |records|, query.page, query.limit, CeilDiv(|records|, query.limit);
    if p > q {
      MulLe(q, p - 1, l);
    } else if n > 0 {
      MulLe(p - 1, q - 1, l);
    }
  }
}
