/**
 * The in-memory submission store: an ordered list of records and a counter
 * for the next id. Records are created with a generated id and the store's
 * timestamp, listed sorted and paginated, looked up by id and deleted by id.
 * The clock is a parameter of `Create`.
 */
module Store {
  import opened Wrappers
  import opened JsText
  import opened JsValues
  import opened RecordSort

  // ---------------------------------------------------------------------------
  // Ids and new records

  /** `SUB-${String(n).padStart(6, '0')}`. */
  function FormatId(n: nat): (id: string)
    ensures |id| >= 10 && id[..4] == "SUB-"
  {
    "SUB-" + PadStart(IntToString(n), 6, '0')
  }

  /** The digits after "SUB-" read back as the counter. */
  lemma IdDigitsValue(n: nat)
    ensures IsNumeral(FormatId(n)[4..], 10) && NumeralValue(FormatId(n)[4..], 10) == n
  {
    var d := DecimalDigits(n);
    var p := PadStart(d, 6, '0');
    assert IntToString(n) == d;
    assert FormatId(n)[4..] == p;
    LeadingZerosValue(|p| - |d|, d);
    DecimalDigitsValue(n);
  }

  /** Different counters give different ids, so an id is never issued twice. */
  lemma FormatIdInjective(a: nat, b: nat)
    ensures FormatId(a) == FormatId(b) <==> a == b
  {
    if FormatId(a) == FormatId(b) {
      IdDigitsValue(a);
      IdDigitsValue(b);
    }
  }

  lemma FirstId()
    ensures FormatId(1) == "SUB-000001"
  {
    assert IntToString(1) == "1";
    assert Repeat('0', 5) == "00000";
  }

  /** `{ id: FormatId(counter), ...data, createdAt: now }`. */
  function NewSubmission(counter: nat, data: Obj, now: string): Obj {
    Set(Assign([("id", Str(FormatId(counter)))], data), "createdAt", Str(now))
  }

  /** The new record has the store's timestamp, whatever `data` held; its id
      is `data`'s own `id` if it has one (the spread comes after the id) and
      the generated id otherwise; every other key has `data`'s value. */
  lemma NewSubmissionFields(counter: nat, data: Obj, now: string, k: string)
    requires IsObject(data)
    ensures Get(NewSubmission(counter, data, now), "createdAt") == Str(now)
    ensures Get(NewSubmission(counter, data, now), "id")
            == if "id" in Keys(data) then Get(data, "id") else Str(FormatId(counter))
    ensures k != "id" && k != "createdAt" ==> Get(NewSubmission(counter, data, now), k) == Get(data, k)
  {
    var base := [("id", Str(FormatId(counter)))];
    var spread := Assign(base, data);
    GetSet(spread, "createdAt", Str(now), "createdAt");
    GetSet(spread, "createdAt", Str(now), "id");
    GetSet(spread, "createdAt", Str(now), k);
    GetAssign(base, data, "id");
    GetAssign(base, data, k);
    assert Get(base, k) == if k == "id" then Str(FormatId(counter)) else Missing;
  }

  /** The new record is a well-formed object whose first key is "id". */
  lemma NewSubmissionShape(counter: nat, data: Obj, now: string)
    ensures IsObject(NewSubmission(counter, data, now))
    ensures Keys(NewSubmission(counter, data, now))[0] == "id"
  {
    var base := [("id", Str(FormatId(counter)))];
    AssignKeepsObject(base, data);
    SetKeepsObject(Assign(base, data), "createdAt", Str(now));
    AssignKeysPrefix(base, data);
    assert Keys(base) == ["id"];
  }

  // ---------------------------------------------------------------------------
  // Lookup

  /** `sub.id === id`. */
  predicate HasId(record: Obj, id: string) {
    Get(record, "id") == Str(id)
  }

  /** `findIndex(sub => sub.id === id)`: the first matching position, or -1. */
  function FindIndex(s: seq<Obj>, id: string): (i: int)
    ensures -1 <= i < |s|
    ensures 0 <= i ==> HasId(s[i], id) && forall j :: 0 <= j < i ==> !HasId(s[j], id)
    ensures i == -1 <==> forall j :: 0 <= j < |s| ==> !HasId(s[j], id)
  {
    if s == [] then -1
    else if HasId(s[0], id) then 0
    else
      var k := FindIndex(s[1..], id);
      if k < 0 then -1 else k + 1
  }

  /** The records without the one at `i`, the others in order. */
  function RemoveAt(s: seq<Obj>, i: nat): (r: seq<Obj>)
    requires i < |s|
    ensures |r| == |s| - 1
    ensures forall j :: 0 <= j < |r| ==> r[j] == if j < i then s[j] else s[j + 1]
    ensures multiset(r) == multiset(s) - multiset{s[i]}
  {
    assert s == s[..i] + [s[i]] + s[i + 1..];
    s[..i] + s[i + 1..]
  }

  // ---------------------------------------------------------------------------
  // Pagination

  /** `s.slice(start, end)`: a negative bound counts from the end, and both
      are clamped to the sequence. */
  function JsSlice(s: seq<Obj>, start: int, end: int): (r: seq<Obj>)
    ensures |r| <= |s|
  {
    var from, to := SliceBound(start, |s|), SliceBound(end, |s|);
    if from < to then s[from..to] else []
  }

  /** Where `slice` puts a bound on a list of `len` elements: a bound inside
      the list stays, one past its end becomes its end, a negative one counts
      back from the end and stops at 0. */
  function SliceBound(n: int, len: nat): (k: nat)
    ensures k <= len
    ensures 0 <= n <= len ==> k == n
    ensures n > len ==> k == len
    ensures n < 0 ==> k == if len + n < 0 then 0 else len + n
  {
    if n < 0 then Max(len + n, 0) else Min(n, len)
  }

  function Min(a: int, b: int): int { if a < b then a else b }
  function Max(a: int, b: int): int { if a < b then b else a }

  /** `Math.ceil(n / d)` for a positive divisor. */
  function CeilDiv(n: nat, d: nat): (q: nat)
    requires d > 0
    ensures (q - 1) * d < n <= q * d || (n == 0 && q == 0)
  {
    (n + d - 1) / d
  }

  datatype Query = Query(page: int, limit: int, sortBy: string, sortOrder: string)

  datatype Pagination = Pagination(currentPage: int, totalPages: nat, totalItems: nat, itemsPerPage: int)

  datatype Listing = Listing(data: seq<Obj>, pagination: Pagination)

  /** `(page - 1) * limit`, the position of the page's first record. */
  function PageStart(query: Query): int {
    (query.page - 1) * query.limit
  }

  /** The records `getAll` answers with: the sorted copy, cut to the page. */
  function PageOf(records: seq<Obj>, query: Query): seq<Obj> {
    var start := PageStart(query);
    JsSlice(SortRecords(records, query.sortBy, query.sortOrder), start, start + query.limit)
  }

  /** The page starts at position 0 or later. */
  lemma PageStartNatural(query: Query)
    requires query.page >= 1 && query.limit >= 1
    ensures PageStart(query) >= 0
  {
    assert query.page - 1 >= 0;
  }

  /** The page holds the positions `[(page-1)*limit, (page-1)*limit + limit)`
      of the sorted copy, clamped to the records present. */
  lemma PageSlice(s: seq<Obj>, query: Query)
    requires query.page >= 1 && query.limit >= 1
    ensures var start := PageStart(query);
            var r := JsSlice(s, start, start + query.limit);
            |r| == Min(query.limit, Max(0, |s| - start))
            && (start < |s| ==> r == s[start..Min(start + query.limit, |s|)])
            && (start >= |s| ==> r == [])
  {
    PageStartNatural(query);
  }

  /** `getAll`'s page has `min(limit, max(0, N - (page-1)*limit))` records. */
  lemma PageOfSize(records: seq<Obj>, query: Query)
    requires query.page >= 1 && query.limit >= 1
    ensures |PageOf(records, query)| == Min(query.limit, Max(0, |records| - PageStart(query)))
  {
    var sorted := SortRecords(records, query.sortBy, query.sortOrder);
    assert |sorted| == |records| by {
      assert |multiset(sorted)| == |multiset(records)|;
    }
    PageSlice(sorted, query);
  }

  /** A slice of an ordered list is ordered. */
  lemma SliceInOrder(s: seq<Obj>, start: int, end: int, sortBy: string, sortOrder: string)
    requires InOrder(s, sortBy, sortOrder)
    ensures InOrder(JsSlice(s, start, end), sortBy, sortOrder)
  {
    var from, to := SliceBound(start, |s|), SliceBound(end, |s|);
    if from < to {
      SubrangeInOrder(s, from, to, sortBy, sortOrder);
    }
  }

  /** A contiguous part of an ordered list is ordered. */
  lemma SubrangeInOrder(s: seq<Obj>, from: nat, to: nat, sortBy: string, sortOrder: string)
    requires from <= to <= |s| && InOrder(s, sortBy, sortOrder)
    ensures InOrder(s[from..to], sortBy, sortOrder)
  {
    var r := s[from..to];
    forall i, j | 0 <= i < j < |r| ensures !After(r[i], r[j], sortBy, sortOrder) {
      assert !After(s[from + i], s[from + j], sortBy, sortOrder);
    }
  }

  /** Appending a new record keeps every record's `createdAt` a string. */
  lemma StampedAfterAppend(s: seq<Obj>, counter: nat, data: Obj, now: string)
    requires forall r :: r in s ==> SortKey(r, "createdAt").Str?
    ensures forall r :: r in s + [NewSubmission(counter, data, now)] ==> SortKey(r, "createdAt").Str?
  {
    var sub := NewSubmission(counter, data, now);
    assert SortKey(sub, "createdAt").Str? by {
      GetSet(Assign([("id", Str(FormatId(counter)))], data), "createdAt", Str(now), "createdAt");
    }
    forall r | r in s + [sub] ensures SortKey(r, "createdAt").Str? {
      if r !in s {
        assert r == sub;
      }
    }
  }

  // ---------------------------------------------------------------------------
  // The store

  class SubmissionStore {
    var submissions: seq<Obj>
    var currentId: nat

    /** The counter is positive and every record carries a string
        `createdAt`, so the default listing order is always defined. */
    ghost predicate Valid()
      reads this
    {
      currentId >= 1 && forall r :: r in submissions ==> SortKey(r, "createdAt").Str?
    }

    constructor()
      ensures Valid()
      ensures submissions == [] && currentId == 1
    {
      submissions := [];
      currentId := 1;
    }

    /** `create(data)` at time `now`: appends exactly one record and advances
        the counter by one. */
    method Create(data: Obj, now: string) returns (submission: Obj)
      requires Valid()
      modifies this
      ensures Valid()
      ensures submission == NewSubmission(old(currentId), data, now)
      ensures submissions == old(submissions) + [submission]
      ensures currentId == old(currentId) + 1
    {
      submission := NewSubmission(currentId, data, now);
      StampedAfterAppend(submissions, currentId, data, now);
      submissions := submissions + [submission];
      currentId := currentId + 1;
    }

    /** `getAll(query)`: a sorted copy, cut to the requested page. The stored
        records are not changed; the page holds stored records only, and it
        is in the requested order whenever every two keys are related, which
        always holds for the default `createdAt`. */
    method GetAll(query: Query) returns (listing: Listing)
      requires Valid() && query.limit >= 1
      ensures listing.data == PageOf(submissions, query)
      ensures listing.pagination
              == Pagination(query.page, CeilDiv(|submissions|, query.limit), |submissions|, query.limit)
      ensures multiset(listing.data) <= multiset(submissions)
      ensures KeysRelated(submissions, query.sortBy) ==> InOrder(listing.data, query.sortBy, query.sortOrder)
      ensures query.sortBy == "createdAt" ==> InOrder(listing.data, query.sortBy, query.sortOrder)
    {
      var sorted := SortRecords(submissions, query.sortBy, query.sortOrder);
      var startIndex := PageStart(query);
      var endIndex := startIndex + query.limit;
      var data := JsSlice(sorted, startIndex, endIndex);
      assert data == PageOf(submissions, query);
      SortedSlice(submissions, query.sortBy, query.sortOrder, startIndex, endIndex);
      if query.sortBy == "createdAt" {
        StringKeysRelated(submissions, "createdAt");
      }
      var pagination := Pagination(query.page, CeilDiv(|submissions|, query.limit), |submissions|, query.limit);
      listing := Listing(data, pagination);
    }

    /** `getById(id)`: the first record with that id, if any. */
    method GetById(id: string) returns (found: Option<Obj>)
      ensures var i := FindIndex(submissions, id);
              found == if i >= 0 then Some(submissions[i]) else None
    {
      var index := FindIndex(submissions, id);
      if index >= 0 {
        found := Some(submissions[index]);
      } else {
        found := None;
      }
    }

    /** `deleteById(id)`: true iff a record had that id; exactly the first
        such record is removed, the others keep their order, and the counter
        is left alone so its id is not issued again. */
    method DeleteById(id: string) returns (deleted: bool)
      requires Valid()
      modifies this
      ensures Valid()
      ensures var i := FindIndex(old(submissions), id);
              deleted == (i >= 0)
              && submissions == (if i >= 0 then RemoveAt(old(submissions), i) else old(submissions))
      ensures currentId == old(currentId)
    {
      var index := FindIndex(submissions, id);
      if index > -1 {
        ghost var before := submissions;
        submissions := RemoveAt(submissions, index);
        assert forall r :: r in submissions ==> r in before by {
          forall r | r in submissions ensures r in before {
            assert r in multiset(submissions);
          }
        }
        return true;
      }
      return false;
    }
  }

  /** Any cut of the sorted copy holds stored records only, and is ordered
      as asked whenever every two keys are related. */
  lemma SortedSlice(records: seq<Obj>, sortBy: string, sortOrder: string, start: int, end: int)
    ensures multiset(JsSlice(SortRecords(records, sortBy, sortOrder), start, end)) <= multiset(records)
    ensures KeysRelated(records, sortBy) ==> InOrder(JsSlice(SortRecords(records, sortBy, sortOrder), start, end), sortBy, sortOrder)
  {
    var sorted := SortRecords(records, sortBy, sortOrder);
    SlicePart(sorted, start, end);
    if KeysRelated(records, sortBy) {
      SortInOrder(records, sortBy, sortOrder);
      SliceInOrder(sorted, start, end, sortBy, sortOrder);
    }
  }

  /** Every slice holds part of the sequence. */
  lemma SlicePart(s: seq<Obj>, start: int, end: int)
    ensures multiset(JsSlice(s, start, end)) <= multiset(s)
  {
    var from, to := SliceBound(start, |s|), SliceBound(end, |s|);
    if from < to {
      SubrangePart(s, from, to);
    }
  }

  /** A contiguous part holds elements of the whole, as often at most. */
  lemma SubrangePart(s: seq<Obj>, from: nat, to: nat)
    requires from <= to <= |s|
    ensures multiset(s[from..to]) <= multiset(s)
  {
    assert s == s[..from] + s[from..to] + s[to..];
    assert multiset(s) == multiset(s[..from]) + multiset(s[from..to]) + multiset(s[to..]);
  }

  /** Creating a record makes it findable by its id unless an earlier record
      already holds that id. */
  lemma CreatedIsFound(s: seq<Obj>, sub: Obj, id: string)
    requires HasId(sub, id) && FindIndex(s, id) == -1
    ensures FindIndex(s + [sub], id) == |s|
  {
    var t := s + [sub];
    assert HasId(t[|s|], id);
    forall j | 0 <= j < |s| ensures !HasId(t[j], id) {
      assert !HasId(s[j], id);
    }
  }
}
