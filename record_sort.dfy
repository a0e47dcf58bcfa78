/**
 * The ordering the store's listing uses: `Array.prototype.sort` on a copy of
 * the records with the comparator of `getAll`. That comparator never returns
 * 0, so the engine's order of records with equal keys is not determined; the
 * sort is modelled by an insertion sort driven by the same comparator, and
 * what is proved of it is what any engine gives: a permutation, ordered as
 * asked whenever every two keys are equal or comparable.
 */
module RecordSort {
  import opened JsValues

  /** `record[sortBy]`. */
  function SortKey(record: Obj, sortBy: string): Value {
    Get(record, sortBy)
  }

  /** The comparator returns 1: for 'asc' when `a[sortBy] > b[sortBy]`, for
      any other order when `a[sortBy] < b[sortBy]`. */
  predicate After(a: Obj, b: Obj, sortBy: string, sortOrder: string) {
    if sortOrder == "asc" then Greater(SortKey(a, sortBy), SortKey(b, sortBy))
    else Greater(SortKey(b, sortBy), SortKey(a, sortBy))
  }

  /** Two keys that `>` relates one way or the other, or that are equal. */
  predicate Related(x: Value, y: Value) {
    x == y || Greater(x, y) || Greater(y, x)
  }

  /** Every two records' keys are related: e.g. all keys are strings. */
  predicate KeysRelated(records: seq<Obj>, sortBy: string) {
    forall a, b :: a in records && b in records ==> Related(SortKey(a, sortBy), SortKey(b, sortBy))
  }

  /** No record comes after a later one. */
  predicate InOrder(s: seq<Obj>, sortBy: string, sortOrder: string) {
    forall i, j :: 0 <= i < j < |s| ==> !After(s[i], s[j], sortBy, sortOrder)
  }

  /** Puts `x` before the first record it does not come after. */
  function Insert(x: Obj, s: seq<Obj>, sortBy: string, sortOrder: string): (r: seq<Obj>)
    ensures multiset(r) == multiset(s) + multiset{x}
  {
    if s == [] then [x]
    else if After(x, s[0], sortBy, sortOrder) then
      assert s == [s[0]] + s[1..];
      [s[0]] + Insert(x, s[1..], sortBy, sortOrder)
    else [x] + s
  }

  /** The sorted copy. */
  function SortRecords(s: seq<Obj>, sortBy: string, sortOrder: string): (r: seq<Obj>)
    ensures multiset(r) == multiset(s)
  {
    if s == [] then []
    else
      assert s == [s[0]] + s[1..];
      Insert(s[0], SortRecords(s[1..], sortBy, sortOrder), sortBy, sortOrder)
  }

  lemma AfterAsymmetric(a: Obj, b: Obj, sortBy: string, sortOrder: string)
    ensures After(a, b, sortBy, sortOrder) ==> !After(b, a, sortBy, sortOrder)
  {
    GreaterAsymmetric(SortKey(a, sortBy), SortKey(b, sortBy));
  }

  /** Among records with related keys, "does not come after" is transitive. */
  lemma NotAfterTransitive(a: Obj, b: Obj, c: Obj, sortBy: string, sortOrder: string)
    requires Related(SortKey(a, sortBy), SortKey(b, sortBy))
    requires Related(SortKey(b, sortBy), SortKey(c, sortBy))
    requires Related(SortKey(a, sortBy), SortKey(c, sortBy))
    requires !After(a, b, sortBy, sortOrder) && !After(b, c, sortBy, sortOrder)
    ensures !After(a, c, sortBy, sortOrder)
  {
    var ka, kb, kc := SortKey(a, sortBy), SortKey(b, sortBy), SortKey(c, sortBy);
    if ka != kb && kb != kc && ka != kc {
      if sortOrder == "asc" {
        GreaterTransitive(kc, kb, ka);
        GreaterAsymmetric(kc, ka);
      } else {
        GreaterTransitive(ka, kb, kc);
        GreaterAsymmetric(ka, kc);
      }
    }
  }

  lemma {:induction false} InsertInOrder(x: Obj, s: seq<Obj>, sortBy: string, sortOrder: string)
    requires InOrder(s, sortBy, sortOrder)
    requires KeysRelated([x] + s, sortBy)
    ensures InOrder(Insert(x, s, sortBy, sortOrder), sortBy, sortOrder)
    decreases |s|
  {
    if s == [] {
    } else if After(x, s[0], sortBy, sortOrder) {
      assert KeysRelated([x] + s[1..], sortBy) by {
        forall a | a in [x] + s[1..] ensures a in [x] + s {
          if a != x { assert a in s[1..]; }
        }
      }
      assert InOrder(s[1..], sortBy, sortOrder) by {
        forall i, j | 0 <= i < j < |s[1..]| ensures !After(s[1..][i], s[1..][j], sortBy, sortOrder) {
          assert !After(s[i + 1], s[j + 1], sortBy, sortOrder);
        }
      }
      InsertInOrder(x, s[1..], sortBy, sortOrder);
      InsertAfterHead(x, s, sortBy, sortOrder);
    } else {
      InsertBeforeHead(x, s, sortBy, sortOrder);
      assert Insert(x, s, sortBy, sortOrder) == [x] + s;
    }
  }

  /** `x` goes after the head: the head stays first, then `x` is inserted
      into the rest. */
  lemma InsertAfterHead(x: Obj, s: seq<Obj>, sortBy: string, sortOrder: string)
    requires s != [] && InOrder(s, sortBy, sortOrder) && After(x, s[0], sortBy, sortOrder)
    requires InOrder(Insert(x, s[1..], sortBy, sortOrder), sortBy, sortOrder)
    ensures InOrder(Insert(x, s, sortBy, sortOrder), sortBy, sortOrder)
  {
    var rest := Insert(x, s[1..], sortBy, sortOrder);
    assert Insert(x, s, sortBy, sortOrder) == [s[0]] + rest;
    forall j | 0 <= j < |rest| ensures !After(s[0], rest[j], sortBy, sortOrder) {
      HeadNotAfterInserted(x, s, sortBy, sortOrder, j);
    }
    ConsInOrder(s[0], rest, sortBy, sortOrder);
  }

  /** The head of an ordered list, which `x` comes after, comes after
      nothing in the rest with `x` inserted. */
  lemma HeadNotAfterInserted(x: Obj, s: seq<Obj>, sortBy: string, sortOrder: string, j: nat)
    requires s != [] && InOrder(s, sortBy, sortOrder) && After(x, s[0], sortBy, sortOrder)
    requires j < |Insert(x, s[1..], sortBy, sortOrder)|
    ensures !After(s[0], Insert(x, s[1..], sortBy, sortOrder)[j], sortBy, sortOrder)
  {
    var y := Insert(x, s[1..], sortBy, sortOrder)[j];
    InsertedFrom(x, s[1..], sortBy, sortOrder, j);
    if y == x {
      AfterAsymmetric(x, s[0], sortBy, sortOrder);
    } else {
      var k :| 0 <= k < |s[1..]| && s[1..][k] == y;
      assert !After(s[0], s[k + 1], sortBy, sortOrder);
    }
  }

  /** Whatever the inserted list holds is `x` or came from the list. */
  lemma InsertedFrom(x: Obj, s: seq<Obj>, sortBy: string, sortOrder: string, j: nat)
    requires j < |Insert(x, s, sortBy, sortOrder)|
    ensures Insert(x, s, sortBy, sortOrder)[j] == x || Insert(x, s, sortBy, sortOrder)[j] in s
  {
    var r := Insert(x, s, sortBy, sortOrder);
    assert r[j] in multiset(r);
  }

  /** A record that comes after none of an ordered list can go in front
      of it. */
  lemma ConsInOrder(h: Obj, rest: seq<Obj>, sortBy: string, sortOrder: string)
    requires InOrder(rest, sortBy, sortOrder)
    requires forall j :: 0 <= j < |rest| ==> !After(h, rest[j], sortBy, sortOrder)
    ensures InOrder([h] + rest, sortBy, sortOrder)
  {
    var r := [h] + rest;
    forall i, j | 0 <= i < j < |r| ensures !After(r[i], r[j], sortBy, sortOrder) {
      if i == 0 {
        assert !After(h, rest[j - 1], sortBy, sortOrder);
      } else {
        assert !After(rest[i - 1], rest[j - 1], sortBy, sortOrder);
      }
    }
  }

  /** `x` does not go after the head: it goes first, and comes after none of
      the others either. */
  lemma InsertBeforeHead(x: Obj, s: seq<Obj>, sortBy: string, sortOrder: string)
    requires s != [] && InOrder(s, sortBy, sortOrder) && !After(x, s[0], sortBy, sortOrder)
    requires KeysRelated([x] + s, sortBy)
    ensures InOrder([x] + s, sortBy, sortOrder)
  {
    forall j | 0 <= j < |s| ensures !After(x, s[j], sortBy, sortOrder) {
      if j > 0 {
        assert x in [x] + s && s[0] in [x] + s && s[j] in [x] + s;
        assert Related(SortKey(x, sortBy), SortKey(s[0], sortBy));
        assert Related(SortKey(s[0], sortBy), SortKey(s[j], sortBy));
        assert Related(SortKey(x, sortBy), SortKey(s[j], sortBy));
        assert !After(s[0], s[j], sortBy, sortOrder);
        NotAfterTransitive(x, s[0], s[j], sortBy, sortOrder);
      }
    }
    ConsInOrder(x, s, sortBy, sortOrder);
  }

  lemma {:induction false} SortInOrder(s: seq<Obj>, sortBy: string, sortOrder: string)
    requires KeysRelated(s, sortBy)
    ensures InOrder(SortRecords(s, sortBy, sortOrder), sortBy, sortOrder)
  {
    if s != [] {
      var tail := SortRecords(s[1..], sortBy, sortOrder);
      assert KeysRelated(s[1..], sortBy) by {
        forall a | a in s[1..] ensures a in s { }
      }
      SortInOrder(s[1..], sortBy, sortOrder);
      assert KeysRelated([s[0]] + tail, sortBy) by {
        forall a | a in [s[0]] + tail ensures a in s {
          if a != s[0] {
            assert a in multiset(tail);
            assert a in s[1..];
          }
        }
      }
      InsertInOrder(s[0], tail, sortBy, sortOrder);
    }
  }

  /** The listing is a permutation of the records; for 'asc' no key is
      greater than a later one, for any other order none is smaller. */
  lemma SortSpec(s: seq<Obj>, sortBy: string, sortOrder: string)
    requires KeysRelated(s, sortBy)
    ensures var r := SortRecords(s, sortBy, sortOrder);
            multiset(r) == multiset(s)
            && (sortOrder == "asc" ==>
                  forall i, j :: 0 <= i < j < |r| ==> !Greater(SortKey(r[i], sortBy), SortKey(r[j], sortBy)))
            && (sortOrder != "asc" ==>
                  forall i, j :: 0 <= i < j < |r| ==> !Greater(SortKey(r[j], sortBy), SortKey(r[i], sortBy)))
  {
    SortInOrder(s, sortBy, sortOrder);
  }

  /** With pairwise distinct keys the order is strict: ascending for 'asc',
      descending otherwise. */
  lemma SortStrict(s: seq<Obj>, sortBy: string, sortOrder: string, i: nat, j: nat)
    requires KeysRelated(s, sortBy)
    requires var r := SortRecords(s, sortBy, sortOrder);
             i < j < |r| && SortKey(r[i], sortBy) != SortKey(r[j], sortBy)
    ensures var r := SortRecords(s, sortBy, sortOrder);
            if sortOrder == "asc" then Greater(SortKey(r[j], sortBy), SortKey(r[i], sortBy))
            else Greater(SortKey(r[i], sortBy), SortKey(r[j], sortBy))
  {
    var r := SortRecords(s, sortBy, sortOrder);
    SortInOrder(s, sortBy, sortOrder);
    assert !After(r[i], r[j], sortBy, sortOrder);
    assert r[i] in multiset(s) && r[j] in multiset(s);
    assert r[i] in s && r[j] in s;
  }

  /** Records whose keys are all strings (like every stored `createdAt`)
      have related keys. */
  lemma StringKeysRelated(s: seq<Obj>, sortBy: string)
    requires forall a :: a in s ==> SortKey(a, sortBy).Str?
    ensures KeysRelated(s, sortBy)
  {
    forall a, b | a in s && b in s ensures Related(SortKey(a, sortBy), SortKey(b, sortBy)) {
      if SortKey(a, sortBy) != SortKey(b, sortBy) {
        GreaterTotalOnSameType(SortKey(a, sortBy), SortKey(b, sortBy));
      }
    }
  }
}
