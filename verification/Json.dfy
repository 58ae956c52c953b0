/**
 JSON values and their canonical text: object keys sorted, nothing optional
 written. Numbers are opaque tokens; an object's entries are in whatever order the
 value was built in.
 */
module Json {
  import opened StringOrder

  datatype Value =
    | Null
    | Bool(b: bool)
    | Number(token: string)
    | Str(s: string)
    | Arr(items: seq<Value>)
    | Obj(entries: seq<Entry>)

  datatype Entry = Entry(key: string, value: Value)

  predicate NumberChar(c: char) {
    '0' <= c <= '9' || c in "+-.eE"
  }

  lemma NumberCharExactly(c: char)
    ensures NumberChar(c) <==> c in "0123456789+-.eE"
  {
    if '0' <= c <= '9' {
      assert "0123456789+-.eE"[c as int - '0' as int] == c;
    }
  }

  predicate NumberToken(s: string) {
    s != "" && forall i :: 0 <= i < |s| ==> NumberChar(s[i])
  }

  predicate DistinctKeys(entries: seq<Entry>) {
    forall i, j :: 0 <= i < j < |entries| ==> entries[i].key != entries[j].key
  }

  /** What the value type guarantees: number tokens are number text and an
      object's keys are distinct. */
  predicate Valid(v: Value) {
    match v
    case Number(token) => NumberToken(token)
    case Arr(items) => forall i :: 0 <= i < |items| ==> Valid(items[i])
    case Obj(entries) => DistinctKeys(entries) && forall i :: 0 <= i < |entries| ==> Valid(entries[i].value)
    case _ => true
  }

  ghost predicate HasKey(entries: seq<Entry>, key: string) {
    exists i :: 0 <= i < |entries| && entries[i].key == key
  }

  /** The same value, whatever order object entries are in. */
  ghost predicate Same(v: Value, w: Value)
    decreases v
  {
    match v
    case Arr(items) =>
      w.Arr? && |items| == |w.items| && forall i :: 0 <= i < |items| ==> Same(items[i], w.items[i])
    case Obj(entries) =>
      && w.Obj?
      && (forall i :: 0 <= i < |entries| ==> SameIn(entries[i], w.entries))
      && (forall j :: 0 <= j < |w.entries| ==> HasKey(entries, w.entries[j].key))
    case _ => v == w
  }

  ghost predicate SameIn(e: Entry, entries: seq<Entry>)
    decreases e
  {
    exists j :: 0 <= j < |entries| && entries[j].key == e.key && Same(e.value, entries[j].value)
  }

  // ----- Sorting entries --------------------------------------------------------------------

  function Inserted(e: Entry, sorted: seq<Entry>): seq<Entry> {
    if sorted == [] then [e]
    else if Less(sorted[0].key, e.key) then [sorted[0]] + Inserted(e, sorted[1..])
    else [e] + sorted
  }

  function SortedByKey(entries: seq<Entry>): seq<Entry> {
    if entries == [] then [] else Inserted(entries[|entries| - 1], SortedByKey(entries[..|entries| - 1]))
  }

  ghost predicate Ascending(entries: seq<Entry>) {
    forall i, j :: 0 <= i < j < |entries| ==> Less(entries[i].key, entries[j].key)
  }

  lemma {:induction false} InsertedSame(e: Entry, sorted: seq<Entry>)
    ensures forall x :: x in Inserted(e, sorted) <==> x == e || x in sorted
    ensures |Inserted(e, sorted)| == |sorted| + 1
  {
    if sorted != [] && Less(sorted[0].key, e.key) {
      InsertedSame(e, sorted[1..]);
      assert sorted == [sorted[0]] + sorted[1..];
    }
  }

  lemma {:induction false} InsertedAscends(e: Entry, sorted: seq<Entry>)
    requires Ascending(sorted) && forall x :: x in sorted ==> x.key != e.key
    ensures Ascending(Inserted(e, sorted))
  {
    InsertedSame(e, sorted);
    if sorted != [] {
      LessTotal(sorted[0].key, e.key);
      if Less(sorted[0].key, e.key) {
        InsertedSame(e, sorted[1..]);
        InsertedAscends(e, sorted[1..]);
        var tail := Inserted(e, sorted[1..]);
        forall j | 0 <= j < |tail| ensures Less(sorted[0].key, tail[j].key) {
          assert tail[j] in tail;
          if tail[j] != e {
            var k :| 0 <= k < |sorted[1..]| && sorted[1..][k] == tail[j];
            assert sorted[k + 1] == tail[j];
          }
        }
      } else {
        forall j | 0 <= j < |sorted| ensures Less(e.key, sorted[j].key) {
          if j > 0 { LessTransitive(e.key, sorted[0].key, sorted[j].key); }
        }
      }
    }
  }

  lemma {:induction false} SortedSame(entries: seq<Entry>)
    ensures forall x :: x in SortedByKey(entries) <==> x in entries
    ensures |SortedByKey(entries)| == |entries|
  {
    if entries != [] {
      var init, e := entries[..|entries| - 1], entries[|entries| - 1];
      SortedSame(init);
      InsertedSame(e, SortedByKey(init));
      assert entries == init + [e];
    }
  }

  lemma {:induction false} SortedAscends(entries: seq<Entry>)
    requires DistinctKeys(entries)
    ensures Ascending(SortedByKey(entries))
  {
    if entries != [] {
      var init, e := entries[..|entries| - 1], entries[|entries| - 1];
      SortedAscends(init);
      SortedSame(init);
      forall x | x in SortedByKey(init) ensures x.key != e.key {
        var k :| 0 <= k < |init| && init[k] == x;
        assert entries[k] == x;
      }
      InsertedAscends(e, SortedByKey(init));
    }
  }

  lemma AscendingHead(a: seq<Entry>, x: Entry)
    requires Ascending(a) && x in a
    ensures x == a[0] || Less(a[0].key, x.key)
  {}

  /** Two ascending lists of the same entries are one list. */
  lemma {:induction false} AscendingUnique(a: seq<Entry>, b: seq<Entry>)
    requires Ascending(a) && Ascending(b) && forall x :: x in a <==> x in b
    ensures a == b
  {
    assert b != [] ==> b[0] in a;
    if a != [] {
      assert a[0] in b;
      assert b[0] in a;
      AscendingHead(a, b[0]);
      AscendingHead(b, a[0]);
      if a[0] != b[0] {
        LessTransitive(a[0].key, b[0].key, a[0].key);
        LessIrreflexive(a[0].key);
        assert false;
      }
      TailMembers(a);
      TailMembers(b);
      AscendingUnique(a[1..], b[1..]);
      assert a == [a[0]] + a[1..] && b == [b[0]] + b[1..];
    }
  }

  lemma TailMembers(a: seq<Entry>)
    requires Ascending(a) && a != []
    ensures forall x :: x in a[1..] <==> x in a && x != a[0]
  {
    forall x | x in a[1..] ensures x in a && x != a[0] {
      var k :| 0 <= k < |a[1..]| && a[1..][k] == x;
      assert a[k + 1] == x;
      if x == a[0] {
        LessIrreflexive(a[0].key);
      }
    }
    assert a == [a[0]] + a[1..];
  }

  // ----- Normal form -------------------------------------------------------------------------

  function Norm(v: Value): Value {
    match v
    case Arr(items) => Arr(NormItems(items))
    case Obj(entries) => Obj(SortedByKey(NormEntries(entries)))
    case _ => v
  }

  function NormItems(items: seq<Value>): (r: seq<Value>)
    ensures |r| == |items|
  {
    if items == [] then [] else [Norm(items[0])] + NormItems(items[1..])
  }

  function NormEntries(entries: seq<Entry>): (r: seq<Entry>)
    ensures |r| == |entries|
  {
    if entries == [] then [] else [Entry(entries[0].key, Norm(entries[0].value))] + NormEntries(entries[1..])
  }

  lemma {:induction false} NormItemsAt(items: seq<Value>, i: nat)
    requires i < |items|
    ensures NormItems(items)[i] == Norm(items[i])
  {
    if i > 0 { NormItemsAt(items[1..], i - 1); }
  }

  lemma {:induction false} NormEntriesAt(entries: seq<Entry>, i: nat)
    requires i < |entries|
    ensures NormEntries(entries)[i] == Entry(entries[i].key, Norm(entries[i].value))
  {
    if i > 0 { NormEntriesAt(entries[1..], i - 1); }
  }

  lemma NormEntriesDistinct(entries: seq<Entry>)
    requires DistinctKeys(entries)
    ensures DistinctKeys(NormEntries(entries))
  {
    forall i | 0 <= i < |entries| ensures NormEntries(entries)[i].key == entries[i].key {
      NormEntriesAt(entries, i);
    }
  }

  lemma DistinctAt(entries: seq<Entry>, i: nat, j: nat)
    requires DistinctKeys(entries) && i < |entries| && j < |entries| && entries[i].key == entries[j].key
    ensures i == j
  {}

  // ----- Normal forms are equal exactly for the same value ---------------------------------------

  /** Some entry normalises to `x`. */
  ghost predicate Holds(entries: seq<Entry>, x: Entry) {
    exists i :: 0 <= i < |entries| && entries[i].key == x.key && Norm(entries[i].value) == x.value
  }

  lemma NormMembers(entries: seq<Entry>)
    ensures forall x :: x in NormEntries(entries) <==> Holds(entries, x)
  {
    forall i | 0 <= i < |entries| ensures NormEntries(entries)[i] == Entry(entries[i].key, Norm(entries[i].value)) {
      NormEntriesAt(entries, i);
    }
    forall x | Holds(entries, x) ensures x in NormEntries(entries) {
      var i :| 0 <= i < |entries| && entries[i].key == x.key && Norm(entries[i].value) == x.value;
      assert NormEntries(entries)[i] == x;
    }
  }

  lemma NormItemsEqual(a: seq<Value>, b: seq<Value>)
    requires |a| == |b|
    ensures NormItems(a) == NormItems(b) <==> forall i :: 0 <= i < |a| ==> Norm(a[i]) == Norm(b[i])
  {
    forall i | 0 <= i < |a| ensures NormItems(a)[i] == Norm(a[i]) && NormItems(b)[i] == Norm(b[i]) {
      NormItemsAt(a, i);
      NormItemsAt(b, i);
    }
  }

  lemma SortsEqual(a: seq<Entry>, b: seq<Entry>)
    requires DistinctKeys(a) && DistinctKeys(b) && forall x :: Holds(a, x) <==> Holds(b, x)
    ensures SortedByKey(NormEntries(a)) == SortedByKey(NormEntries(b))
  {
    NormEntriesDistinct(a);
    NormEntriesDistinct(b);
    SortedAscends(NormEntries(a));
    SortedAscends(NormEntries(b));
    NormMembers(a);
    NormMembers(b);
    SortedSame(NormEntries(a));
    SortedSame(NormEntries(b));
    AscendingUnique(SortedByKey(NormEntries(a)), SortedByKey(NormEntries(b)));
  }

  lemma SortsHold(a: seq<Entry>, b: seq<Entry>, i: nat) returns (j: nat)
    requires SortedByKey(NormEntries(a)) == SortedByKey(NormEntries(b)) && i < |a|
    ensures j < |b| && b[j].key == a[i].key && Norm(b[j].value) == Norm(a[i].value)
  {
    NormMembers(a);
    NormMembers(b);
    SortedSame(NormEntries(a));
    SortedSame(NormEntries(b));
    var x := Entry(a[i].key, Norm(a[i].value));
    assert Holds(a, x);
    assert Holds(b, x);
    j :| 0 <= j < |b| && b[j].key == x.key && Norm(b[j].value) == x.value;
  }

  /** Each entry of the one is in the other and every key of the other is in the
      one, so they hold the same entries. */
  lemma KeysCover(a: seq<Entry>, b: seq<Entry>)
    requires DistinctKeys(b)
    requires forall i :: 0 <= i < |a| ==> Holds(b, Entry(a[i].key, Norm(a[i].value)))
    requires forall j :: 0 <= j < |b| ==> HasKey(a, b[j].key)
    ensures forall x :: Holds(a, x) <==> Holds(b, x)
  {
    forall x | Holds(b, x) ensures Holds(a, x) {
      var j :| 0 <= j < |b| && b[j].key == x.key && Norm(b[j].value) == x.value;
      assert HasKey(a, b[j].key);
      var i :| 0 <= i < |a| && a[i].key == b[j].key;
      var y := Entry(a[i].key, Norm(a[i].value));
      assert Holds(b, y);
      var k :| 0 <= k < |b| && b[k].key == y.key && Norm(b[k].value) == y.value;
      DistinctAt(b, j, k);
    }
    forall x | Holds(a, x) ensures Holds(b, x) {
      var i :| 0 <= i < |a| && a[i].key == x.key && Norm(a[i].value) == x.value;
      assert x == Entry(a[i].key, Norm(a[i].value));
    }
  }

  lemma {:induction false} SameNorm(v: Value, w: Value)
    requires Valid(v) && Valid(w) && Same(v, w)
    ensures Norm(v) == Norm(w)
    decreases v
  {
    match v
    case Arr(items) =>
      forall i | 0 <= i < |items| ensures Norm(items[i]) == Norm(w.items[i]) {
        SameNorm(items[i], w.items[i]);
      }
      NormItemsEqual(items, w.items);
    case Obj(entries) =>
      forall i | 0 <= i < |entries| ensures Holds(w.entries, Entry(entries[i].key, Norm(entries[i].value))) {
        SameInHolds(entries[i], w.entries);
      }
      KeysCover(entries, w.entries);
      SortsEqual(entries, w.entries);
    case _ =>
  }

  lemma {:induction false} SameInHolds(e: Entry, entries: seq<Entry>)
    requires SameIn(e, entries) && Valid(e.value) && forall j :: 0 <= j < |entries| ==> Valid(entries[j].value)
    ensures Holds(entries, Entry(e.key, Norm(e.value)))
    decreases e
  {
    var j :| 0 <= j < |entries| && entries[j].key == e.key && Same(e.value, entries[j].value);
    SameNorm(e.value, entries[j].value);
  }

  lemma {:induction false} NormSame(v: Value, w: Value)
    requires Norm(v) == Norm(w)
    ensures Same(v, w)
    decreases v
  {
    match v
    case Arr(items) =>
      NormItemsEqual(items, w.items);
      forall i | 0 <= i < |items| ensures Same(items[i], w.items[i]) {
        NormSame(items[i], w.items[i]);
      }
    case Obj(entries) =>
      forall i | 0 <= i < |entries| ensures SameIn(entries[i], w.entries) {
        var j := SortsHold(entries, w.entries, i);
        NormSame(entries[i].value, w.entries[j].value);
      }
      forall j | 0 <= j < |w.entries| ensures HasKey(entries, w.entries[j].key) {
        var i := SortsHold(w.entries, entries, j);
      }
    case _ =>
  }

  // ----- The canonical writer's spec commutes with sorting first ---------------------------------

  lemma {:induction false} InsertedNorm(e: Entry, sorted: seq<Entry>)
    ensures NormEntries(Inserted(e, sorted)) == Inserted(Entry(e.key, Norm(e.value)), NormEntries(sorted))
  {
    if sorted != [] {
      var out := Inserted(e, sorted);
      if Less(sorted[0].key, e.key) {
        InsertedNorm(e, sorted[1..]);
        assert out[1..] == Inserted(e, sorted[1..]);
        assert NormEntries(sorted)[1..] == NormEntries(sorted[1..]);
      } else {
        assert out[1..] == sorted;
      }
    }
  }

  lemma {:induction false} NormEntriesInit(entries: seq<Entry>)
    requires entries != []
    ensures NormEntries(entries)[..|entries| - 1] == NormEntries(entries[..|entries| - 1])
  {
    var init := entries[..|entries| - 1];
    forall i | 0 <= i < |init| ensures NormEntries(entries)[i] == NormEntries(init)[i] {
      NormEntriesAt(entries, i);
      NormEntriesAt(init, i);
    }
  }

  /** Sorting looks at keys only, so it may come before or after normalising. */
  lemma {:induction false} SortedNorm(entries: seq<Entry>)
    ensures NormEntries(SortedByKey(entries)) == SortedByKey(NormEntries(entries))
  {
    if entries != [] {
      var init, e := entries[..|entries| - 1], entries[|entries| - 1];
      SortedNorm(init);
      InsertedNorm(e, SortedByKey(init));
      NormEntriesInit(entries);
      NormEntriesAt(entries, |entries| - 1);
    }
  }
}
