/**
 Idempotency identities: the canonical writer, and the preimage a key is hashed
 from.
 */
module Idempotency {
  import opened Wrappers
  import opened Json
  import opened StringOrder
  import opened CanonicalJson

  // ----- The writer ---------------------------------------------------------------------------------

  method SortByKey(entries: seq<Entry>) returns (sorted: seq<Entry>)
    ensures sorted == SortedByKey(entries)
  {
    sorted := [];
    assert entries[..0] == [];
    for i := 0 to |entries|
      invariant sorted == SortedByKey(entries[..i])
    {
      assert entries[..i + 1][..i] == entries[..i];
      sorted := Inserted(entries[i], sorted);
    }
    assert entries[..|entries|] == entries;
  }

  function Separator(i: nat): string {
    if i == 0 then "" else ","
  }

  lemma {:induction false} WriteItemsOn(items: seq<Value>, v: Value)
    ensures WriteItems(items + [v]) == WriteItems(items) + (Separator(|items|) + Write(v))
  {
    if items == [] {
      assert items + [v] == [v];
      assert "" + ("" + Write(v)) == Write(v);
    } else {
      assert (items + [v])[1..] == items[1..] + [v];
      WriteItemsOn(items[1..], v);
      ItemsOnText(Write(items[0]), WriteItems(items[1..]), Write(v), |items|);
    }
  }

  lemma {:induction false} WriteEntriesOn(entries: seq<Entry>, e: Entry)
    ensures WriteEntries(entries + [e]) == WriteEntries(entries) + (Separator(|entries|) + WriteEntry(e))
  {
    if entries == [] {
      assert entries + [e] == [e];
      assert "" + ("" + WriteEntry(e)) == WriteEntry(e);
    } else {
      assert (entries + [e])[1..] == entries[1..] + [e];
      WriteEntriesOn(entries[1..], e);
      ItemsOnText(WriteEntry(entries[0]), WriteEntries(entries[1..]), WriteEntry(e), |entries|);
    }
  }

  lemma ItemsOnText(head: string, tail: string, last: string, n: nat)
    ensures head + "," + (tail + ("," + last)) == head + "," + tail + ("," + last)
    ensures head + "," + ("" + ("" + last)) == head + ("," + last)
  {}

  /** `write_canonical_json`, appending to the output buffer. */
  method WriteCanonicalJson(v: Value, output: string) returns (out: string)
    ensures out == output + Canonical(v)
    decreases v
  {
    match v
    case Arr(items) =>
      out := WriteArray(items, output);
    case Obj(entries) =>
      out := WriteObject(entries, output);
    case _ =>
      out := output + Write(v);
  }

  method WriteArray(items: seq<Value>, output: string) returns (out: string)
    ensures out == output + Canonical(Arr(items))
    decreases items
  {
    out := output + "[";
    ghost var norm := NormItems(items);
    assert norm[..0] == [];
    for i := 0 to |items|
      invariant out == output + "[" + WriteItems(norm[..i])
    {
      NormItemsAt(items, i);
      WriteItemsOn(norm[..i], norm[i]);
      assert norm[..i + 1] == norm[..i] + [norm[i]];
      Pushed(output + "[", WriteItems(norm[..i]), Separator(i), Write(norm[i]));
      out := out + Separator(i);
      out := WriteCanonicalJson(items[i], out);
    }
    assert norm[..|items|] == norm;
    out := out + "]";
    Closed(output, "[", WriteItems(norm), "]");
  }

  lemma Pushed(a: string, b: string, c: string, d: string)
    ensures a + b + c + d == a + (b + (c + d))
  {}

  lemma Closed(a: string, b: string, c: string, d: string)
    ensures a + b + c + d == a + (b + c + d)
  {}

  lemma SortedInside(entries: seq<Entry>, i: nat)
    requires i < |SortedByKey(entries)|
    ensures SortedByKey(entries)[i] in entries
  {
    SortedSame(entries);
  }

  method WriteMember(e: Entry, output: string) returns (out: string)
    ensures out == output + WriteEntry(Entry(e.key, Norm(e.value)))
    decreases e
  {
    out := output + Quoted(e.key);
    out := out + ":";
    out := WriteCanonicalJson(e.value, out);
    Closed(output, Quoted(e.key), ":", Write(Norm(e.value)));
  }

  method WriteObject(entries: seq<Entry>, output: string) returns (out: string)
    ensures out == output + Canonical(Obj(entries))
    decreases entries
  {
    out := output + "{";
    var sorted := SortByKey(entries);
    SortedNorm(entries);
    ghost var norm := NormEntries(sorted);
    assert norm[..0] == [];
    for i := 0 to |sorted|
      invariant out == output + "{" + WriteEntries(norm[..i])
    {
      SortedInside(entries, i);
      NormEntriesAt(sorted, i);
      WriteEntriesOn(norm[..i], norm[i]);
      assert norm[..i + 1] == norm[..i] + [norm[i]];
      Pushed(output + "{", WriteEntries(norm[..i]), Separator(i), WriteEntry(norm[i]));
      out := out + Separator(i);
      out := WriteMember(sorted[i], out);
    }
    assert norm[..|sorted|] == norm;
    out := out + "}";
    Closed(output, "{", WriteEntries(norm), "}");
  }

  // ----- The text determines the value -----------------------------------------------------------------

  lemma AscendingDistinct(entries: seq<Entry>)
    requires Ascending(entries)
    ensures DistinctKeys(entries)
  {
    forall i, j | 0 <= i < j < |entries| ensures entries[i].key != entries[j].key {
      LessIrreflexive(entries[i].key);
    }
  }

  lemma {:induction false} NormValid(v: Value)
    requires Valid(v)
    ensures Valid(Norm(v))
    decreases v
  {
    match v
    case Arr(items) =>
      forall i | 0 <= i < |items| ensures Valid(NormItems(items)[i]) {
        NormItemsAt(items, i);
        NormValid(items[i]);
      }
    case Obj(entries) =>
      NormEntriesDistinct(entries);
      SortedAscends(NormEntries(entries));
      AscendingDistinct(SortedByKey(NormEntries(entries)));
      forall i | 0 <= i < |entries| ensures Valid(Norm(entries[i].value)) {
        NormValid(entries[i].value);
      }
      SortedValid(entries, SortedByKey(NormEntries(entries)));
    case _ =>
  }

  lemma EntryValid(entries: seq<Entry>, x: Entry)
    requires x in SortedByKey(NormEntries(entries)) && forall i :: 0 <= i < |entries| ==> Valid(Norm(entries[i].value))
    ensures Valid(x.value)
  {
    NormMembers(entries);
    SortedSame(NormEntries(entries));
    assert Holds(entries, x);
  }

  lemma ObjectValid(entries: seq<Entry>)
    requires DistinctKeys(entries) && forall x :: x in entries ==> Valid(x.value)
    ensures Valid(Obj(entries))
  {
    forall i | 0 <= i < |entries| ensures Valid(entries[i].value) {
      assert entries[i] in entries;
    }
  }

  lemma SortedValid(entries: seq<Entry>, sorted: seq<Entry>)
    requires sorted == SortedByKey(NormEntries(entries)) && DistinctKeys(sorted)
    requires forall i :: 0 <= i < |entries| ==> Valid(Norm(entries[i].value))
    ensures Valid(Obj(sorted))
  {
    forall x | x in sorted ensures Valid(x.value) {
      EntryValid(entries, x);
    }
    ObjectValid(sorted);
  }

  /** Canonical text is the same exactly for the same value: key order never
      changes it, and a reader recovers the value from it. */
  lemma CanonicalIsFaithful(v: Value, w: Value)
    requires Valid(v) && Valid(w)
    ensures Canonical(v) == Canonical(w) <==> Same(v, w)
    ensures ReadValue(Canonical(v)) == Some((Norm(v), ""))
  {
    NormValid(v);
    NormValid(w);
    assert Write(Norm(v)) + "" == Write(Norm(v)) && Write(Norm(w)) + "" == Write(Norm(w));
    ReadWrite(Canonical(v), Norm(v), "");
    ReadWrite(Canonical(w), Norm(w), "");
    if Same(v, w) {
      SameNorm(v, w);
    }
    if Canonical(v) == Canonical(w) {
      NormSame(v, w);
    }
  }

  // ----- No NUL ------------------------------------------------------------------------------------------

  const NUL: char := 0 as char

  lemma EscapeNoNul(c: char)
    ensures NUL !in EscapeChar(c)
  {
    if |EscapeChar(c)| == 6 {
      Hex.DigitNibble(c as int / 16);
      Hex.DigitNibble(c as int % 16);
    }
  }

  lemma {:induction false} BodyNoNul(s: string)
    ensures NUL !in EscapeBody(s)
  {
    if s != "" {
      EscapeNoNul(s[0]);
      BodyNoNul(s[1..]);
    }
  }

  lemma QuotedNoNul(s: string)
    ensures NUL !in Quoted(s)
  {
    BodyNoNul(s);
  }

  lemma {:induction false} WriteNoNul(v: Value)
    requires Valid(v)
    ensures NUL !in Write(v)
    decreases v
  {
    match v
    case Str(s) => QuotedNoNul(s);
    case Arr(items) => ItemsNoNul(items);
    case Obj(entries) => EntriesNoNul(entries);
    case _ =>
  }

  lemma {:induction false} ItemsNoNul(items: seq<Value>)
    requires forall i :: 0 <= i < |items| ==> Valid(items[i])
    ensures NUL !in WriteItems(items)
    decreases items
  {
    if items != [] {
      WriteNoNul(items[0]);
      ItemsNoNul(items[1..]);
    }
  }

  lemma {:induction false} EntryNoNul(e: Entry)
    requires Valid(e.value)
    ensures NUL !in WriteEntry(e)
    decreases e
  {
    QuotedNoNul(e.key);
    WriteNoNul(e.value);
  }

  lemma {:induction false} EntriesNoNul(entries: seq<Entry>)
    requires forall i :: 0 <= i < |entries| ==> Valid(entries[i].value)
    ensures NUL !in WriteEntries(entries)
    decreases entries
  {
    if entries != [] {
      EntryNoNul(entries[0]);
      EntriesNoNul(entries[1..]);
    }
  }

  // ----- The preimage --------------------------------------------------------------------------------------

  const STRING_SOURCE_NAMESPACE := "kafkaman:string-source:v1"

  function Preimage(namespace: string, source: Value): string {
    namespace + [NUL] + Canonical(source)
  }

  function AfterLastNul(s: string): string {
    if NUL in s then AfterLastNul(s[1..]) else s
  }

  lemma {:induction false} AfterLastNulOf(a: string, b: string)
    requires NUL !in b
    ensures AfterLastNul(a + [NUL] + b) == b
  {
    var s := a + [NUL] + b;
    assert s[|a|] == NUL;
    if a == "" {
      assert s[1..] == b;
    } else {
      assert s[1..] == a[1..] + [NUL] + b;
      AfterLastNulOf(a[1..], b);
    }
  }

  /** The last NUL splits the two parts, whatever the namespaces contain. */
  lemma LastNulSplits(a: string, b: string, c: string, d: string)
    requires NUL !in b && NUL !in d && a + [NUL] + b == c + [NUL] + d
    ensures a == c && b == d
  {
    AfterLastNulOf(a, b);
    AfterLastNulOf(c, d);
    assert (a + [NUL] + b)[..|a|] == a && (c + [NUL] + d)[..|c|] == c;
  }

  /** Two hash preimages are equal exactly for one namespace and one source. */
  lemma PreimageInjective(ns: string, v: Value, other: string, w: Value)
    requires Valid(v) && Valid(w)
    ensures Preimage(ns, v) == Preimage(other, w) <==> ns == other && Same(v, w)
  {
    NormValid(v);
    NormValid(w);
    WriteNoNul(Norm(v));
    WriteNoNul(Norm(w));
    CanonicalIsFaithful(v, w);
    if Preimage(ns, v) == Preimage(other, w) {
      LastNulSplits(ns, Canonical(v), other, Canonical(w));
    }
  }

  datatype DeriveError = BlankNamespace | BlankSource

  /** Unicode White_Space, which `trim` removes. */
  predicate Whitespace(c: char) {
    var n := c as int;
    9 <= n <= 13 || n == 0x20 || n == 0x85 || n == 0xA0 || n == 0x1680 || 0x2000 <= n <= 0x200A
    || n == 0x2028 || n == 0x2029 || n == 0x202F || n == 0x205F || n == 0x3000
  }

  /** The twenty-five code points of the property. */
  lemma WhitespaceExactly(c: char)
    ensures Whitespace(c) <==>
              c as int in {9, 10, 11, 12, 13, 32, 133, 160, 5760, 8192, 8193, 8194, 8195, 8196, 8197, 8198, 8199, 8200,
                           8201, 8202, 8232, 8233, 8239, 8287, 12288}
  {}

  predicate BlankText(s: string) {
    forall i :: 0 <= i < |s| ==> Whitespace(s[i])
  }

  /** `derive`, for any digest. */
  function Derive(digest: string -> seq<Hex.byte>, namespace: string, source: Value): Result<seq<Hex.byte>, DeriveError> {
    if BlankText(namespace) then Failure(BlankNamespace) else Success(digest(Preimage(namespace, source)))
  }

  /** `derive_from_string`. */
  function DeriveFromString(digest: string -> seq<Hex.byte>, text: string): Result<seq<Hex.byte>, DeriveError> {
    if BlankText(text) then Failure(BlankSource) else Derive(digest, STRING_SOURCE_NAMESPACE, Str(text))
  }

  /** Under a digest without collisions, identities agree exactly when namespace
      and source do; and a bare string never shares a key with a source derived
      under any other namespace, nor with another string. */
  lemma IdentitiesAgree(digest: string -> seq<Hex.byte>, ns: string, v: Value, other: string, w: Value, text: string)
    requires Valid(v) && Valid(w) && !BlankText(ns) && !BlankText(other) && !BlankText(text)
    requires forall a, b :: digest(a) == digest(b) ==> a == b
    ensures Derive(digest, ns, v) == Derive(digest, other, w) <==> ns == other && Same(v, w)
    ensures DeriveFromString(digest, text) == Derive(digest, ns, v) <==> ns == STRING_SOURCE_NAMESPACE && v == Str(text)
  {
    PreimageInjective(ns, v, other, w);
    PreimageInjective(STRING_SOURCE_NAMESPACE, Str(text), ns, v);
    assert !Whitespace(STRING_SOURCE_NAMESPACE[0]);
  }
}
