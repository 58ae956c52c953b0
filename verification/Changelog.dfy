/**
 The generated changelog: which versions the tables of a service get, and in what
 order they are applied. The digest a band is cut from is taken as given.
 */
module Changelog {
  import opened Wrappers
  import VersionOrder

  const RESERVED_CEILING: nat := 1_000
  const BAND_WIDTH: nat := 1_024

  datatype TableKind = Outbox | Received | Cache

  datatype Table = Table(kind: TableKind, messageType: string)

  datatype Changeset = InitSchema | Create(table: Table, band: nat) | AddEnqueueOrder(table: Table, band: nat)

  datatype Error = BandCollision(band: nat, first: Table, second: Table) | Disorder(error: VersionOrder.OrderError)

  function Version(c: Changeset): nat {
    match c
    case InitSchema => 1
    case Create(_, band) => RESERVED_CEILING + band * BAND_WIDTH
    case AddEnqueueOrder(_, band) => RESERVED_CEILING + band * BAND_WIDTH + 1
  }

  /** `band_of`. */
  function BandOf(version: nat): nat
    requires version >= RESERVED_CEILING
  {
    (version - RESERVED_CEILING) / BAND_WIDTH
  }

  // ----- Bands ----------------------------------------------------------------------------------

  function BigEndian(bytes: seq<nat>): nat {
    if bytes == [] then 0 else BigEndian(bytes[..|bytes| - 1]) * 256 + bytes[|bytes| - 1]
  }

  /** `band`: a 40-bit number, which is the digest's first five bytes. */
  method Band(digest: seq<nat>) returns (band: nat)
    requires |digest| == 32 && forall i :: 0 <= i < |digest| ==> digest[i] < 256
    ensures band == BigEndian(digest[..5]) && band < 0x100_0000_0000
  {
    var raw := 0;
    for i := 0 to 8
      invariant raw == BigEndian(digest[..i])
    {
      assert digest[..i + 1][..i] == digest[..i];
      raw := raw * 256 + digest[i];
    }
    LeadingBytes(digest);
    band := raw / 0x100_0000;
  }

  lemma LeadingBytes(digest: seq<nat>)
    requires |digest| >= 8 && forall i :: 0 <= i < |digest| ==> digest[i] < 256
    ensures BigEndian(digest[..8]) / 0x100_0000 == BigEndian(digest[..5]) < 0x100_0000_0000
  {
    forall n | 0 < n <= 8 ensures BigEndian(digest[..n]) == BigEndian(digest[..n - 1]) * 256 + digest[n - 1] {
      assert digest[..n][..n - 1] == digest[..n - 1];
    }
    assert BigEndian(digest[..1]) < 0x100;
    assert BigEndian(digest[..2]) < 0x1_0000;
    assert BigEndian(digest[..3]) < 0x100_0000;
    assert BigEndian(digest[..4]) < 0x1_0000_0000;
    var low := digest[5] * 0x1_0000 + digest[6] * 0x100 + digest[7];
    assert BigEndian(digest[..8]) == BigEndian(digest[..5]) * 0x100_0000 + low;
  }

  // ----- Order ----------------------------------------------------------------------------------

  function Versions(log: seq<Changeset>): (versions: seq<int>)
    ensures |versions| == |log|
    ensures forall i {:trigger versions[i]} {:trigger log[i]} :: 0 <= i < |log| ==> versions[i] == Version(log[i])
  {
    seq(|log|, i requires 0 <= i < |log| => Version(log[i]))
  }

  ghost predicate Ascending(log: seq<Changeset>) {
    VersionOrder.Ascending(Versions(log))
  }

  lemma HeadIsLeast(a: seq<Changeset>, c: Changeset)
    requires Ascending(a) && c in a
    ensures c == a[0] || Version(a[0]) < Version(c)
  {}

  lemma TailHolds(a: seq<Changeset>)
    requires Ascending(a) && a != []
    ensures forall c :: c in a[1..] <==> c in a && c != a[0]
  {
    assert a == [a[0]] + a[1..];
    forall c | c in a[1..] ensures c != a[0] {
      var k :| 0 <= k < |a| - 1 && a[1..][k] == c;
      assert a[k + 1] == c;
    }
  }

  /** Two ascending changelogs of the same changesets are one changelog. */
  lemma {:induction false} AscendingUnique(a: seq<Changeset>, b: seq<Changeset>)
    requires Ascending(a) && Ascending(b) && forall c :: c in a <==> c in b
    ensures a == b
  {
    assert b != [] ==> b[0] in a;
    if a != [] {
      assert a[0] in b;
      HeadIsLeast(a, b[0]);
      HeadIsLeast(b, a[0]);
      TailHolds(a);
      TailHolds(b);
      AscendingUnique(a[1..], b[1..]);
      assert a == [a[0]] + a[1..] && b == [b[0]] + b[1..];
    }
  }

  // ----- Sorting -----------------------------------------------------------------------------------

  function Inserted(c: Changeset, sorted: seq<Changeset>): seq<Changeset> {
    if sorted == [] then [c]
    else if Version(sorted[0]) <= Version(c) then [sorted[0]] + Inserted(c, sorted[1..])
    else [c] + sorted
  }

  lemma {:induction false} InsertedHolds(c: Changeset, sorted: seq<Changeset>)
    ensures forall x :: x in Inserted(c, sorted) <==> x == c || x in sorted
  {
    if sorted != [] && Version(sorted[0]) <= Version(c) {
      InsertedHolds(c, sorted[1..]);
      assert sorted == [sorted[0]] + sorted[1..];
    }
  }

  lemma AscendingTail(log: seq<Changeset>)
    requires Ascending(log) && log != []
    ensures Ascending(log[1..]) && forall x :: x in log[1..] ==> Version(log[0]) < Version(x)
  {
    forall i | 0 <= i < |log| - 1 ensures log[1..][i] == log[i + 1] && Version(log[0]) < Version(log[i + 1]) {
      assert Versions(log)[0] < Versions(log)[i + 1];
    }
    forall i, j | 0 <= i < j < |log| - 1 ensures Versions(log[1..])[i] < Versions(log[1..])[j] {
      assert Versions(log)[i + 1] < Versions(log)[j + 1];
    }
  }

  lemma AscendingCons(c: Changeset, tail: seq<Changeset>)
    requires Ascending(tail) && forall x :: x in tail ==> Version(c) < Version(x)
    ensures Ascending([c] + tail)
  {
    var log := [c] + tail;
    forall i, j | 0 <= i < j < |log| ensures Versions(log)[i] < Versions(log)[j] {
      assert log[j] == tail[j - 1] && tail[j - 1] in tail;
      if i > 0 {
        assert Versions(tail)[i - 1] < Versions(tail)[j - 1];
      }
    }
  }

  lemma {:induction false} InsertedAscends(c: Changeset, sorted: seq<Changeset>)
    requires Ascending(sorted) && forall x :: x in sorted ==> Version(x) != Version(c)
    ensures Ascending(Inserted(c, sorted))
  {
    if sorted != [] {
      AscendingTail(sorted);
      assert sorted == [sorted[0]] + sorted[1..];
      if Version(sorted[0]) <= Version(c) {
        InsertedAscends(c, sorted[1..]);
        InsertedHolds(c, sorted[1..]);
        AscendingCons(sorted[0], Inserted(c, sorted[1..]));
      } else {
        AscendingCons(c, sorted);
      }
    }
  }

  method SortByVersion(generated: seq<Changeset>) returns (sorted: seq<Changeset>)
    requires forall i, j :: 0 <= i < j < |generated| ==> Version(generated[i]) != Version(generated[j])
    ensures Ascending(sorted) && forall c :: c in sorted <==> c in generated
  {
    sorted := [];
    for i := 0 to |generated|
      invariant Ascending(sorted) && forall c :: c in sorted <==> c in generated[..i]
    {
      forall x | x in sorted ensures Version(x) != Version(generated[i]) {
        var k :| 0 <= k < i && generated[..i][k] == x;
        assert generated[k] == x;
      }
      InsertedHolds(generated[i], sorted);
      InsertedAscends(generated[i], sorted);
      assert generated[..i + 1] == generated[..i] + [generated[i]];
      sorted := Inserted(generated[i], sorted);
    }
    assert generated[..|generated|] == generated;
  }

  // ----- Generation ------------------------------------------------------------------------------------

  /** The create changeset at slot 0, and the outbox's upgrade at slot 1. */
  function ChangesetsFor(t: Table, band: nat): seq<Changeset> {
    if t.kind.Outbox? then [Create(t, band), AddEnqueueOrder(t, band)] else [Create(t, band)]
  }

  predicate IsFor(c: Changeset, t: Table, band: nat) {
    c == Create(t, band) || (t.kind.Outbox? && c == AddEnqueueOrder(t, band))
  }

  function TableSet(tables: seq<Table>): set<Table> {
    set t | t in tables
  }

  ghost predicate Distinct(tables: set<Table>, band: Table -> nat) {
    forall t, u :: t in tables && u in tables && band(t) == band(u) ==> t == u
  }

  ghost predicate Implied(c: Changeset, tables: set<Table>, band: Table -> nat) {
    !c.InitSchema? && c.table in tables && IsFor(c, c.table, band(c.table))
  }

  /** The schema changeset first, then exactly the tables' changesets, ascending. */
  ghost predicate IsChangelog(log: seq<Changeset>, tables: set<Table>, band: Table -> nat) {
    Ascending(log) && forall c :: c in log <==> c == InitSchema || Implied(c, tables, band)
  }

  /** One set of tables has at most one changelog, whatever order they came in. */
  lemma ChangelogUnique(a: seq<Changeset>, b: seq<Changeset>, tables: set<Table>, band: Table -> nat)
    requires IsChangelog(a, tables, band) && IsChangelog(b, tables, band)
    ensures a == b
  {
    AscendingUnique(a, b);
  }

  /** It starts at version 1, stays below 2^51, and a version names its band. */
  lemma ChangelogVersions(log: seq<Changeset>, tables: set<Table>, band: Table -> nat, i: nat)
    requires IsChangelog(log, tables, band) && i < |log| && forall t :: t in tables ==> band(t) < 0x100_0000_0000
    ensures log[0] == InitSchema && Version(log[i]) < 0x8_0000_0000_0000
    ensures i > 0 ==> Version(log[i]) >= RESERVED_CEILING && BandOf(Version(log[i])) == band(log[i].table)
  {
    assert InitSchema in log;
    HeadIsLeast(log, InitSchema);
    assert log[0] in log && log[i] in log;
  }

  /** Each table is created at version 1000 + 1024 * band, and an outbox upgraded at the
      one after, so later in every changelog. */
  lemma CreateBeforeUpgrade(log: seq<Changeset>, tables: set<Table>, band: Table -> nat, t: Table) returns (i: nat, j: nat)
    requires IsChangelog(log, tables, band) && t in tables
    ensures i < |log| && log[i] == Create(t, band(t)) && Versions(log)[i] == 1000 + 1024 * band(t)
    ensures t.kind.Outbox? ==>
              i < j < |log| && log[j] == AddEnqueueOrder(t, band(t)) && Versions(log)[j] == 1001 + 1024 * band(t)
    ensures !t.kind.Outbox? ==> forall k :: 0 <= k < |log| && !log[k].InitSchema? && log[k].table == t ==> k == i
  {
    assert Create(t, band(t)) in log;
    i :| 0 <= i < |log| && log[i] == Create(t, band(t));
    j := i;
    if t.kind.Outbox? {
      assert AddEnqueueOrder(t, band(t)) in log;
      j :| 0 <= j < |log| && log[j] == AddEnqueueOrder(t, band(t));
    } else {
      forall k | 0 <= k < |log| && !log[k].InitSchema? && log[k].table == t ensures k == i {
        assert log[k] in log && log[k] == log[i];
      }
    }
  }

  /** Versions of different tables' changesets differ when their bands do. */
  lemma VersionsApart(c: Changeset, d: Changeset)
    requires !c.InitSchema? && !d.InitSchema? && Version(c) == Version(d)
    ensures c.band == d.band && (c.Create? <==> d.Create?)
  {
    assert BandOf(Version(c)) == c.band && BandOf(Version(d)) == d.band;
  }

  ghost predicate Owned(owners: map<nat, Table>, done: set<Table>, band: Table -> nat) {
    && (forall t :: t in done ==> band(t) in owners && owners[band(t)] == t)
    && (forall b :: b in owners ==> owners[b] in done && band(owners[b]) == b)
  }

  ghost predicate GeneratedFrom(generated: seq<Changeset>, done: set<Table>, band: Table -> nat) {
    && (forall i, j :: 0 <= i < j < |generated| ==> Version(generated[i]) != Version(generated[j]))
    && (forall c :: c in generated <==> Implied(c, done, band))
  }

  lemma GeneratedOn(generated: seq<Changeset>, done: set<Table>, band: Table -> nat, owners: map<nat, Table>, t: Table)
    requires Owned(owners, done, band) && GeneratedFrom(generated, done, band) && band(t) !in owners
    ensures GeneratedFrom(generated + ChangesetsFor(t, band(t)), done + {t}, band)
    ensures Owned(owners[band(t) := t], done + {t}, band)
  {
    var more := ChangesetsFor(t, band(t));
    var all := generated + more;
    forall i, j | 0 <= i < j < |all| ensures Version(all[i]) != Version(all[j]) {
      if i < |generated| <= j {
        assert all[i] in generated;
        if Version(all[i]) == Version(all[j]) {
          VersionsApart(all[i], all[j]);
        }
      }
    }
    forall c ensures c in all <==> Implied(c, done + {t}, band) {
      assert c in all <==> c in generated || c in more;
    }
  }

  method Checked(log: seq<Changeset>) returns (r: Result<seq<Changeset>, Error>)
    ensures r.Success? <==> Ascending(log)
    ensures r.Success? ==> r.value == log
    ensures r.Failure? ==> r.error.Disorder?
  {
    var error := VersionOrder.AssertOrder(Versions(log));
    r := if error.Some? then Failure(Disorder(error.value)) else Success(log);
  }

  /** `build_changelog_with_bands`: two tables sharing a band always collide, and
      otherwise the result is the one changelog of the set of tables. */
  method Build(tables: seq<Table>, band: Table -> nat) returns (r: Result<seq<Changeset>, Error>)
    ensures r.Success? <==> Distinct(TableSet(tables), band)
    ensures r.Success? ==> IsChangelog(r.value, TableSet(tables), band)
    ensures r.Failure? ==>
              && r.error.BandCollision? && r.error.first in tables && r.error.second in tables
              && r.error.first != r.error.second && band(r.error.first) == band(r.error.second) == r.error.band
  {
    var owners: map<nat, Table> := map[];
    var generated: seq<Changeset> := [];
    ghost var done: set<Table> := {};
    for i := 0 to |tables|
      invariant done == TableSet(tables[..i])
      invariant Owned(owners, done, band) && GeneratedFrom(generated, done, band)
    {
      var t := tables[i];
      var claimed := band(t);
      assert tables[..i + 1] == tables[..i] + [t];
      if claimed in owners {
        assert owners[claimed] in tables[..i];
        if owners[claimed] != t {
          return Failure(BandCollision(claimed, owners[claimed], t));
        }
        assert done + {t} == done;
      } else {
        GeneratedOn(generated, done, band, owners, t);
        owners := owners[claimed := t];
        generated := generated + ChangesetsFor(t, claimed);
      }
      done := done + {t};
    }
    assert tables[..|tables|] == tables;
    var sorted := SortByVersion(generated);
    InitFirst(sorted, done, band);
    r := Checked([InitSchema] + sorted);
  }

  lemma InitFirst(sorted: seq<Changeset>, tables: set<Table>, band: Table -> nat)
    requires Ascending(sorted) && forall c :: c in sorted <==> Implied(c, tables, band)
    ensures IsChangelog([InitSchema] + sorted, tables, band)
  {
    var log := [InitSchema] + sorted;
    forall i, j | 0 <= i < j < |log| ensures Version(log[i]) < Version(log[j]) {
      assert log[j] == sorted[j - 1] && sorted[j - 1] in sorted;
    }
  }
}
