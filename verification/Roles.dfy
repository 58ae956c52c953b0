/**
 Role declarations: which are accepted, and the tables they imply. A descriptor is
 its message type and topic.
 */
module Roles {
  import opened Wrappers
  import opened Changelog

  datatype Role = Publish | CacheRole | Handle | HandleBefore

  datatype Declaration = Declaration(messageType: string, topic: string, role: Role)

  datatype RoleEntry = RoleEntry(topic: string, publish: bool, cache: bool, handle: bool, handleBefore: bool)

  datatype Rejection =
    | ConflictingMessageType(messageType: string)
    | ConflictingRole(messageType: string, existing: Role, added: Role)

  predicate Consumes(e: RoleEntry) {
    e.cache || e.handle || e.handleBefore
  }

  function ConsumingRole(e: RoleEntry): Option<Role> {
    if e.cache then Some(CacheRole)
    else if e.handle then Some(Handle)
    else if e.handleBefore then Some(HandleBefore)
    else None
  }

  /** Two declarations that may stand together: one topic per type, `cache` with
      no handler, and one handler per position. Either may come first. */
  predicate Compatible(a: Declaration, b: Declaration) {
    a.messageType == b.messageType ==>
      && a.topic == b.topic
      && (a.role == CacheRole ==> b.role == CacheRole || b.role == Publish)
      && (b.role == CacheRole ==> a.role == CacheRole || a.role == Publish)
      && !(a.role == Handle && b.role == Handle)
      && !(a.role == HandleBefore && b.role == HandleBefore)
  }

  /** Declarations that may stand together, in any order: every two of them are
      compatible, counting repeats. */
  ghost predicate Consistent(declared: multiset<Declaration>) {
    && (forall a, b :: a in declared && b in declared && a != b ==> Compatible(a, b))
    && (forall a :: a in declared && !Compatible(a, a) ==> declared[a] == 1)
  }

  ghost predicate Has(declared: multiset<Declaration>, messageType: string, role: Role) {
    exists d :: d in declared && d.messageType == messageType && d.role == role
  }

  ghost predicate HasType(declared: multiset<Declaration>, messageType: string) {
    exists d :: d in declared && d.messageType == messageType
  }

  ghost predicate EntryReflects(e: RoleEntry, declared: multiset<Declaration>, t: string) {
    && e.publish == Has(declared, t, Publish) && e.cache == Has(declared, t, CacheRole)
    && e.handle == Has(declared, t, Handle) && e.handleBefore == Has(declared, t, HandleBefore)
  }

  ghost predicate TypeReflected(entries: map<string, RoleEntry>, declared: multiset<Declaration>, t: string) {
    (t in entries <==> HasType(declared, t)) && (t in entries ==> EntryReflects(entries[t], declared, t))
  }

  ghost predicate TopicsReflected(entries: map<string, RoleEntry>, declared: multiset<Declaration>) {
    forall d :: d in declared ==> d.messageType in entries && entries[d.messageType].topic == d.topic
  }

  /** The registry says of each type exactly what was declared. */
  ghost predicate Reflects(entries: map<string, RoleEntry>, declared: multiset<Declaration>) {
    TopicsReflected(entries, declared) && forall t :: TypeReflected(entries, declared, t)
  }

  /** What was declared determines the registry. */
  lemma ReflectsUnique(a: map<string, RoleEntry>, b: map<string, RoleEntry>, declared: multiset<Declaration>)
    requires Reflects(a, declared) && Reflects(b, declared)
    ensures a == b
  {
    forall t ensures (t in a <==> t in b) && (t in a ==> a[t] == b[t]) {
      assert TypeReflected(a, declared, t) && TypeReflected(b, declared, t);
      if t in a {
        var d :| d in declared && d.messageType == t;
        assert a[t].topic == d.topic && b[t].topic == d.topic;
      }
    }
  }

  lemma ConsistentOn(declared: multiset<Declaration>, d: Declaration)
    ensures Consistent(declared + multiset{d}) <==>
              Consistent(declared) && AllCompatible(declared, d)
  {
    var more := declared + multiset{d};
    assert forall a :: a in more <==> a in declared || a == d;
    assert forall a :: a != d ==> more[a] == declared[a];
    assert more[d] == declared[d] + 1;
  }

  /** The flag a role sets. */
  function WithRole(e: RoleEntry, role: Role): RoleEntry {
    match role
    case Publish => e.(publish := true)
    case CacheRole => e.(cache := true)
    case Handle => e.(handle := true)
    case HandleBefore => e.(handleBefore := true)
  }

  lemma HasOn(declared: multiset<Declaration>, d: Declaration, t: string, role: Role)
    ensures Has(declared + multiset{d}, t, role) <==> Has(declared, t, role) || (d.messageType == t && d.role == role)
    ensures HasType(declared + multiset{d}, t) <==> HasType(declared, t) || d.messageType == t
  {
    var more := declared + multiset{d};
    assert forall a :: a in more <==> a in declared || a == d;
  }

  function EntryOf(entries: map<string, RoleEntry>, d: Declaration): RoleEntry {
    if d.messageType in entries then entries[d.messageType] else RoleEntry(d.topic, false, false, false, false)
  }

  lemma TypeReflectedOn(entries: map<string, RoleEntry>, declared: multiset<Declaration>, d: Declaration, t: string)
    requires TypeReflected(entries, declared, t)
    ensures TypeReflected(entries[d.messageType := WithRole(EntryOf(entries, d), d.role)], declared + multiset{d}, t)
  {
    HasOn(declared, d, t, Publish);
    HasOn(declared, d, t, CacheRole);
    HasOn(declared, d, t, Handle);
    HasOn(declared, d, t, HandleBefore);
    if t !in entries {
      NoRole(declared, t);
    }
  }

  lemma NoRole(declared: multiset<Declaration>, t: string)
    requires !HasType(declared, t)
    ensures forall role :: !Has(declared, t, role)
  {}

  lemma ReflectsOn(entries: map<string, RoleEntry>, declared: multiset<Declaration>, d: Declaration)
    requires Reflects(entries, declared)
    requires d.messageType in entries ==> entries[d.messageType].topic == d.topic
    ensures Reflects(entries[d.messageType := WithRole(EntryOf(entries, d), d.role)], declared + multiset{d})
  {
    var more, all := entries[d.messageType := WithRole(EntryOf(entries, d), d.role)], declared + multiset{d};
    forall t ensures TypeReflected(more, all, t) {
      assert TypeReflected(entries, declared, t);
      TypeReflectedOn(entries, declared, d, t);
    }
  }

  ghost predicate AllCompatible(declared: multiset<Declaration>, d: Declaration) {
    forall a :: a in declared ==> Compatible(a, d)
  }

  /** What `declare` finds wrong with a role, given its type's entry. */
  function Objection(e: RoleEntry, d: Declaration): Option<Rejection> {
    if e.topic != d.topic then Some(ConflictingMessageType(d.messageType))
    else
      match d.role
      case Publish => None
      case CacheRole =>
        var existing := ConsumingRole(e);
        if existing.Some? && existing.value != CacheRole
        then Some(ConflictingRole(d.messageType, existing.value, CacheRole)) else None
      case Handle =>
        if e.cache then Some(ConflictingRole(d.messageType, CacheRole, Handle))
        else if e.handle then Some(ConflictingRole(d.messageType, Handle, Handle))
        else None
      case HandleBefore =>
        if e.cache then Some(ConflictingRole(d.messageType, CacheRole, HandleBefore))
        else if e.handleBefore then Some(ConflictingRole(d.messageType, HandleBefore, HandleBefore))
        else None
  }

  lemma CacheAlone(declared: multiset<Declaration>, t: string)
    requires Consistent(declared) && Has(declared, t, CacheRole)
    ensures !Has(declared, t, Handle) && !Has(declared, t, HandleBefore)
  {
    var c :| c in declared && c.messageType == t && c.role == CacheRole;
    forall d | d in declared && d.messageType == t ensures d.role != Handle && d.role != HandleBefore {
      assert c == d || Compatible(c, d);
    }
  }

  /** A registry that reflects consistent declarations refuses exactly what one of
      them is incompatible with. */
  lemma RefusesExactly(entries: map<string, RoleEntry>, declared: multiset<Declaration>, d: Declaration)
    requires Consistent(declared) && Reflects(entries, declared)
    ensures AllCompatible(declared, d) <==> Objection(EntryOf(entries, d), d).None?
  {
    assert TypeReflected(entries, declared, d.messageType);
    if d.messageType !in entries {
      NoRole(declared, d.messageType);
    } else if entries[d.messageType].cache {
      CacheAlone(declared, d.messageType);
    }
  }

  lemma DeclareStep(entries: map<string, RoleEntry>, declared: multiset<Declaration>, d: Declaration)
    requires Consistent(declared) && Reflects(entries, declared)
    ensures AllCompatible(declared, d) <==> Objection(EntryOf(entries, d), d).None?
    ensures Objection(EntryOf(entries, d), d).None? ==>
              && Consistent(declared + multiset{d})
              && Reflects(entries[d.messageType := WithRole(EntryOf(entries, d), d.role)], declared + multiset{d})
  {
    RefusesExactly(entries, declared, d);
    ConsistentOn(declared, d);
    if Objection(EntryOf(entries, d), d).None? {
      ReflectsOn(entries, declared, d);
    }
  }

  class RoleRegistry {
    var entries: map<string, RoleEntry>
    ghost var declared: multiset<Declaration>

    ghost predicate Valid()
      reads this
    {
      Consistent(declared) && Reflects(entries, declared)
    }

    constructor ()
      ensures Valid() && entries == map[] && declared == multiset{}
    {
      entries := map[];
      declared := multiset{};
    }

    /** `declare`: accepted exactly when it is compatible with everything accepted
        so far; a refusal changes nothing. */
    method Declare(d: Declaration) returns (r: Result<(), Rejection>)
      requires Valid()
      modifies this
      ensures Valid()
      ensures r.Success? <==> AllCompatible(old(declared), d)
      ensures var objection := Objection(EntryOf(old(entries), d), d);
              if objection.Some? then r == Failure(objection.value) && entries == old(entries)
              else r == Success(()) && entries == old(entries)[d.messageType := WithRole(EntryOf(old(entries), d), d.role)]
      ensures r.Success? ==> declared == old(declared) + multiset{d}
      ensures r.Failure? ==> declared == old(declared)
    {
      DeclareStep(entries, declared, d);
      var entry := EntryOf(entries, d);
      var objection := Objection(entry, d);
      if objection.Some? {
        return Failure(objection.value);
      }
      entries := entries[d.messageType := WithRole(entry, d.role)];
      declared := declared + multiset{d};
      return Success(());
    }
  }

  // ----- Whole declaration sequences ------------------------------------------------------------------

  /** Declaring one after the other, in the order given. */
  function DeclaredFrom(entries: map<string, RoleEntry>, decls: seq<Declaration>): Option<map<string, RoleEntry>>
    decreases |decls|
  {
    if decls == [] then Some(entries)
    else
      var d := decls[0];
      if Objection(EntryOf(entries, d), d).Some? then None
      else DeclaredFrom(entries[d.messageType := WithRole(EntryOf(entries, d), d.role)], decls[1..])
  }

  lemma DeclaredNext(entries: map<string, RoleEntry>, decls: seq<Declaration>, i: nat)
    requires i < |decls|
    ensures var d := decls[i];
            DeclaredFrom(entries, decls[i..]) ==
            if Objection(EntryOf(entries, d), d).Some? then None
            else DeclaredFrom(entries[d.messageType := WithRole(EntryOf(entries, d), d.role)], decls[i + 1..])
  {
    assert decls[i..][1..] == decls[i + 1..];
  }

  lemma ConsistentPart(declared: multiset<Declaration>, more: multiset<Declaration>)
    requires Consistent(declared + more)
    ensures Consistent(declared)
  {
    var all := declared + more;
    assert forall a :: a in declared ==> a in all && declared[a] <= all[a];
  }

  lemma {:induction false} DeclaredFromExactly(entries: map<string, RoleEntry>, declared: multiset<Declaration>,
                                               decls: seq<Declaration>)
    requires Consistent(declared) && Reflects(entries, declared)
    ensures DeclaredFrom(entries, decls).Some? <==> Consistent(declared + multiset(decls))
    ensures DeclaredFrom(entries, decls).Some? ==>
              Reflects(DeclaredFrom(entries, decls).value, declared + multiset(decls))
    decreases |decls|
  {
    if decls == [] {
      assert declared + multiset(decls) == declared;
    } else {
      var d, rest := decls[0], decls[1..];
      assert decls == [d] + rest;
      assert declared + multiset(decls) == declared + multiset{d} + multiset(rest);
      DeclareStep(entries, declared, d);
      ConsistentOn(declared, d);
      if Objection(EntryOf(entries, d), d).None? {
        DeclaredFromExactly(entries[d.messageType := WithRole(EntryOf(entries, d), d.role)], declared + multiset{d}, rest);
      } else if Consistent(declared + multiset(decls)) {
        ConsistentPart(declared + multiset{d}, multiset(rest));
      }
    }
  }

  function DeclaredAll(decls: seq<Declaration>): Option<map<string, RoleEntry>> {
    DeclaredFrom(map[], decls)
  }

  /** A sequence is accepted exactly when its declarations are consistent, and the
      registry then says exactly what was declared. */
  lemma DeclaredExactly(decls: seq<Declaration>)
    ensures DeclaredAll(decls).Some? <==> Consistent(multiset(decls))
    ensures DeclaredAll(decls).Some? ==> Reflects(DeclaredAll(decls).value, multiset(decls))
  {
    DeclaredFromExactly(map[], multiset{}, decls);
    assert multiset{} + multiset(decls) == multiset(decls);
  }

  method DeclareAll(decls: seq<Declaration>) returns (r: Option<map<string, RoleEntry>>)
    ensures r == DeclaredAll(decls)
  {
    var registry := new RoleRegistry();
    assert decls[0..] == decls;
    for i := 0 to |decls|
      invariant registry.Valid() && DeclaredFrom(registry.entries, decls[i..]) == DeclaredAll(decls)
    {
      DeclaredNext(registry.entries, decls, i);
      var declared := registry.Declare(decls[i]);
      if declared.Failure? {
        return None;
      }
    }
    return Some(registry.entries);
  }

  /** The tables a set of declarations needs. */
  ghost predicate Needs(declared: multiset<Declaration>, t: Table) {
    if t.kind.Outbox? then Has(declared, t.messageType, Publish)
    else Has(declared, t.messageType, CacheRole) || Has(declared, t.messageType, Handle)
         || Has(declared, t.messageType, HandleBefore)
  }

  function TablesFor(entries: map<string, RoleEntry>, t: string): seq<Table>
    requires t in entries
  {
    (if entries[t].publish then [Table(Outbox, t)] else [])
    + (if Consumes(entries[t]) then [Table(Received, t), Table(Cache, t)] else [])
  }

  predicate InTables(entries: map<string, RoleEntry>, t: Table) {
    t.messageType in entries && t in TablesFor(entries, t.messageType)
  }

  /** `tables`. */
  method Tables(entries: map<string, RoleEntry>) returns (tables: seq<Table>)
    ensures forall t :: t in tables <==> InTables(entries, t)
  {
    tables := [];
    var left := entries.Keys;
    while left != {}
      invariant left <= entries.Keys
      invariant forall t :: t in tables <==> InTables(entries, t) && t.messageType !in left
      decreases left
    {
      var messageType :| messageType in left;
      assert forall t :: t in TablesFor(entries, messageType) ==> t.messageType == messageType;
      tables := tables + TablesFor(entries, messageType);
      left := left - {messageType};
    }
  }

  lemma TablesNeeded(entries: map<string, RoleEntry>, declared: multiset<Declaration>, t: Table)
    requires Reflects(entries, declared)
    ensures InTables(entries, t) <==> Needs(declared, t)
  {
    assert TypeReflected(entries, declared, t.messageType);
    if t.messageType !in entries {
      NoRole(declared, t.messageType);
    }
  }

  ghost predicate AllNeeded(tables: set<Table>, declared: multiset<Declaration>) {
    forall t :: t in tables <==> Needs(declared, t)
  }

  /** Declarations to changelog, in one go. */
  method Schema(decls: seq<Declaration>, band: Table -> nat)
    returns (r: Option<Result<seq<Changeset>, Error>>, ghost tables: set<Table>)
    ensures r.Some? <==> DeclaredAll(decls).Some?
    ensures r.Some? ==>
              && AllNeeded(tables, multiset(decls)) && (r.value.Success? <==> Distinct(tables, band))
              && (r.value.Success? ==> IsChangelog(r.value.value, tables, band))
              && (r.value.Failure? ==> r.value.error.BandCollision?)
  {
    tables := {};
    var entries := DeclareAll(decls);
    DeclaredExactly(decls);
    if entries.None? {
      return None, {};
    }
    var list := Tables(entries.value);
    tables := TableSet(list);
    forall t ensures t in tables <==> Needs(multiset(decls), t) {
      TablesNeeded(entries.value, multiset(decls), t);
    }
    var built := Build(list, band);
    r := Some(built);
  }

  /** The same declarations in another order: both refused, or both accepted with
      one registry; the same bands collide; and when both changelogs exist they are
      one changelog. */
  lemma OrderIndependent(a: seq<Declaration>, b: seq<Declaration>, band: Table -> nat, s: set<Table>, t: set<Table>,
                         one: seq<Changeset>, other: seq<Changeset>)
    requires multiset(a) == multiset(b) && AllNeeded(s, multiset(a)) && AllNeeded(t, multiset(b))
    ensures DeclaredAll(a) == DeclaredAll(b)
    ensures Distinct(s, band) <==> Distinct(t, band)
    ensures IsChangelog(one, s, band) && IsChangelog(other, t, band) ==> one == other
  {
    DeclaredExactly(a);
    DeclaredExactly(b);
    if DeclaredAll(a).Some? {
      ReflectsUnique(DeclaredAll(a).value, DeclaredAll(b).value, multiset(a));
    }
    assert s == t by {
      forall x ensures x in s <==> x in t {
        assert x in s <==> Needs(multiset(a), x);
      }
    }
    if IsChangelog(one, s, band) && IsChangelog(other, t, band) {
      ChangelogUnique(one, other, s, band);
    }
  }
}
