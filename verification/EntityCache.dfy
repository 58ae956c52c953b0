/**
 The per-entity cache and its offset guard.

 Offsets compare only within one topic and partition, so an origin change is
 either authorised (the record is on the declared topic), ignored (a straggler
 from a retired topic) or an error.
 */
module EntityCache {
  import opened Wrappers

  type Entity = string
  type Payload = string

  /** A received snapshot as the cache sees it. */
  datatype Snapshot = Snapshot(topic: string, partition: int, offset: int, payload: Payload)

  datatype CacheRow = CacheRow(applied: Snapshot, deleted: bool)

  datatype Outcome = Applied | Ignored | Migrated

  datatype OriginMismatch = OriginMismatch(applied: Snapshot, incoming: Snapshot)

  /** The guarded upsert on one entity's cache row: the new row and what
      happened, or the origin mismatch that fails the received row. */
  function Upsert(current: Option<CacheRow>, r: Snapshot, declared: string): Result<(CacheRow, Outcome), OriginMismatch> {
    if current.None? then Success((CacheRow(r, false), Applied))
    else
      var c := current.value;
      var sameTopic := c.applied.topic == r.topic;
      if sameTopic && c.applied.partition == r.partition then
        if r.offset > c.applied.offset then Success((c.(applied := r), Applied)) else Success((c, Ignored))
      else if sameTopic then Failure(OriginMismatch(c.applied, r))
      else if r.topic == declared then Success((CacheRow(r, false), Migrated))
      else if c.applied.topic == declared then Success((c, Ignored))
      else Failure(OriginMismatch(c.applied, r))
  }

  /** The cache table, with the statements the dispatcher runs on it. */
  class CacheTable {
    var rows: map<Entity, CacheRow>

    constructor ()
      ensures rows == map[]
    {
      rows := map[];
    }

    /** `upsert_cache_from_received`: INSERT .. ON CONFLICT under the offset
        guard, then, when nothing was written, the classification. */
    method UpsertFromReceived(e: Entity, r: Snapshot, declared: string) returns (result: Result<Outcome, OriginMismatch>)
      modifies this
      ensures var spec := Upsert(if e in old(rows) then Some(old(rows)[e]) else None, r, declared);
              match spec
              case Success(done) => result == Success(done.1) && rows == old(rows)[e := done.0]
              case Failure(mismatch) => result == Failure(mismatch) && rows == old(rows)
    {
      var written := InsertOnConflict(e, r);
      if written {
        return Success(Applied);
      }
      result := ClassifySkipped(e, r, declared);
      assert result.Success? && result.value.Ignored? ==> rows == rows[e := rows[e]];
    }

    method InsertOnConflict(e: Entity, r: Snapshot) returns (written: bool)
      modifies this
      ensures written <==> e !in old(rows) || (old(rows)[e].applied.topic == r.topic
                           && old(rows)[e].applied.partition == r.partition && r.offset > old(rows)[e].applied.offset)
      ensures written && e !in old(rows) ==> rows == old(rows)[e := CacheRow(r, false)]
      ensures written && e in old(rows) ==> rows == old(rows)[e := old(rows)[e].(applied := r)]
      ensures !written ==> rows == old(rows)
    {
      if e !in rows {
        rows := rows[e := CacheRow(r, false)];
        return true;
      }
      var c := rows[e];
      written := c.applied.topic == r.topic && c.applied.partition == r.partition && r.offset > c.applied.offset;
      if written {
        rows := rows[e := c.(applied := r)];
      }
    }

    /** `classify_skipped_cache_apply`. */
    method ClassifySkipped(e: Entity, r: Snapshot, declared: string) returns (result: Result<Outcome, OriginMismatch>)
      requires e in rows
      requires rows[e].applied.topic == r.topic && rows[e].applied.partition == r.partition ==>
                 r.offset <= rows[e].applied.offset
      modifies this
      ensures var spec := Upsert(Some(old(rows)[e]), r, declared);
              match spec
              case Success(done) => result == Success(done.1) && rows == old(rows)[e := done.0]
              case Failure(mismatch) => result == Failure(mismatch) && rows == old(rows)
    {
      var c := rows[e].applied;
      if c.topic == r.topic && c.partition == r.partition {
        return Success(Ignored);
      }
      if c.topic == r.topic {
        return Failure(OriginMismatch(c, r));
      }
      if r.topic == declared {
        rows := rows[e := CacheRow(r, false)];
        return Success(Migrated);
      }
      if c.topic == declared {
        return Success(Ignored);
      }
      return Failure(OriginMismatch(c, r));
    }
  }

  // ----- Order independence ------------------------------------------------------

  /** Applying one entity's snapshots in the order given. */
  function ApplyAll(current: Option<CacheRow>, rs: seq<Snapshot>, declared: string): Result<Option<CacheRow>, OriginMismatch>
    decreases |rs|
  {
    if rs == [] then Success(current)
    else
      match Upsert(current, rs[0], declared)
      case Success(done) => ApplyAll(Some(done.0), rs[1..], declared)
      case Failure(m) => Failure(m)
  }

  /** One topic, one partition, one payload per offset. */
  ghost predicate Consistent(rs: iset<Snapshot>) {
    forall a, b :: a in rs && b in rs && a.topic == b.topic ==>
      a.partition == b.partition && (a.offset == b.offset ==> a == b)
  }

  /** Declared-topic records rank above retired-topic ones; offsets rank within a
      topic. */
  predicate AtLeast(a: Snapshot, b: Snapshot, declared: string) {
    if a.topic == b.topic then a.offset >= b.offset else a.topic == declared
  }

  ghost predicate Best(m: Snapshot, rs: seq<Snapshot>, declared: string) {
    m in rs && forall r :: r in rs ==> AtLeast(m, r, declared)
  }

  ghost predicate FromTopics(rs: iset<Snapshot>, declared: string, retired: string) {
    Consistent(rs) && forall r :: r in rs ==> r.topic == declared || r.topic == retired
  }

  ghost function Elements(rs: seq<Snapshot>): iset<Snapshot> {
    iset r | r in rs
  }

  /** One application over two topics never fails, keeps the better of the two
      records, and so never moves the cache backwards. */
  lemma UpsertKeepsBest(c: CacheRow, r: Snapshot, all: iset<Snapshot>, declared: string, retired: string)
    requires FromTopics(all, declared, retired) && c.applied in all && r in all
    ensures var u := Upsert(Some(c), r, declared);
            && u.Success?
            && u.value.0.applied == (if AtLeast(c.applied, r, declared) then c.applied else r)
            && AtLeast(u.value.0.applied, c.applied, declared) && AtLeast(u.value.0.applied, r, declared)
            && (u.value.1.Ignored? <==> AtLeast(c.applied, r, declared))
  {}

  lemma {:induction false} ApplyAllFrom(c: CacheRow, rs: seq<Snapshot>, all: iset<Snapshot>, declared: string, retired: string)
    requires FromTopics(all, declared, retired) && c.applied in all && forall r :: r in rs ==> r in all
    ensures var u := ApplyAll(Some(c), rs, declared);
            && u.Success? && u.value.Some?
            && Best(u.value.value.applied, [c.applied] + rs, declared)
    decreases |rs|
  {
    if rs != [] {
      UpsertKeepsBest(c, rs[0], all, declared, retired);
      var c1 := Upsert(Some(c), rs[0], declared).value.0;
      ApplyAllFrom(c1, rs[1..], all, declared, retired);
      var m := ApplyAll(Some(c), rs, declared).value.value.applied;
      assert Best(m, [c1.applied] + rs[1..], declared);
      forall r | r in [c.applied] + rs ensures AtLeast(m, r, declared) {
        BestTransitive(m, c1.applied, r, all, declared, retired);
      }
    }
  }

  lemma BestTransitive(m: Snapshot, c: Snapshot, r: Snapshot, all: iset<Snapshot>, declared: string, retired: string)
    requires FromTopics(all, declared, retired) && m in all && c in all && r in all
    ensures AtLeast(m, c, declared) && AtLeast(c, r, declared) ==> AtLeast(m, r, declared)
  {}

  /** Any order and any repeats: the records of the declared topic and of one
      retired topic never fail, and the cache ends at the greatest declared-topic
      offset if any was seen and otherwise at the greatest retired-topic offset. */
  lemma CacheEndsAtBest(rs: seq<Snapshot>, declared: string, retired: string)
    requires rs != [] && FromTopics(Elements(rs), declared, retired)
    ensures var u := ApplyAll(None, rs, declared);
            && u.Success? && u.value.Some?
            && Best(u.value.value.applied, rs, declared)
            && ((exists r :: r in rs && r.topic == declared) ==> u.value.value.applied.topic == declared)
  {
    ApplyAllFrom(CacheRow(rs[0], false), rs[1..], Elements(rs), declared, retired);
    assert [rs[0]] + rs[1..] == rs;
  }

  lemma {:induction false} NeverDeleted(c: CacheRow, rs: seq<Snapshot>, declared: string)
    requires !c.deleted && ApplyAll(Some(c), rs, declared).Success?
    ensures var u := ApplyAll(Some(c), rs, declared).value; u.Some? && !u.value.deleted
    decreases |rs|
  {
    if rs != [] {
      NeverDeleted(Upsert(Some(c), rs[0], declared).value.0, rs[1..], declared);
    }
  }

  /** Two deliveries of the same records, in any two orders and with any repeats,
      leave the same cache row. */
  lemma OrderIndependent(rs: seq<Snapshot>, qs: seq<Snapshot>, declared: string, retired: string)
    requires FromTopics(Elements(rs), declared, retired) && forall r :: r in rs <==> r in qs
    ensures ApplyAll(None, rs, declared) == ApplyAll(None, qs, declared)
  {
    assert (rs != [] ==> rs[0] in qs) && (qs != [] ==> qs[0] in rs);
    if rs != [] {
      assert Elements(rs) == Elements(qs);
      CacheEndsAtBest(rs, declared, retired);
      CacheEndsAtBest(qs, declared, retired);
      NeverDeleted(CacheRow(rs[0], false), rs[1..], declared);
      NeverDeleted(CacheRow(qs[0], false), qs[1..], declared);
    }
  }

  /** An in-place partition change always fails and leaves the row alone, after
      any delivery history that reached the declared topic; so does a record of
      the retired topic on a second partition while the cache still follows it. */
  lemma RepartitionAlwaysFails(rs: seq<Snapshot>, r: Snapshot, q: Snapshot, declared: string, retired: string)
    requires FromTopics(Elements(rs), declared, retired) && q in rs
    requires q.topic == r.topic && q.partition != r.partition
    requires q.topic == declared || forall s :: s in rs ==> s.topic == retired
    ensures var u := ApplyAll(None, rs, declared);
            u.Success? && u.value.Some? && Upsert(u.value, r, declared) == Failure(OriginMismatch(u.value.value.applied, r))
  {
    CacheEndsAtBest(rs, declared, retired);
  }
}
