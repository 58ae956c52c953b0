/**
 The rows of one outbox table and the effect of each SQL statement on them.

 Every function here is the effect of one statement on the committed table, with
 `SKIP LOCKED` and `LIMIT` turned into the set of rows the statement settled on.
 The statements themselves run in OutboxTable; the protocol that interleaves
 them is SendProtocol.
 */
module OutboxRows {
  import opened Wrappers

  type MessageId = nat
  type ClaimId = nat
  type Key = nat
  type Entity = string
  type Payload = string
  type Time = int

  datatype Status = Pending | Publishing | Published | Superseded | Failed

  /** The immutable part of a row: what the broker record will carry, and the
      `enqueue_order` the sequence assigned at INSERT. `key` is None only on the
      audit row of an enqueue that carried no idempotency identity. */
  datatype Message = Message(id: MessageId, key: Option<Key>, entity: Entity, order: nat, payload: Payload)

  datatype Claim = Claim(id: ClaimId, worker: string, expiresAt: Time)

  datatype Row = Row(msg: Message, status: Status, attempts: nat, nextAttemptAt: Time,
                     claim: Option<Claim>, createdAt: Time)

  type Table = map<MessageId, Row>

  /** A row a worker may still act on. */
  predicate Live(r: Row) {
    r.status.Pending? || r.status.Publishing?
  }

  predicate HeldBy(t: Table, id: MessageId, claim: ClaimId) {
    id in t && t[id].status.Publishing? && t[id].claim.Some? && t[id].claim.value.id == claim
  }

  /** The newest-pending, nothing-in-flight, due condition shared by the collapse
      statement and the first arm of the claim statement. */
  predicate DueNewest(t: Table, id: MessageId, now: Time) {
    && id in t
    && t[id].status.Pending?
    && t[id].nextAttemptAt <= now
    && (forall other :: other in t && t[other].msg.entity == t[id].msg.entity ==> !t[other].status.Publishing?)
    && (forall other :: other in t && t[other].msg.entity == t[id].msg.entity && t[other].status.Pending?
                        ==> t[other].msg.order <= t[id].msg.order)
  }

  predicate Expired(t: Table, id: MessageId, now: Time) {
    id in t && t[id].status.Publishing? && t[id].claim.Some? && t[id].claim.value.expiresAt <= now
  }

  predicate Claimable(t: Table, id: MessageId, now: Time) {
    DueNewest(t, id, now) || Expired(t, id, now)
  }

  /** Pending rows overtaken by one of `over`. */
  predicate Overtaken(t: Table, id: MessageId, over: set<MessageId>) {
    id in t && t[id].status.Pending? &&
    exists c :: c in over && c in t && t[c].msg.entity == t[id].msg.entity && t[id].msg.order < t[c].msg.order
  }

  function Stale(t: Table, over: set<MessageId>): set<MessageId> {
    set id | id in t && Overtaken(t, id, over)
  }

  function SupersededRow(r: Row): Row {
    r.(status := Superseded, claim := None)
  }

  function SupersedeRows(t: Table, ids: set<MessageId>): Table {
    map id | id in t :: if id in ids then SupersededRow(t[id]) else t[id]
  }

  /** `collapse_stale_pending_rows` over the window `over`. */
  function CollapseRows(t: Table, over: set<MessageId>): Table {
    SupersedeRows(t, Stale(t, over))
  }

  function ClaimedRow(r: Row, claim: Claim): Row {
    r.(status := Publishing, attempts := r.attempts + 1, claim := Some(claim))
  }

  /** `claim_batch`: candidates become Publishing and, in the same snapshot,
      their pending predecessors become Superseded. */
  function ClaimRows(t: Table, chosen: set<MessageId>, claim: Claim): Table {
    map id | id in t ::
      if id in chosen then ClaimedRow(t[id], claim)
      else if Overtaken(t, id, chosen) then SupersededRow(t[id])
      else t[id]
  }

  /** `mark_published`, fenced by the claim generation. */
  function MarkPublishedRows(t: Table, id: MessageId, claim: ClaimId): Table {
    if HeldBy(t, id, claim) then t[id := t[id].(status := Published, claim := None)] else t
  }

  /** `mark_publish_failed`, fenced the same way. */
  function MarkFailedRows(t: Table, id: MessageId, claim: ClaimId, retryAt: Time): Table {
    if HeldBy(t, id, claim)
    then t[id := t[id].(status := Pending, nextAttemptAt := retryAt, claim := None)]
    else t
  }

  predicate Purgeable(t: Table, id: MessageId, before: Time, includeFailed: bool) {
    && id in t
    && (t[id].status.Published? || t[id].status.Superseded? || (includeFailed && t[id].status.Failed?))
    && t[id].createdAt < before
  }

  /** `purge_outbox_once` over the victims it locked. */
  function PurgeRows(t: Table, victims: set<MessageId>): Table {
    t - victims
  }

  // ----- What the statements leave alone ---------------------------------------------------

  /** A lease that has not run out at `now` keeps its row exactly as it is. */
  ghost predicate LeasesKept(was: Table, rows: Table, now: Time) {
    forall id :: id in was && was[id].status.Publishing? && was[id].claim.Some? && now < was[id].claim.value.expiresAt ==>
      id in rows && rows[id] == was[id]
  }

  /** A row whose next attempt is ahead of `now` is not taken into flight. */
  ghost predicate NoneEarly(was: Table, rows: Table, now: Time) {
    forall id :: id in was && was[id].status.Pending? && now < was[id].nextAttemptAt ==>
      id in rows && !rows[id].status.Publishing?
  }

  /** Whatever set of candidates a claim settles on, live leases and rows not yet due
      are left alone. */
  lemma ClaimLeavesAlone(rows: Table, chosen: set<MessageId>, claim: Claim, now: Time)
    requires forall id :: id in chosen ==> Claimable(rows, id, now)
    ensures LeasesKept(rows, ClaimRows(rows, chosen, claim), now) && NoneEarly(rows, ClaimRows(rows, chosen, claim), now)
  {}

  lemma CollapseLeavesAlone(rows: Table, over: set<MessageId>, now: Time)
    ensures LeasesKept(rows, CollapseRows(rows, over), now) && NoneEarly(rows, CollapseRows(rows, over), now)
    ensures forall id :: id in rows && rows[id].status.Publishing? ==> CollapseRows(rows, over)[id] == rows[id]
  {}

  /** Only terminal rows from before the cutoff go, Failed ones only on request; every
      other row stays as it is. */
  ghost predicate OnlyOldTerminalGone(was: Table, rows: Table, before: Time, includeFailed: bool) {
    && (forall id :: id in rows ==> id in was && rows[id] == was[id])
    && (forall id :: id in was && (Live(was[id]) || before <= was[id].createdAt) ==> id in rows)
    && (forall id :: id in was && was[id].status.Failed? && !includeFailed ==> id in rows)
  }

  lemma PurgeLeavesAlone(rows: Table, victims: set<MessageId>, before: Time, includeFailed: bool)
    requires forall id :: id in victims ==> Purgeable(rows, id, before, includeFailed)
    ensures OnlyOldTerminalGone(rows, PurgeRows(rows, victims), before, includeFailed)
  {}

  // ----- What the statements keep --------------------------------------------------------

  ghost predicate OrdersDistinct(rows: Table) {
    forall a, b :: a in rows && b in rows && a != b ==> rows[a].msg.order != rows[b].msg.order
  }

  /** At most one row per entity is in flight, and it is older than everything
      pending. */
  ghost predicate OneInFlight(rows: Table) {
    forall a, b :: a in rows && b in rows && a != b && rows[a].msg.entity == rows[b].msg.entity
                   && rows[a].status.Publishing? ==>
      !rows[b].status.Publishing? && (rows[b].status.Pending? ==> rows[a].msg.order < rows[b].msg.order)
  }

  /** Statements that only take rows out of Pending or Publishing keep one row in
      flight. */
  lemma OneInFlightShrinks(a: Table, b: Table)
    requires OneInFlight(a)
    requires forall id :: id in b ==>
               && id in a && b[id].msg == a[id].msg
               && (b[id].status.Publishing? ==> a[id].status.Publishing?)
               && (b[id].status.Pending? ==> a[id].status.Pending?)
    ensures OneInFlight(b)
  {}

  /** The claim leaves at most one row of an entity in flight: a pending candidate
      excludes any in-flight sibling and is newer than every pending one, and an
      expired candidate was the one in flight already. */
  lemma ClaimOneInFlight(rows: Table, chosen: set<MessageId>, claim: Claim, now: Time)
    requires OneInFlight(rows) && OrdersDistinct(rows)
    requires forall id :: id in chosen ==> Claimable(rows, id, now)
    ensures OneInFlight(ClaimRows(rows, chosen, claim))
  {
    var b := ClaimRows(rows, chosen, claim);
    forall x, y | x in b && y in b && x != y && b[x].msg.entity == b[y].msg.entity && b[x].status.Publishing?
      ensures !b[y].status.Publishing? && (b[y].status.Pending? ==> b[x].msg.order < b[y].msg.order)
    {
      if x in chosen && rows[x].status.Pending? {
        assert DueNewest(rows, x, now);
        assert rows[y].status.Pending? ==> Overtaken(rows, y, chosen) && !DueNewest(rows, y, now);
      } else {
        assert rows[x].status.Publishing?;
        assert !DueNewest(rows, y, now);
      }
    }
  }
}
