/**
 One outbox table as the library's statements change it, each method one
 transaction. The protocol modules take the same statements apart and interleave
 them.
 */
module OutboxTable {
  import opened Wrappers
  import opened OutboxRows
  import opened Selection

  datatype MarkOutcome = Updated | StaleClaim | Missing

  datatype EnqueueError = MissingIdempotencyKey | DuplicateMessageId

  /** Rows are stored under their message id, orders come from the sequence and
      name one row, claims are on in-flight rows, one of which per entity. */
  ghost predicate RowShape(id: MessageId, r: Row, sequence: nat) {
    r.msg.id == id && r.msg.order < sequence && (r.claim.Some? <==> r.status.Publishing?)
  }

  ghost predicate Shaped(rows: Table, sequence: nat) {
    forall id :: id in rows ==> RowShape(id, rows[id], sequence)
  }

  ghost predicate Sound(rows: Table, sequence: nat) {
    Shaped(rows, sequence) && OrdersDistinct(rows) && OneInFlight(rows)
  }

  function OrderOf(rows: Table, id: MessageId): int {
    if id in rows then rows[id].msg.order else 0
  }

  function CreatedOf(rows: Table, id: MessageId): Time {
    if id in rows then rows[id].createdAt else 0
  }

  function ByOrder(rows: Table): (MessageId, MessageId) -> bool {
    (a: MessageId, b: MessageId) => OrderOf(rows, a) <= OrderOf(rows, b)
  }

  function ByCreated(rows: Table): (MessageId, MessageId) -> bool {
    (a: MessageId, b: MessageId) => CreatedOf(rows, a) <= CreatedOf(rows, b)
  }

  function Pendings(rows: Table, e: Entity): set<MessageId> {
    set id | id in rows && rows[id].msg.entity == e && rows[id].status.Pending?
  }

  function Window(rows: Table, now: Time): set<MessageId> {
    set id | id in rows && DueNewest(rows, id, now)
  }

  function Candidates(rows: Table, now: Time, locked: set<MessageId>): set<MessageId> {
    set id | id in rows && Claimable(rows, id, now) && id !in locked
  }

  function Victims(rows: Table, before: Time, includeFailed: bool, locked: set<MessageId>): set<MessageId> {
    set id | id in rows && Purgeable(rows, id, before, includeFailed) && id !in locked
  }

  function Ids(page: seq<MessageId>): set<MessageId> {
    set id | id in page
  }

  ghost predicate SameMessages(a: Table, b: Table) {
    forall id :: id in b ==> id in a && b[id].msg == a[id].msg
  }

  lemma SameDistinct(a: Table, b: Table)
    requires OrdersDistinct(a) && SameMessages(a, b)
    ensures OrdersDistinct(b)
  {}

  lemma SupersedeSound(rows: Table, sequence: nat, ids: set<MessageId>)
    requires Sound(rows, sequence) && forall id :: id in ids && id in rows ==> rows[id].status.Pending?
    ensures Sound(SupersedeRows(rows, ids), sequence)
  {
    var b := SupersedeRows(rows, ids);
    forall id | id in b ensures RowShape(id, b[id], sequence) {
      assert RowShape(id, rows[id], sequence);
    }
    SameDistinct(rows, b);
    OneInFlightShrinks(rows, b);
  }

  lemma ClaimSound(rows: Table, sequence: nat, chosen: set<MessageId>, claim: Claim, now: Time)
    requires Sound(rows, sequence) && forall id :: id in chosen ==> Claimable(rows, id, now)
    ensures Sound(ClaimRows(rows, chosen, claim), sequence)
  {
    var b := ClaimRows(rows, chosen, claim);
    forall id | id in b ensures RowShape(id, b[id], sequence) {
      assert RowShape(id, rows[id], sequence);
    }
    SameDistinct(rows, b);
    ClaimOneInFlight(rows, chosen, claim, now);
  }

  lemma MarkSound(rows: Table, sequence: nat, id: MessageId, row: Row)
    requires Sound(rows, sequence) && id in rows && rows[id].status.Publishing? && row.msg == rows[id].msg
    requires !row.status.Publishing? && row.claim.None?
    ensures Sound(rows[id := row], sequence)
  {
    var b := rows[id := row];
    forall i | i in b ensures RowShape(i, b[i], sequence) {
      assert RowShape(i, rows[i], sequence);
    }
    SameDistinct(rows, b);
  }

  /** `id` is the only pending row of its entity and ahead of every other row;
      the entity's earlier pending rows are superseded, and nothing else changed. */
  ghost predicate Accepted(was: Table, rows: Table, id: MessageId, msg: Message, now: Time) {
    && rows.Keys == was.Keys + {id} && rows[id] == Row(msg, Pending, 0, now, None, now)
    && Pendings(rows, msg.entity) == {id}
    && (forall other :: other in was ==> other != id && rows[other].msg.order < msg.order)
    && (forall other :: other in was ==>
          rows[other] == if was[other].msg.entity == msg.entity && was[other].status.Pending?
                         then SupersededRow(was[other]) else was[other])
  }

  lemma InsertSound(rows: Table, sequence: nat, id: MessageId, row: Row)
    requires Sound(rows, sequence) && id !in rows && row.msg.id == id && row.msg.order == sequence
    requires row.claim.None? && !row.status.Publishing?
    requires row.status.Pending? ==> Pendings(rows, row.msg.entity) == {}
    ensures Sound(rows[id := row], sequence + 1)
  {
    var b := rows[id := row];
    forall i | i in b ensures RowShape(i, b[i], sequence + 1) {
      assert i in rows ==> RowShape(i, rows[i], sequence);
    }
    forall x, y | x in b && y in b && x != y ensures b[x].msg.order != b[y].msg.order {
      assert x in rows ==> RowShape(x, rows[x], sequence);
      assert y in rows ==> RowShape(y, rows[y], sequence);
    }
    forall x | x in rows ensures rows[x].msg.order < sequence {
      assert RowShape(x, rows[x], sequence);
    }
  }

  /** A rolled-back insert still draws from the sequence. */
  lemma SequenceOn(rows: Table, sequence: nat)
    requires Sound(rows, sequence)
    ensures Sound(rows, sequence + 1)
  {
    forall id | id in rows ensures RowShape(id, rows[id], sequence + 1) {
      assert RowShape(id, rows[id], sequence);
    }
  }

  /** The table after an accepted enqueue. */
  function EnqueuedRows(rows: Table, msg: Message, now: Time): Table {
    SupersedeRows(rows, Pendings(rows, msg.entity))[msg.id := Row(msg, Pending, 0, now, None, now)]
  }

  lemma AcceptSound(rows: Table, sequence: nat, id: MessageId, msg: Message, now: Time)
    requires Sound(rows, sequence) && id !in rows && msg.id == id && msg.order == sequence
    ensures Sound(EnqueuedRows(rows, msg, now), sequence + 1)
    ensures Accepted(rows, EnqueuedRows(rows, msg, now), id, msg, now)
  {
    var b := SupersedeRows(rows, Pendings(rows, msg.entity));
    SupersedeSound(rows, sequence, Pendings(rows, msg.entity));
    assert Pendings(b, msg.entity) == {};
    InsertSound(b, sequence, id, Row(msg, Pending, 0, now, None, now));
    forall other | other in rows ensures rows[other].msg.order < sequence {
      assert RowShape(other, rows[other], sequence);
    }
  }

  /** Two claimable rows are never of one entity. */
  lemma ClaimableApart(rows: Table, sequence: nat, a: MessageId, b: MessageId, now: Time)
    requires Sound(rows, sequence) && a != b && Claimable(rows, a, now) && Claimable(rows, b, now)
    ensures rows[a].msg.entity != rows[b].msg.entity
  {
    assert rows[a].msg.order != rows[b].msg.order;
  }

  /** A publish batch: in strictly increasing enqueue order, so also without
      repeats, every row in flight under the claim, and no two of one entity. */
  ghost predicate Batch(rows: Table, claimed: seq<Row>, claim: ClaimId) {
    && (forall i :: 0 <= i < |claimed| ==>
          HeldBy(rows, claimed[i].msg.id, claim) && rows[claimed[i].msg.id] == claimed[i])
    && (forall i, j :: 0 <= i < j < |claimed| ==>
          claimed[i].msg.order < claimed[j].msg.order && claimed[i].msg.entity != claimed[j].msg.entity)
  }

  lemma PageIsBatch(rows: Table, sequence: nat, page: seq<MessageId>, claim: Claim, now: Time, claimed: seq<Row>)
    requires Sound(rows, sequence) && Ordered(ByOrder(rows), page)
    requires forall id :: id in page ==> Claimable(rows, id, now)
    requires |claimed| == |page|
    requires var taken := ClaimRows(rows, Ids(page), claim);
             forall i :: 0 <= i < |page| ==> page[i] in taken && claimed[i] == taken[page[i]]
    ensures Batch(ClaimRows(rows, Ids(page), claim), claimed, claim.id)
    ensures forall i :: 0 <= i < |page| ==>
              claimed[i].msg.id == page[i] && claimed[i].attempts == rows[page[i]].attempts + 1
  {
    forall i | 0 <= i < |page| ensures claimed[i] == ClaimedRow(rows[page[i]], claim) && claimed[i].msg.id == page[i] {
      assert page[i] in Ids(page) && RowShape(page[i], rows[page[i]], sequence);
    }
    forall i, j | 0 <= i < j < |claimed|
      ensures claimed[i].msg.order < claimed[j].msg.order && claimed[i].msg.entity != claimed[j].msg.entity
    {
      ClaimableApart(rows, sequence, page[i], page[j], now);
      assert ByOrder(rows)(page[i], page[j]);
    }
  }

  /** Nothing locked is taken; every unlocked row whose lease ran out, and every due pending row with nothing of
      its entity in flight or pending after it, is in the page, unless that is full
      of rows enqueued earlier. */
  ghost predicate NoneForgotten(rows: Table, page: seq<MessageId>, limit: nat, now: Time, locked: set<MessageId>) {
    && (forall x :: x in page ==> x !in locked)
    && (forall id :: id in rows && id !in locked && id !in page && Waiting(rows, id, now) ==>
          |page| == limit && forall x :: x in page ==> x in rows && rows[x].msg.order < rows[id].msg.order)
  }

  ghost predicate Waiting(rows: Table, id: MessageId, now: Time)
    requires id in rows
  {
    || (rows[id].status.Publishing? && rows[id].claim.Some? && rows[id].claim.value.expiresAt <= now)
    || (&& rows[id].status.Pending? && rows[id].nextAttemptAt <= now
        && forall other :: other in rows && other != id && rows[other].msg.entity == rows[id].msg.entity ==>
             && !rows[other].status.Publishing?
             && (rows[other].status.Pending? ==> rows[other].msg.order < rows[id].msg.order))
  }

  lemma PageForgetsNone(rows: Table, page: seq<MessageId>, limit: nat, now: Time, locked: set<MessageId>)
    requires OrdersDistinct(rows) && FirstPage(page, Candidates(rows, now, locked), limit, ByOrder(rows))
    ensures NoneForgotten(rows, page, limit, now, locked)
  {
    assert forall x :: x in page ==> x in Candidates(rows, now, locked);
    forall id | id in rows && id !in locked && id !in page && Waiting(rows, id, now)
      ensures |page| == limit && forall x :: x in page ==> x in rows && rows[x].msg.order < rows[id].msg.order
    {
      assert Claimable(rows, id, now) && id in Candidates(rows, now, locked);
      forall x | x in page ensures x in rows && rows[x].msg.order < rows[id].msg.order {
        assert ByOrder(rows)(x, id) && x in Candidates(rows, now, locked);
      }
    }
  }

  lemma ClaimLeft(was: Table, over: set<MessageId>, chosen: set<MessageId>, claim: Claim, now: Time)
    requires forall id :: id in chosen ==> Claimable(CollapseRows(was, over), id, now)
    ensures LeasesKept(was, ClaimRows(CollapseRows(was, over), chosen, claim), now)
    ensures NoneEarly(was, ClaimRows(CollapseRows(was, over), chosen, claim), now)
  {
    CollapseLeavesAlone(was, over, now);
    ClaimLeavesAlone(CollapseRows(was, over), chosen, claim, now);
  }

  /** Nothing locked is deleted, and every unlocked terminal row from before the cutoff
      is, unless the batch is full of rows created no later. */
  ghost predicate OldestSwept(rows: Table, victims: seq<MessageId>, batchSize: nat, before: Time, includeFailed: bool,
                              locked: set<MessageId>) {
    && (forall x :: x in victims ==> x !in locked)
    && (forall id :: id in rows && id !in locked && id !in victims && Terminal(rows[id], includeFailed)
                     && rows[id].createdAt < before ==>
          |victims| == batchSize && forall x :: x in victims ==> x in rows && rows[x].createdAt <= rows[id].createdAt)
  }

  predicate Terminal(r: Row, includeFailed: bool) {
    match r.status
    case Published => true
    case Superseded => true
    case Failed => includeFailed
    case _ => false
  }

  lemma SweepTakesOldest(rows: Table, victims: seq<MessageId>, batchSize: nat, before: Time, includeFailed: bool,
                         locked: set<MessageId>)
    requires FirstPage(victims, Victims(rows, before, includeFailed, locked), batchSize, ByCreated(rows))
    ensures OldestSwept(rows, victims, batchSize, before, includeFailed, locked)
  {
    assert forall x :: x in victims ==> x in Victims(rows, before, includeFailed, locked);
    forall id | id in rows && id !in locked && id !in victims && Terminal(rows[id], includeFailed)
                && rows[id].createdAt < before
      ensures |victims| == batchSize && forall x :: x in victims ==> x in rows && rows[x].createdAt <= rows[id].createdAt
    {
      assert id in Victims(rows, before, includeFailed, locked);
      forall x | x in victims ensures x in rows && rows[x].createdAt <= rows[id].createdAt {
        assert ByCreated(rows)(x, id) && x in Victims(rows, before, includeFailed, locked);
      }
    }
  }

  method Fetch(rows: Table, ids: seq<MessageId>) returns (fetched: seq<Row>)
    requires forall id :: id in ids ==> id in rows
    ensures |fetched| == |ids| && forall i :: 0 <= i < |ids| ==> fetched[i] == rows[ids[i]]
  {
    fetched := [];
    for i := 0 to |ids|
      invariant |fetched| == i && forall j :: 0 <= j < i ==> fetched[j] == rows[ids[j]]
    {
      fetched := fetched + [rows[ids[i]]];
    }
  }

  class Outbox {
    var rows: Table
    var sequence: nat

    ghost predicate Valid()
      reads this
    {
      Sound(rows, sequence)
    }

    constructor ()
      ensures Valid() && rows == map[]
    {
      rows, sequence := map[], 0;
    }

    /** `enqueue`: without an idempotency identity an audit row is kept and the
        call fails; otherwise the entity's pending rows are superseded and the new
        row becomes the only pending one, ahead of every other row. */
    method Enqueue(id: MessageId, key: Option<Key>, entity: Entity, payload: Payload, now: Time)
      returns (r: Result<(), EnqueueError>)
      requires Valid()
      modifies this
      ensures Valid()
      ensures r == (if id in old(rows) then Failure(DuplicateMessageId)
                    else if key.None? then Failure(MissingIdempotencyKey)
                    else Success(()))
      ensures var msg := Message(id, key, entity, old(sequence), payload);
              match r
              case Success(_) => rows == EnqueuedRows(old(rows), msg, now) && Accepted(old(rows), rows, id, msg, now)
              case Failure(MissingIdempotencyKey) => rows == old(rows)[id := Row(msg, Failed, 0, now, None, now)]
              case Failure(DuplicateMessageId) => rows == old(rows)
      ensures sequence == old(sequence) + 1
    {
      var msg := Message(id, key, entity, sequence, payload);
      sequence := sequence + 1;
      if id in rows {
        SequenceOn(rows, sequence - 1);
        return Failure(DuplicateMessageId);
      }
      if key.None? {
        var audit := Row(msg, Failed, 0, now, None, now);
        InsertSound(rows, sequence - 1, id, audit);
        rows := rows[id := audit];
        return Failure(MissingIdempotencyKey);
      }
      AcceptSound(rows, sequence - 1, id, msg, now);
      rows := SupersedeRows(rows, Pendings(rows, entity));
      rows := rows[id := Row(msg, Pending, 0, now, None, now)];
      return Success(());
    }

    /** `collapse_stale_pending_rows`: a bounded window of due, newest pending rows
        drives the cleanup of what they overtook. */
    method CollapseStalePending(limit: nat, now: Time) returns (window: seq<MessageId>)
      requires Valid()
      modifies this`rows
      ensures Valid()
      ensures FirstPage(window, Window(old(rows), now), limit, ByOrder(old(rows)))
      ensures rows == CollapseRows(old(rows), Ids(window))
    {
      window := TakeFirst(Window(rows, now), limit, ByOrder(rows));
      SupersedeSound(rows, sequence, Stale(rows, Ids(window)));
      rows := CollapseRows(rows, Ids(window));
    }

    /** `claim_batch`: after the collapse, the first `limit` claimable rows nobody
        has locked become one batch under the new claim, and their pending
        predecessors are superseded with them. Leases that have not run out and
        rows not yet due are left alone. */
    method ClaimBatch(worker: string, claim: ClaimId, expiresAt: Time, limit: nat, now: Time, locked: set<MessageId>)
      returns (claimed: seq<Row>, ghost window: seq<MessageId>, ghost page: seq<MessageId>)
      requires Valid()
      modifies this`rows
      ensures Valid() && Batch(rows, claimed, claim) && |claimed| <= limit
      ensures FirstPage(window, Window(old(rows), now), limit, ByOrder(old(rows)))
      ensures var collapsed := CollapseRows(old(rows), Ids(window));
              && FirstPage(page, Candidates(collapsed, now, locked), limit, ByOrder(collapsed))
              && rows == ClaimRows(collapsed, Ids(page), Claim(claim, worker, expiresAt))
              && |claimed| == |page| && forall i :: 0 <= i < |page| ==>
                   claimed[i].msg.id == page[i] && claimed[i].attempts == collapsed[page[i]].attempts + 1
      ensures LeasesKept(old(rows), rows, now) && NoneEarly(old(rows), rows, now)
      ensures NoneForgotten(CollapseRows(old(rows), Ids(window)), page, limit, now, locked)
    {
      ghost var was := rows;
      window := CollapseStalePending(limit, now);
      var collapsed, lease := rows, Claim(claim, worker, expiresAt);
      var chosen := TakeFirst(Candidates(collapsed, now, locked), limit, ByOrder(collapsed));
      page := chosen;
      ClaimSound(collapsed, sequence, Ids(page), lease, now);
      rows := ClaimRows(collapsed, Ids(chosen), lease);
      claimed := Fetch(rows, chosen);
      PageIsBatch(collapsed, sequence, page, lease, now, claimed);
      PageForgetsNone(collapsed, page, limit, now, locked);
      ClaimLeft(was, Ids(window), Ids(page), lease, now);
    }

    /** `mark_miss_outcome`. */
    method MarkMiss(id: MessageId) returns (outcome: MarkOutcome)
      ensures outcome == if id in rows then StaleClaim else Missing
    {
      outcome := if id in rows then StaleClaim else Missing;
    }

    /** `mark_published`: only the claim generation that still holds the row moves
        it, and the outcome tells a lost claim from a deleted row. */
    method MarkPublished(id: MessageId, claim: ClaimId) returns (outcome: MarkOutcome)
      requires Valid()
      modifies this`rows
      ensures Valid() && rows == MarkPublishedRows(old(rows), id, claim)
      ensures outcome == if HeldBy(old(rows), id, claim) then Updated else if id in old(rows) then StaleClaim else Missing
    {
      if id in rows && rows[id].status.Publishing? && rows[id].claim.Some? && rows[id].claim.value.id == claim {
        MarkSound(rows, sequence, id, rows[id].(status := Published, claim := None));
        rows := rows[id := rows[id].(status := Published, claim := None)];
        outcome := Updated;
      } else {
        outcome := MarkMiss(id);
      }
    }

    /** `mark_publish_failed`. */
    method MarkPublishFailed(id: MessageId, claim: ClaimId, retryAt: Time) returns (outcome: MarkOutcome)
      requires Valid()
      modifies this`rows
      ensures Valid() && rows == MarkFailedRows(old(rows), id, claim, retryAt)
      ensures outcome == if HeldBy(old(rows), id, claim) then Updated else if id in old(rows) then StaleClaim else Missing
    {
      if id in rows && rows[id].status.Publishing? && rows[id].claim.Some? && rows[id].claim.value.id == claim {
        MarkSound(rows, sequence, id, rows[id].(status := Pending, nextAttemptAt := retryAt, claim := None));
        rows := rows[id := rows[id].(status := Pending, nextAttemptAt := retryAt, claim := None)];
        outcome := Updated;
      } else {
        outcome := MarkMiss(id);
      }
    }

    /** `purge_outbox_once`: one bounded batch of the oldest terminal rows nobody
        has locked, and nothing else. */
    method PurgeOnce(before: Time, includeFailed: bool, batchSize: nat, locked: set<MessageId>)
      returns (deleted: nat, ghost victims: seq<MessageId>)
      requires Valid()
      modifies this`rows
      ensures Valid() && rows == PurgeRows(old(rows), Ids(victims)) && deleted == |victims| == |Ids(victims)|
      ensures FirstPage(victims, Victims(old(rows), before, includeFailed, locked), batchSize, ByCreated(old(rows)))
      ensures OnlyOldTerminalGone(old(rows), rows, before, includeFailed)
      ensures OldestSwept(old(rows), victims, batchSize, before, includeFailed, locked)
    {
      var chosen := TakeFirst(Victims(rows, before, includeFailed, locked), batchSize, ByCreated(rows));
      PageSize(chosen, ByCreated(rows));
      OneInFlightShrinks(rows, PurgeRows(rows, Ids(chosen)));
      PurgeLeavesAlone(rows, Ids(chosen), before, includeFailed);
      SweepTakesOldest(rows, chosen, batchSize, before, includeFailed, locked);
      rows := PurgeRows(rows, Ids(chosen));
      deleted, victims := |chosen|, chosen;
    }
  }

  lemma {:induction false} PageSize(page: seq<MessageId>, le: (MessageId, MessageId) -> bool)
    requires Ordered(le, page)
    ensures |Ids(page)| == |page|
  {
    if page != [] {
      var rest := page[..|page| - 1];
      PageSize(rest, le);
      assert Ids(page) == Ids(rest) + {page[|page| - 1]};
    }
  }
}
