/**
 One relay cycle: claim a batch, publish its rows one by one, and mark each with
 whatever became of it, while other workers do as they please.
 */
module Relay {
  import opened Wrappers
  import opened OutboxRows
  import opened OutboxTable
  import opened Selection

  datatype Stats = Stats(claimed: nat, published: nat, failed: nat, stale: nat, missing: nat)

  /** How a cycle turns out, by position in the batch: whether the publish is
      acknowledged, whether an unacknowledged record reached the log all the same,
      what everybody else does to the table meanwhile, and whether the mark
      statement itself errs. */
  datatype Cycle = Cycle(acked: nat -> bool, reached: nat -> bool, others: (nat, Table, nat) -> (Table, nat),
                         markErrs: nat -> bool)

  predicate Appends(cycle: Cycle, i: nat) {
    cycle.acked(i) || cycle.reached(i)
  }

  /** Others keep the table sound, and a row still held by this claim is one they
      left alone. */
  ghost predicate Lawful(cycle: Cycle, claim: ClaimId) {
    forall i: nat, rows: Table, sequence: nat :: LawfulAt(cycle, claim, i, rows, sequence)
  }

  ghost predicate LawfulAt(cycle: Cycle, claim: ClaimId, i: nat, rows: Table, sequence: nat) {
    Sound(rows, sequence) ==>
      var after := cycle.others(i, rows, sequence); Sound(after.0, after.1) && Loses(rows, after.0, claim)
  }

  /** From `a` to `b` the claim gains no row, and keeps what it still holds. */
  ghost predicate Loses(a: Table, b: Table, claim: ClaimId) {
    forall id :: HeldBy(b, id, claim) ==> HeldBy(a, id, claim) && b[id] == a[id]
  }

  function Counted(stats: Stats, acked: bool, outcome: MarkOutcome): Stats {
    match outcome
    case Updated => if acked then stats.(published := stats.published + 1) else stats.(failed := stats.failed + 1)
    case StaleClaim => stats.(stale := stats.stale + 1)
    case Missing => stats.(missing := stats.missing + 1)
  }

  function OutcomeAt(rows: Table, id: MessageId, claim: ClaimId): MarkOutcome {
    if HeldBy(rows, id, claim) then Updated else if id in rows then StaleClaim else Missing
  }

  function Marked(rows: Table, id: MessageId, claim: ClaimId, acked: bool, retryAt: Time): Table {
    if acked then MarkPublishedRows(rows, id, claim) else MarkFailedRows(rows, id, claim, retryAt)
  }

  /** The table and the counts part-way through a cycle. */
  datatype Books = Books(rows: Table, sequence: nat, stats: Stats)

  function Meanwhile(cycle: Cycle, b: Books, i: nat): Books {
    var after := cycle.others(i, b.rows, b.sequence);
    b.(rows := after.0, sequence := after.1)
  }

  /** The mark of row `i`, after whatever others did before it. */
  function MarkNext(cycle: Cycle, id: MessageId, claim: ClaimId, retryAt: Time, b: Books, i: nat): Books {
    var m := Meanwhile(cycle, b, i);
    Books(Marked(m.rows, id, claim, cycle.acked(i), retryAt), m.sequence,
          Counted(m.stats, cycle.acked(i), OutcomeAt(m.rows, id, claim)))
  }

  /** After the first `n` rows of the batch were published and marked. */
  function Worked(cycle: Cycle, batch: seq<Row>, claim: ClaimId, retryAt: Time, start: Books, n: nat): Books
    requires n <= |batch|
  {
    if n == 0 then start
    else MarkNext(cycle, batch[n - 1].msg.id, claim, retryAt, Worked(cycle, batch, claim, retryAt, start, n - 1), n - 1)
  }

  /** Where a cycle ends: through the batch, or at the first mark that errs, whose
      row was published all the same. */
  function Ended(cycle: Cycle, batch: seq<Row>, claim: ClaimId, retryAt: Time, start: Books, done: nat): Books
    requires done <= |batch|
  {
    var b := Worked(cycle, batch, claim, retryAt, start, done);
    if done < |batch| then Meanwhile(cycle, b, done) else b
  }

  ghost predicate FirstErr(cycle: Cycle, size: nat, done: nat) {
    (forall i :: 0 <= i < done ==> !cycle.markErrs(i)) && (done < size ==> cycle.markErrs(done))
  }

  function Reached(size: nat, done: nat): (n: nat)
    ensures done <= size ==> n <= size
  {
    if done < size then done + 1 else done
  }

  /** The records the first `n` publishes appended to the log. */
  function Sent(cycle: Cycle, claimed: seq<Row>, n: nat): seq<Message>
    requires n <= |claimed|
  {
    if n == 0 then []
    else Sent(cycle, claimed, n - 1) + if Appends(cycle, n - 1) then [claimed[n - 1].msg] else []
  }

  function Acks(cycle: Cycle, n: nat): nat {
    if n == 0 then 0 else Acks(cycle, n - 1) + if cycle.acked(n - 1) then 1 else 0
  }

  // ----- What any cycle guarantees ----------------------------------------------------------

  /** Every row worked on is counted once. */
  lemma {:induction false} WorkedConserves(cycle: Cycle, batch: seq<Row>, claim: ClaimId, retryAt: Time, start: Books, n: nat)
    requires n <= |batch|
    ensures var was, t := start.stats, Worked(cycle, batch, claim, retryAt, start, n).stats;
            && t.claimed == was.claimed
            && t.published + t.failed + t.stale + t.missing == was.published + was.failed + was.stale + was.missing + n
  {
    if n > 0 {
      WorkedConserves(cycle, batch, claim, retryAt, start, n - 1);
    }
  }

  /** What became of row `i` when its mark came: still held or not, and if not, still
      in the table or gone. */
  datatype Fate = Settles(acked: bool) | Stolen | Gone

  ghost predicate FateAt(cycle: Cycle, batch: seq<Row>, claim: ClaimId, retryAt: Time, start: Books, i: nat, fate: Fate)
    requires i < |batch|
  {
    var id, rows := batch[i].msg.id, Meanwhile(cycle, Worked(cycle, batch, claim, retryAt, start, i), i).rows;
    match fate
    case Settles(acked) => HeldBy(rows, id, claim) && cycle.acked(i) == acked
    case Stolen => id in rows && !HeldBy(rows, id, claim)
    case Gone => id !in rows
  }

  ghost function CountFates(cycle: Cycle, batch: seq<Row>, claim: ClaimId, retryAt: Time, start: Books, n: nat,
                            fate: Fate): nat
    requires n <= |batch|
  {
    if n == 0 then 0
    else CountFates(cycle, batch, claim, retryAt, start, n - 1, fate)
         + if FateAt(cycle, batch, claim, retryAt, start, n - 1, fate) then 1 else 0
  }

  /** Each count is of the rows with that fate: marked after an acknowledgement, marked
      after a failed publish, lost to another claim, deleted. */
  lemma {:induction false} WorkedCounts(cycle: Cycle, batch: seq<Row>, claim: ClaimId, retryAt: Time, start: Books, n: nat)
    requires n <= |batch|
    ensures var was, t := start.stats, Worked(cycle, batch, claim, retryAt, start, n).stats;
            && t.published == was.published + CountFates(cycle, batch, claim, retryAt, start, n, Settles(true))
            && t.failed == was.failed + CountFates(cycle, batch, claim, retryAt, start, n, Settles(false))
            && t.stale == was.stale + CountFates(cycle, batch, claim, retryAt, start, n, Stolen)
            && t.missing == was.missing + CountFates(cycle, batch, claim, retryAt, start, n, Gone)
  {
    if n > 0 {
      WorkedCounts(cycle, batch, claim, retryAt, start, n - 1);
    }
  }

  /** One cycle's records leave in strictly increasing enqueue order. */
  lemma {:induction false} SentInOrder(cycle: Cycle, claimed: seq<Row>, n: nat)
    requires n <= |claimed| && forall i, j :: 0 <= i < j < |claimed| ==> claimed[i].msg.order < claimed[j].msg.order
    ensures forall i, k :: 0 <= i < |Sent(cycle, claimed, n)| && n <= k < |claimed| ==>
              Sent(cycle, claimed, n)[i].order < claimed[k].msg.order
    ensures forall i, j :: 0 <= i < j < |Sent(cycle, claimed, n)| ==>
              Sent(cycle, claimed, n)[i].order < Sent(cycle, claimed, n)[j].order
  {
    if n > 0 {
      SentInOrder(cycle, claimed, n - 1);
    }
  }

  lemma MarkedSound(rows: Table, sequence: nat, id: MessageId, claim: ClaimId, acked: bool, retryAt: Time)
    requires Sound(rows, sequence)
    ensures Sound(Marked(rows, id, claim, acked, retryAt), sequence)
    ensures Loses(rows, Marked(rows, id, claim, acked, retryAt), claim)
    ensures !HeldBy(Marked(rows, id, claim, acked, retryAt), id, claim)
  {
    if HeldBy(rows, id, claim) {
      MarkSound(rows, sequence, id, rows[id].(status := Published, claim := None));
      MarkSound(rows, sequence, id, rows[id].(status := Pending, nextAttemptAt := retryAt, claim := None));
    }
  }

  lemma LosesOn(a: Table, b: Table, c: Table, claim: ClaimId)
    requires Loses(a, b, claim) && Loses(b, c, claim)
    ensures Loses(a, c, claim)
  {}

  lemma MeanwhileSound(cycle: Cycle, b: Books, i: nat, claim: ClaimId)
    requires Lawful(cycle, claim) && Sound(b.rows, b.sequence)
    ensures Sound(Meanwhile(cycle, b, i).rows, Meanwhile(cycle, b, i).sequence)
    ensures Loses(b.rows, Meanwhile(cycle, b, i).rows, claim)
  {
    assert LawfulAt(cycle, claim, i, b.rows, b.sequence);
  }

  ghost predicate SoundBooks(b: Books) {
    Sound(b.rows, b.sequence)
  }

  /** The books are sound, and what the claim still holds is as it was at `start`. */
  ghost predicate Kept(start: Table, b: Books, claim: ClaimId) {
    SoundBooks(b) && Loses(start, b.rows, claim)
  }

  lemma MarkNextReleases(cycle: Cycle, id: MessageId, claim: ClaimId, retryAt: Time, start: Table, b: Books, i: nat,
                         other: MessageId)
    requires Lawful(cycle, claim) && Kept(start, b, claim)
    ensures var b' := MarkNext(cycle, id, claim, retryAt, b, i);
            && Kept(start, b', claim) && !HeldBy(b'.rows, id, claim)
            && (HeldBy(b'.rows, other, claim) ==> HeldBy(b.rows, other, claim))
  {
    MeanwhileSound(cycle, b, i, claim);
    var m := Meanwhile(cycle, b, i);
    var after := Marked(m.rows, id, claim, cycle.acked(i), retryAt);
    MarkedSound(m.rows, m.sequence, id, claim, cycle.acked(i), retryAt);
    LosesOn(b.rows, m.rows, after, claim);
    LosesOn(start, b.rows, after, claim);
  }

  /** Whatever others do, no row the cycle got to is left in flight under its
      claim, and what the claim still holds it has not touched. */
  lemma {:induction false} WorkedReleases(cycle: Cycle, batch: seq<Row>, claim: ClaimId, retryAt: Time, start: Books, n: nat,
                                          j: nat)
    requires n <= |batch| && Lawful(cycle, claim) && SoundBooks(start)
    ensures var b := Worked(cycle, batch, claim, retryAt, start, n);
            Kept(start.rows, b, claim) && (j < n ==> !HeldBy(b.rows, batch[j].msg.id, claim))
  {
    if n > 0 {
      var was := Worked(cycle, batch, claim, retryAt, start, n - 1);
      WorkedReleases(cycle, batch, claim, retryAt, start, n - 1, j);
      MarkNextReleases(cycle, batch[n - 1].msg.id, claim, retryAt, start.rows, was, n - 1,
                       batch[if j < n then j else n - 1].msg.id);
    }
  }

  /** What reached the log is exactly the records of the publishes that were acknowledged
      or reached it without. */
  lemma {:induction false} SentExactly(cycle: Cycle, claimed: seq<Row>, n: nat, m: Message)
    requires n <= |claimed|
    ensures m in Sent(cycle, claimed, n) <==>
              exists i :: 0 <= i < n && (cycle.acked(i) || cycle.reached(i)) && claimed[i].msg == m
  {
    if n > 0 {
      SentExactly(cycle, claimed, n - 1, m);
    }
  }

  // ----- A cycle nobody disturbs ----------------------------------------------------------------

  ghost predicate Undisturbed(cycle: Cycle) {
    forall i: nat, rows: Table, sequence: nat :: LeftAlone(cycle, i, rows, sequence)
  }

  ghost predicate LeftAlone(cycle: Cycle, i: nat, rows: Table, sequence: nat) {
    cycle.others(i, rows, sequence) == (rows, sequence)
  }

  ghost predicate DistinctBatch(batch: seq<Row>) {
    forall i, j :: 0 <= i < j < |batch| ==> batch[i].msg.id != batch[j].msg.id
  }

  lemma DistinctIds(rows: Table, claimed: seq<Row>, claim: ClaimId)
    requires Batch(rows, claimed, claim)
    ensures DistinctBatch(claimed)
  {
    forall i, j | 0 <= i < j < |claimed| ensures claimed[i].msg.id != claimed[j].msg.id {
      assert rows[claimed[i].msg.id] == claimed[i] && rows[claimed[j].msg.id] == claimed[j];
      assert claimed[i].msg.order < claimed[j].msg.order;
    }
  }

  /** Published if acknowledged, else Pending again at its retry time. */
  function Settled(row: Row, acked: bool, retryAt: Time): Row {
    if acked then row.(status := Published, claim := None)
    else row.(status := Pending, nextAttemptAt := retryAt, claim := None)
  }

  /** The table with the first `n` rows of the batch settled and nothing else
      changed. */
  function SettledRows(start: Table, cycle: Cycle, batch: seq<Row>, retryAt: Time, n: nat): Table
    requires n <= |batch|
  {
    if n == 0 then start
    else SettledRows(start, cycle, batch, retryAt, n - 1)
           [batch[n - 1].msg.id := Settled(batch[n - 1], cycle.acked(n - 1), retryAt)]
  }

  lemma {:induction false} UnsettledYet(start: Table, cycle: Cycle, batch: seq<Row>, retryAt: Time, n: nat, id: MessageId)
    requires n <= |batch| && id in start && forall j :: 0 <= j < n ==> batch[j].msg.id != id
    ensures id in SettledRows(start, cycle, batch, retryAt, n)
    ensures SettledRows(start, cycle, batch, retryAt, n)[id] == start[id]
  {
    if n > 0 { UnsettledYet(start, cycle, batch, retryAt, n - 1, id); }
  }

  /** Undisturbed, a row still held is marked by its own publish. */
  lemma AloneNext(cycle: Cycle, id: MessageId, claim: ClaimId, retryAt: Time, b: Books, i: nat)
    requires Undisturbed(cycle) && HeldBy(b.rows, id, claim)
    ensures MarkNext(cycle, id, claim, retryAt, b, i)
         == Books(Marked(b.rows, id, claim, cycle.acked(i), retryAt), b.sequence, Counted(b.stats, cycle.acked(i), Updated))
  {
    assert LeftAlone(cycle, i, b.rows, b.sequence);
  }

  /** Undisturbed, every row worked on is published or failed by its own publish,
      every other row is as the claim left it, and none is stale or missing. */
  ghost predicate AloneAt(cycle: Cycle, batch: seq<Row>, retryAt: Time, start: Books, b: Books, n: nat)
    requires n <= |batch|
  {
    && b.rows == SettledRows(start.rows, cycle, batch, retryAt, n) && b.sequence == start.sequence
    && b.stats.stale == start.stats.stale && b.stats.missing == start.stats.missing
    && b.stats.published == start.stats.published + Acks(cycle, n)
  }

  lemma AloneOn(cycle: Cycle, batch: seq<Row>, claim: ClaimId, retryAt: Time, start: Books, b: Books, n: nat)
    requires n < |batch| && Undisturbed(cycle) && Batch(start.rows, batch, claim)
    requires AloneAt(cycle, batch, retryAt, start, b, n)
    ensures HeldBy(b.rows, batch[n].msg.id, claim) && b.rows[batch[n].msg.id] == batch[n]
    ensures AloneAt(cycle, batch, retryAt, start, MarkNext(cycle, batch[n].msg.id, claim, retryAt, b, n), n + 1)
  {
    var id := batch[n].msg.id;
    DistinctIds(start.rows, batch, claim);
    UnsettledYet(start.rows, cycle, batch, retryAt, n, id);
    AloneNext(cycle, id, claim, retryAt, b, n);
  }

  lemma {:induction false} AloneExactly(cycle: Cycle, batch: seq<Row>, claim: ClaimId, retryAt: Time, start: Books, n: nat)
    requires n <= |batch| && Undisturbed(cycle) && Batch(start.rows, batch, claim)
    ensures AloneAt(cycle, batch, retryAt, start, Worked(cycle, batch, claim, retryAt, start, n), n)
  {
    if n > 0 {
      AloneExactly(cycle, batch, claim, retryAt, start, n - 1);
      AloneOn(cycle, batch, claim, retryAt, start, Worked(cycle, batch, claim, retryAt, start, n - 1), n - 1);
    }
  }

  // ----- The loop ------------------------------------------------------------------------------------

  /** One row's mark, after whatever others did. */
  method MarkRow(table: Outbox, id: MessageId, claim: ClaimId, retryAt: Time, cycle: Cycle, i: nat, stats: Stats)
    returns (erred: bool, stats': Stats)
    requires table.Valid() && Lawful(cycle, claim)
    modifies table
    ensures table.Valid() && erred == cycle.markErrs(i)
    ensures var b := Books(old(table.rows), old(table.sequence), stats);
            Books(table.rows, table.sequence, stats')
            == if erred then Meanwhile(cycle, b, i) else MarkNext(cycle, id, claim, retryAt, b, i)
  {
    MeanwhileSound(cycle, Books(table.rows, table.sequence, stats), i, claim);
    var after := cycle.others(i, table.rows, table.sequence);
    table.rows, table.sequence := after.0, after.1;
    erred, stats' := cycle.markErrs(i), stats;
    if erred {
      return;
    }
    var outcome;
    if cycle.acked(i) {
      outcome := table.MarkPublished(id, claim);
    } else {
      outcome := table.MarkPublishFailed(id, claim, retryAt);
    }
    stats' := Counted(stats, cycle.acked(i), outcome);
  }

  /** The publish loop over one claimed batch, up to the first mark that errs. */
  method PublishAll(table: Outbox, batch: seq<Row>, claim: ClaimId, retryAt: Time, cycle: Cycle)
    returns (stats: Stats, records: seq<Message>, done: nat)
    requires table.Valid() && Lawful(cycle, claim)
    modifies table
    ensures table.Valid() && done <= |batch| && FirstErr(cycle, |batch|, done)
    ensures Books(table.rows, table.sequence, stats)
         == Ended(cycle, batch, claim, retryAt, Books(old(table.rows), old(table.sequence), Stats(|batch|, 0, 0, 0, 0)), done)
    ensures records == Sent(cycle, batch, Reached(|batch|, done))
  {
    stats, records := Stats(|batch|, 0, 0, 0, 0), [];
    ghost var start := Books(table.rows, table.sequence, stats);
    for i := 0 to |batch|
      invariant table.Valid() && forall j :: 0 <= j < i ==> !cycle.markErrs(j)
      invariant Books(table.rows, table.sequence, stats) == Worked(cycle, batch, claim, retryAt, start, i)
      invariant records == Sent(cycle, batch, i)
    {
      records := records + if Appends(cycle, i) then [batch[i].msg] else [];
      var erred;
      erred, stats := MarkRow(table, batch[i].msg.id, claim, retryAt, cycle, i, stats);
      if erred {
        return stats, records, i;
      }
    }
    done := |batch|;
  }

  /** `relay_once`: the first page of claimable rows nobody has locked is claimed,
      worked through in order up to the first mark that errs, and the table ends
      exactly there. Every row it got to is counted once and is no longer in flight
      under this claim; the records that reached the log, acknowledged or not, are
      in enqueue order. */
  method RelayOnce(table: Outbox, worker: string, claim: ClaimId, expiresAt: Time, limit: nat, now: Time,
                   locked: set<MessageId>, retryAt: Time, cycle: Cycle)
    returns (stats: Option<Stats>, records: seq<Message>, ghost claimed: seq<Row>, ghost done: nat,
             ghost window: seq<MessageId>, ghost page: seq<MessageId>)
    requires table.Valid() && Lawful(cycle, claim)
    modifies table
    ensures table.Valid() && FirstPage(window, Window(old(table.rows), now), limit, ByOrder(old(table.rows)))
    ensures var collapsed := CollapseRows(old(table.rows), Ids(window));
            var taken := ClaimRows(collapsed, Ids(page), Claim(claim, worker, expiresAt));
            && FirstPage(page, Candidates(collapsed, now, locked), limit, ByOrder(collapsed))
            && |claimed| == |page| && (forall i :: 0 <= i < |page| ==> claimed[i].msg.id == page[i])
            && Batch(taken, claimed, claim)
            && done <= |claimed| && FirstErr(cycle, |claimed|, done)
            && var end := Ended(cycle, claimed, claim, retryAt,
                                Books(taken, old(table.sequence), Stats(|claimed|, 0, 0, 0, 0)), done);
               && table.rows == end.rows && table.sequence == end.sequence
               && stats == if done == |claimed| then Some(end.stats) else None
    ensures records == Sent(cycle, claimed, Reached(|claimed|, done))
    ensures forall m :: m in records <==>
              exists i :: 0 <= i <= done && i < |claimed| && (cycle.acked(i) || cycle.reached(i)) && claimed[i].msg == m
    ensures forall i, j :: 0 <= i < j < |records| ==> records[i].order < records[j].order
    ensures stats.Some? ==> |claimed| == stats.value.claimed
                            == stats.value.published + stats.value.failed + stats.value.stale + stats.value.missing
    ensures forall j :: 0 <= j < done ==> !HeldBy(table.rows, claimed[j].msg.id, claim)
  {
    var batch: seq<Row>;
    batch, window, page := table.ClaimBatch(worker, claim, expiresAt, limit, now, locked);
    claimed := batch;
    ghost var start := Books(table.rows, table.sequence, Stats(|batch|, 0, 0, 0, 0));
    var tally, reached;
    tally, records, reached := PublishAll(table, batch, claim, retryAt, cycle);
    done := reached;
    SentInOrder(cycle, batch, Reached(|batch|, done));
    forall m ensures m in records <==> exists i :: 0 <= i <= done && i < |batch| && (cycle.acked(i) || cycle.reached(i))
                                                  && batch[i].msg == m {
      SentExactly(cycle, batch, Reached(|batch|, done), m);
    }
    WorkedConserves(cycle, batch, claim, retryAt, start, done);
    EndReleases(cycle, batch, claim, retryAt, start, done);
    stats := if reached == |batch| then Some(tally) else None;
  }

  lemma EndReleases(cycle: Cycle, batch: seq<Row>, claim: ClaimId, retryAt: Time, start: Books, done: nat)
    requires done <= |batch| && Lawful(cycle, claim) && SoundBooks(start)
    ensures var end := Ended(cycle, batch, claim, retryAt, start, done);
            forall j :: 0 <= j < done ==> !HeldBy(end.rows, batch[j].msg.id, claim)
  {
    var b := Worked(cycle, batch, claim, retryAt, start, done);
    forall j | 0 <= j < done ensures !HeldBy(Ended(cycle, batch, claim, retryAt, start, done).rows, batch[j].msg.id, claim) {
      WorkedReleases(cycle, batch, claim, retryAt, start, done, j);
      MeanwhileSound(cycle, b, done, claim);
    }
  }
}
