/**
 What the receive protocol guarantees over whole runs, while producers keep
 appending arbitrary records, readable or not.
 */
module ReceiveTheorems {
  import opened Wrappers
  import opened EntityCache
  import opened ReceivedRows
  import opened ReceiveProtocol
  import opened ReceiveInvariant

  datatype Move = Produce(p: int, w: Wire) | Act(step: Step)

  datatype World = World(log: Log, s: State)

  function Appended(log: Log, p: int, w: Wire): Log {
    log[p := LogOf(log, p) + [w]]
  }

  ghost predicate Can(cfg: Config, w: World, m: Move) {
    m.Act? ==> Enabled(cfg, w.log, w.s, m.step)
  }

  ghost function Do(cfg: Config, w: World, m: Move): World
    requires Can(cfg, w, m)
  {
    match m
    case Produce(p, r) => w.(log := Appended(w.log, p, r))
    case Act(step) => w.(s := Apply(cfg, w.log, w.s, step))
  }

  ghost predicate Runs(cfg: Config, w: World, moves: seq<Move>)
    decreases |moves|
  {
    moves == [] || (Can(cfg, w, moves[0]) && Runs(cfg, Do(cfg, w, moves[0]), moves[1..]))
  }

  ghost function Exec(cfg: Config, w: World, moves: seq<Move>): World
    requires Runs(cfg, w, moves)
    decreases |moves|
  {
    if moves == [] then w else Exec(cfg, Do(cfg, w, moves[0]), moves[1..])
  }

  lemma MoveCore(cfg: Config, w: World, m: Move)
    requires Core(cfg, w.log, w.s) && Can(cfg, w, m)
    ensures Core(cfg, Do(cfg, w, m).log, Do(cfg, w, m).s)
  {
    match m
    case Produce(p, r) => GrowthCore(cfg, w.log, Appended(w.log, p, r), w.s);
    case Act(step) => StepCore(cfg, w.log, w.s, step);
  }

  lemma {:induction false} RunCore(cfg: Config, w: World, moves: seq<Move>)
    requires Core(cfg, w.log, w.s) && Runs(cfg, w, moves)
    ensures Core(cfg, Exec(cfg, w, moves).log, Exec(cfg, w, moves).s)
    decreases |moves|
  {
    if moves != [] {
      MoveCore(cfg, w, moves[0]);
      RunCore(cfg, Do(cfg, w, moves[0]), moves[1..]);
    }
  }

  ghost predicate AllResume(moves: seq<Move>) {
    forall i :: 0 <= i < |moves| && moves[i].Act? ==> Resumes(moves[i].step)
  }

  /** Reached from nothing by a run whose errors resume from the committed
      offset. */
  ghost predicate Reachable(cfg: Config, w: World) {
    exists moves :: AllResume(moves) && Runs(cfg, World(map[], Empty()), moves)
                    && Exec(cfg, World(map[], Empty()), moves) == w
  }

  lemma MoveInv(cfg: Config, w: World, m: Move)
    requires Inv(cfg, w.log, w.s) && Can(cfg, w, m) && (m.Act? ==> Resumes(m.step))
    ensures Inv(cfg, Do(cfg, w, m).log, Do(cfg, w, m).s)
  {
    match m
    case Produce(p, r) => GrowthInv(cfg, w.log, Appended(w.log, p, r), w.s);
    case Act(step) => StepInv(cfg, w.log, w.s, step);
  }

  lemma {:induction false} RunInv(cfg: Config, w: World, moves: seq<Move>)
    requires Inv(cfg, w.log, w.s) && Runs(cfg, w, moves) && AllResume(moves)
    ensures Inv(cfg, Exec(cfg, w, moves).log, Exec(cfg, w, moves).s)
    decreases |moves|
  {
    if moves != [] {
      MoveInv(cfg, w, moves[0]);
      RunInv(cfg, Do(cfg, w, moves[0]), moves[1..]);
    }
  }

  lemma ReachableInv(cfg: Config, w: World)
    requires Reachable(cfg, w)
    ensures Inv(cfg, w.log, w.s)
  {
    var moves :| AllResume(moves) && Runs(cfg, World(map[], Empty()), moves)
                 && Exec(cfg, World(map[], Empty()), moves) == w;
    InitInv(cfg, map[]);
    RunInv(cfg, World(map[], Empty()), moves);
  }

  // ----- Ingest durability and dedupe ----------------------------------------------------

  /** In every run, wherever errors leave the consumer reading from, no two
      received rows share an idempotency key and each is the record at its own
      position, decoded. */
  lemma StoredOnce(cfg: Config, moves: seq<Move>)
    requires Runs(cfg, World(map[], Empty()), moves)
    ensures var w := Exec(cfg, World(map[], Empty()), moves);
            && KeysUnique(w.s.received)
            && forall id :: id in w.s.received ==> FromLog(cfg.topic, w.log, id, w.s.received[id])
  {
    RunCore(cfg, World(map[], Empty()), moves);
  }

  /** When errors resume from the committed offset, every record below it has a
      received row with its idempotency key or a quarantine row at its exact
      position, no two received rows share a key, and a breaker trip leaves its
      record unacknowledged but diagnosed. */
  lemma IngestDurable(cfg: Config, w: World)
    requires Reachable(cfg, w)
    ensures forall p, o: nat :: o < At(w.s.committed, p) ==> Handled(w.log, p, o, w.s.received, w.s.quarantine)
    ensures KeysUnique(w.s.received)
    ensures w.s.tripped.Some? ==> w.s.tripped.value in w.s.quarantine
                                  && At(w.s.committed, w.s.tripped.value.0) <= w.s.tripped.value.1
  {
    ReachableInv(cfg, w);
  }

  /** The resumption is needed: whenever a transient error is not followed by a
      return to the committed offset, storing and acknowledging the next record
      acknowledges the failed one too, and it is neither received nor
      quarantined. With the return, the same two steps leave it unacknowledged. */
  lemma NoLossNeedsResume(cfg: Config, log: Log, s: State, p: int, resume: bool, now: Time)
    requires Inv(cfg, log, s) && s.inflight.None? && s.tripped.None?
    requires At(s.committed, p) + 1 < |LogOf(log, p)|
    requires var lost := LogOf(log, p)[At(s.committed, p)]; var next := LogOf(log, p)[At(s.committed, p) + 1];
             && lost.Readable? && next.Readable? && lost.key != next.key && lost.id != next.id
             && lost.key !in KeysOf(s.received) && lost.id !in s.received
             && next.key !in KeysOf(s.received) && next.id !in s.received
             && (p, At(s.committed, p)) !in s.quarantine
    ensures var o := At(s.committed, p);
            && Enabled(cfg, log, s, RecvError(p, resume))
            && var s1 := Apply(cfg, log, s, RecvError(p, resume));
            && Enabled(cfg, log, s1, Ingest(p, false, now))
            && var s2 := Apply(cfg, log, s1, Ingest(p, false, now));
            && Enabled(cfg, log, s2, Ack)
            && var s3 := Apply(cfg, log, s2, Ack);
            && (Handled(log, p, o, s3.received, s3.quarantine) <==> resume)
            && At(s3.committed, p) == (if resume then o + 1 else o + 2)
  {
    var o := At(s.committed, p);
    var s1 := Apply(cfg, log, s, RecvError(p, resume));
    assert At(s.position, p) == o;
    var s2 := Apply(cfg, log, s1, Ingest(p, false, now));
    if resume {
      var r := RowFor(cfg, p, o, LogOf(log, p)[o], now);
      InsertedKeys(s.received, LogOf(log, p)[o].id, r);
    } else {
      var r := RowFor(cfg, p, o + 1, LogOf(log, p)[o + 1], now);
      InsertedKeys(s.received, LogOf(log, p)[o + 1].id, r);
    }
  }

  /** A restart reads on from the committed offset, whatever stopped the consumer: the
      next ingest is of the first record that is not acknowledged. */
  lemma RestartReadsOn(cfg: Config, log: Log, s: State, p: int, panics: bool, now: Time)
    ensures var s' := Apply(cfg, log, s, Restart); var o := At(s.committed, p);
            && (Enabled(cfg, log, s', Ingest(p, panics, now)) <==> o < |LogOf(log, p)|)
            && (o < |LogOf(log, p)| ==>
                  Apply(cfg, log, s', Ingest(p, panics, now)) == Ingested(cfg, s', p, o, LogOf(log, p)[o], panics, now))
            && s'.received == s.received && s'.quarantine == s.quarantine && s'.committed == s.committed
  {}

  // ----- Effectively-once dispatch ------------------------------------------------------------

  /** In every state of every run a row's handler effects were committed at most
      once per position, only for processed rows, and the cache is never at a row
      without its post-upsert handler's effects unless the pre-upsert hook asked
      to skip it. */
  lemma EffectivelyOnce(cfg: Config, moves: seq<Move>)
    requires Runs(cfg, World(map[], Empty()), moves)
    ensures var w := Exec(cfg, World(map[], Empty()), moves);
            && (forall i :: 0 <= i < |w.s.effects| ==>
                  w.s.effects[i].id in w.s.received && w.s.received[w.s.effects[i].id].status.Processed?)
            && (forall i, j :: 0 <= i < j < |w.s.effects| ==> !SamePlace(w.s.effects[i], w.s.effects[j]))
            && (forall e :: e in w.s.cache ==> Derived(cfg, w.log, e, w.s.cache[e].applied, w.s.received, w.s.effects))
  {
    RunCore(cfg, World(map[], Empty()), moves);
  }

  /** One dispatch transaction either commits the row's own effects, the cache
      upsert and the processed mark together, or touches neither the effects nor
      the cache and at most records one failure on the row it claimed. */
  lemma DispatchAllOrNothing(cfg: Config, s: State, id: MessageId, a: Attempt, now: Time)
    requires id in s.received && Open(s.received[id])
    ensures var s' := Dispatched(cfg, s, id, a, now); var r := s.received[id];
            || (&& s'.received == s.received[id := MarkProcessed(r, now)] && s'.received[id].status.Processed?
                && s.effects <= s'.effects
                && (forall i :: |s.effects| <= i < |s'.effects| ==> s'.effects[i].id == id))
            || (&& s'.effects == s.effects && s'.cache == s.cache
                && (s'.received == s.received
                    || exists d :: s'.received == s.received[id := RecordFailure(cfg.policy, r, r.attempts, d, now, a.retryAt)]))
  {
    var s' := Dispatched(cfg, s, id, a, now);
    var r := s.received[id];
    if !cfg.before && !cfg.after {
      var d := FailureDisposition(NoHandler, Routing);
      assert s'.received == s.received[id := RecordFailure(cfg.policy, r, r.attempts, d, now, a.retryAt)];
    } else if Converge(cfg, s, id, a, now).Failure? && a.rollbackWorks {
      var fault := Converge(cfg, s, id, a, now).error;
      var d := FailureDisposition(fault.0, fault.1);
      assert s'.received == s.received[id := RecordFailure(cfg.policy, r, r.attempts, d, now, a.retryAt)];
    }
  }

  /** A step changes handler effects or the cache only by committing one row's
      dispatch: that row was open and becomes Processed in the same commit, and
      the new effects are its own. A failed attempt, a lost transaction, a
      fallback record and a redrive change neither. */
  lemma EffectsCommitWithTheMark(cfg: Config, log: Log, s: State, step: Step)
    requires Enabled(cfg, log, s, step)
    ensures var s' := Apply(cfg, log, s, step);
            (s'.effects != s.effects || s'.cache != s.cache) ==>
              && step.Dispatch? && Open(s.received[step.id])
              && s'.received == s.received[step.id := MarkProcessed(s.received[step.id], step.now)]
              && s'.received[step.id].status.Processed?
              && s.effects <= s'.effects
              && (forall i :: |s.effects| <= i < |s'.effects| ==> s'.effects[i].id == step.id)
  {
    match step
    case Dispatch(id, a, now) => DispatchAllOrNothing(cfg, s, id, a, now);
    case Ingest(p, panics, now) =>
    case _ =>
  }

  /** A terminal bookkeeping failure is exactly one no retry against the same
      tables can get past, whatever the handlers and the database do. */
  lemma TerminalExactlyHopeless(cfg: Config, s: State, id: MessageId, a: Attempt, now: Time)
    requires id in s.received && Converge(cfg, s, id, a, now).Failure?
    requires Converge(cfg, s, id, a, now).error.1.Bookkeeping?
    ensures IsTerminal(Converge(cfg, s, id, a, now).error.0) <==>
              forall retry: Attempt, later: Time :: Converge(cfg, s, id, retry, later).Failure?
  {
    if !IsTerminal(Converge(cfg, s, id, a, now).error.0) {
      assert Converge(cfg, s, id, Attempt(Done, false, Done, false, true, 0), now).Success?;
    }
  }

  /** A row stayed as it was or went through one event of its life; a failure
      recorded in the claim transaction saw the row's own attempts. */
  ghost predicate OneEvent(policy: Policy, r: Row, r': Row, claimed: bool) {
    var l := Life(r, [], 0, 0);
    r' == r || exists e :: Allowed(l, e) && r' == Next(policy, l, e).row && (e.Fail? && claimed ==> e.seen == r.attempts)
  }

  lemma FailureIsEvent(policy: Policy, r: Row, seen: nat, d: Disposition, at: Time, retryAt: Time, claimed: bool)
    requires claimed ==> seen == r.attempts
    ensures OneEvent(policy, r, RecordFailure(policy, r, seen, d, at, retryAt), claimed)
  {
    var l := Life(r, [], 0, 0);
    if Open(r) {
      assert RecordFailure(policy, r, seen, d, at, retryAt) == Next(policy, l, Fail(seen, d, at, retryAt)).row;
    }
  }

  lemma DispatchIsEvent(cfg: Config, s: State, id: MessageId, a: Attempt, now: Time)
    requires id in s.received && Open(s.received[id])
    ensures id in Dispatched(cfg, s, id, a, now).received
    ensures OneEvent(cfg.policy, s.received[id], Dispatched(cfg, s, id, a, now).received[id], true)
  {
    var r := s.received[id];
    var s' := Dispatched(cfg, s, id, a, now);
    DispatchAllOrNothing(cfg, s, id, a, now);
    if s'.received == s.received[id := MarkProcessed(r, now)] {
      assert s'.received[id] == Next(cfg.policy, Life(r, [], 0, 0), Succeed(now)).row;
    } else if s'.received != s.received {
      var d :| s'.received == s.received[id := RecordFailure(cfg.policy, r, r.attempts, d, now, a.retryAt)];
      FailureIsEvent(cfg.policy, r, r.attempts, d, now, a.retryAt, true);
    }
  }

  lemma RedriveIsEvent(policy: Policy, r: Row, clearHistory: bool)
    requires r.status.Failed?
    ensures OneEvent(policy, r, RedriveRow(r, clearHistory), false)
  {
    assert RedriveRow(r, clearHistory) == Next(policy, Life(r, [], 0, 0), Redrive(clearHistory)).row;
  }

  lemma IngestKeepsRows(cfg: Config, log: Log, s: State, p: int, panics: bool, now: Time, id: MessageId)
    requires Enabled(cfg, log, s, Ingest(p, panics, now)) && id in s.received
    ensures var s' := Apply(cfg, log, s, Ingest(p, panics, now)); id in s'.received && s'.received[id] == s.received[id]
  {}

  /** What the protocol does to a stored row is one event of its life, so the
      retry, history and schedule results hold of every row in every run. */
  lemma StepIsLifeEvent(cfg: Config, log: Log, s: State, step: Step, id: MessageId)
    requires Enabled(cfg, log, s, step) && id in s.received
    ensures id in Apply(cfg, log, s, step).received
    ensures OneEvent(cfg.policy, s.received[id], Apply(cfg, log, s, step).received[id], step.Dispatch?)
  {
    match step
    case Ingest(p, panics, now) => IngestKeepsRows(cfg, log, s, p, panics, now, id);
    case Dispatch(claimed, a, now) =>
      DispatchAllOrNothing(cfg, s, claimed, a, now);
      if claimed == id { DispatchIsEvent(cfg, s, id, a, now); }
    case RecordFallback(f, retryAt) =>
      if f.id == id { FailureIsEvent(cfg.policy, s.received[id], f.seen, f.d, f.at, retryAt, false); }
    case RedriveFailed(ids, since, kind, clear) =>
      if id in ids { RedriveIsEvent(cfg.policy, s.received[id], clear); }
    case _ =>
  }

  /** A processed row is final: no continuation, redrives included, changes it. */
  lemma {:induction false} ProcessedIsFinal(cfg: Config, w: World, moves: seq<Move>, id: MessageId)
    requires Runs(cfg, w, moves) && id in w.s.received && w.s.received[id].status.Processed?
    ensures var w' := Exec(cfg, w, moves); id in w'.s.received && w'.s.received[id] == w.s.received[id]
    decreases |moves|
  {
    if moves != [] {
      if moves[0].Act? {
        StepIsLifeEvent(cfg, w.log, w.s, moves[0].step, id);
      }
      ProcessedIsFinal(cfg, Do(cfg, w, moves[0]), moves[1..], id);
    }
  }

  // ----- Every stored row has lived a life ------------------------------------------------

  ghost predicate Lived(policy: Policy, r: Row) {
    exists l: Life, events :: Fresh(l) && Lives(policy, l, events) && ReceivedRows.After(policy, l, events).row == r
  }

  lemma {:induction false} LivesOn(policy: Policy, l: Life, events: seq<Event>, e: Event)
    requires Lives(policy, l, events) && Allowed(ReceivedRows.After(policy, l, events), e)
    ensures Lives(policy, l, events + [e])
    ensures ReceivedRows.After(policy, l, events + [e]) == Next(policy, ReceivedRows.After(policy, l, events), e)
    decreases |events|
  {
    if events == [] {
      assert events + [e] == [e];
    } else {
      assert (events + [e])[1..] == events[1..] + [e];
      LivesOn(policy, Next(policy, l, events[0]), events[1..], e);
    }
  }

  lemma LivedOn(policy: Policy, r: Row, r': Row, claimed: bool)
    requires Lived(policy, r) && OneEvent(policy, r, r', claimed)
    ensures Lived(policy, r')
  {
    if r' != r {
      var l: Life, events :| Fresh(l) && Lives(policy, l, events) && ReceivedRows.After(policy, l, events).row == r;
      var e :| Allowed(Life(r, [], 0, 0), e) && r' == Next(policy, Life(r, [], 0, 0), e).row;
      LivesOn(policy, l, events, e);
    }
  }

  lemma NewRowLived(policy: Policy, key: Key, entity: Option<Entity>, recordKey: Option<RecordKey>,
                    snapshot: Snapshot, now: Time)
    ensures Lived(policy, NewRow(key, entity, recordKey, snapshot, now))
  {
    var l := Life(NewRow(key, entity, recordKey, snapshot, now), [], 0, 0);
    assert Fresh(l) && Lives(policy, l, []);
    assert ReceivedRows.After(policy, l, []).row == l.row;
  }

  lemma StepLived(cfg: Config, log: Log, s: State, step: Step, id: MessageId)
    requires Enabled(cfg, log, s, step) && id in Apply(cfg, log, s, step).received
    requires forall i :: i in s.received ==> Lived(cfg.policy, s.received[i])
    ensures Lived(cfg.policy, Apply(cfg, log, s, step).received[id])
  {
    if id in s.received {
      StepIsLifeEvent(cfg, log, s, step, id);
      LivedOn(cfg.policy, s.received[id], Apply(cfg, log, s, step).received[id], step.Dispatch?);
    } else {
      OnlyIngestInserts(cfg, log, s, step, id);
      var o := At(s.position, step.p);
      var w := LogOf(log, step.p)[o];
      NewRowLived(cfg.policy, w.key, Some(w.entity), w.recordKey, Snapshot(cfg.topic, step.p, o, w.payload), step.now);
    }
  }

  lemma OnlyIngestInserts(cfg: Config, log: Log, s: State, step: Step, id: MessageId)
    requires Enabled(cfg, log, s, step) && id in Apply(cfg, log, s, step).received && id !in s.received
    ensures step.Ingest?
    ensures var o := At(s.position, step.p); var w := LogOf(log, step.p)[o];
            w.Readable? && Apply(cfg, log, s, step).received[id] == RowFor(cfg, step.p, o, w, step.now)
  {
    if step.Dispatch? {
      DispatchAllOrNothing(cfg, s, step.id, step.a, step.now);
    }
  }

  lemma {:induction false} RunLived(cfg: Config, w: World, moves: seq<Move>, id: MessageId)
    requires Runs(cfg, w, moves) && id in Exec(cfg, w, moves).s.received
    requires forall i :: i in w.s.received ==> Lived(cfg.policy, w.s.received[i])
    ensures Lived(cfg.policy, Exec(cfg, w, moves).s.received[id])
    decreases |moves|
  {
    if moves != [] {
      if moves[0].Act? {
        var s' := Apply(cfg, w.log, w.s, moves[0].step);
        forall i | i in s'.received ensures Lived(cfg.policy, s'.received[i]) {
          StepLived(cfg, w.log, w.s, moves[0].step, i);
        }
      }
      RunLived(cfg, Do(cfg, w, moves[0]), moves[1..], id);
    }
  }

  /** In every state of every run, each stored row's error history is bounded, its
      last entry is what the denormalised columns say, and its schedule matches
      its status. */
  lemma RowsCarryTheirHistory(cfg: Config, moves: seq<Move>, id: MessageId)
    requires cfg.policy.maxAttempts > 0 && Runs(cfg, World(map[], Empty()), moves)
    requires id in Exec(cfg, World(map[], Empty()), moves).s.received
    ensures var r := Exec(cfg, World(map[], Empty()), moves).s.received[id];
            && Bounded(cfg.policy, |r.errors|, r.attempts)
            && (r.errors == [] <==> r.lastFailedAt.None?)
            && (r.errors != [] ==> r.lastFailedAt == Some(r.errors[|r.errors| - 1].at)
                                   && r.lastFailureKind == Some(r.errors[|r.errors| - 1].kind))
            && (r.status.Pending? || r.status.Failed? ==> r.nextAttemptAt.None?)
            && (r.status.Retryable? ==> r.nextAttemptAt.Some?)
  {
    RunLived(cfg, World(map[], Empty()), moves, id);
    var r := Exec(cfg, World(map[], Empty()), moves).s.received[id];
    var l: Life, events :| Fresh(l) && Lives(cfg.policy, l, events) && ReceivedRows.After(cfg.policy, l, events).row == r;
    AfterInv(cfg.policy, l, events);
  }
}
