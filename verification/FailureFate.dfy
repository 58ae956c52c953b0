/**
 Where a recorded failure leaves its row, and when a row is given up.
 */
module FailureFate {
  import opened Wrappers
  import opened ReceivedRows
  import opened ReceiveProtocol
  import opened ReceiveTheorems
  import opened RetryBudget

  /** What went wrong with a dispatch, and in whose code. */
  function FaultAt(cfg: Config, s: State, id: MessageId, a: Attempt, now: Time): Option<(Error, FailureStage)>
    requires id in s.received
  {
    if !cfg.before && !cfg.after then Some((NoHandler, Routing))
    else if Converge(cfg, s, id, a, now).Failure? then Some(Converge(cfg, s, id, a, now).error)
    else None
  }

  /** The faults no retry of the stored row gets past: its entity moved partition, or
      it has no usable entity key. */
  predicate Hopeless(error: Error) {
    error.CacheOriginMismatch? || error.MissingEntityKey? || error.InvalidEntityKey?
  }

  /** The kind an operator filters by says what failed, not whose code raised it. */
  predicate Kinded(kind: FailureKind, error: Error) {
    && (kind == MissingHandler <==> error.NoHandler?)
    && (kind == InvalidPayload <==> error.UndecodablePayload?)
    && (kind == Handler <==> error.HandlerError? || error.HandlerPanicked?)
  }

  /** The stage says whose code raised it. */
  predicate Staged(cfg: Config, a: Attempt, stage: FailureStage, error: Error) {
    match stage
    case Routing => !cfg.before && !cfg.after && error.NoHandler?
    case InHandler => (cfg.before && a.before == Faults(error)) || (cfg.after && a.after == Faults(error))
    case Bookkeeping => (cfg.before || cfg.after) && (Hopeless(error) || error.Database?)
  }

  /** A dispatch that records a failure leaves its row Failed if and only if the fault
      is hopeless or the row has now used max_attempts attempts, and otherwise
      Retryable at its retry time; the newest error entry says when, what and where. */
  lemma FateExactly(cfg: Config, s: State, id: MessageId, a: Attempt, now: Time)
    requires id in s.received && Open(s.received[id])
    requires AttemptsOf(Dispatched(cfg, s, id, a, now), id) == AttemptsOf(s, id) + 1
    ensures FaultAt(cfg, s, id, a, now).Some?
    ensures var r, (error, stage) := Dispatched(cfg, s, id, a, now).received[id], FaultAt(cfg, s, id, a, now).value;
            && (r.status.Failed? <==> Hopeless(error) || r.attempts >= cfg.policy.maxAttempts)
            && (r.status.Failed? ==> r.nextAttemptAt == None)
            && (!r.status.Failed? ==> r.status.Retryable? && r.nextAttemptAt == Some(a.retryAt))
            && r.errors != [] && var last := r.errors[|r.errors| - 1];
               && last.at == now && last.stage == stage && Kinded(last.kind, error) && Staged(cfg, a, stage, error)
               && r.lastFailedAt == Some(now) && r.lastFailureKind == Some(last.kind)
  {}

  /** A late record gives the row up by the count its claim saw. */
  lemma LateFateExactly(cfg: Config, log: Log, s: State, f: Fallback, retryAt: Time)
    requires Enabled(cfg, log, s, RecordFallback(f, retryAt)) && f.id in s.received && Open(s.received[f.id])
    ensures var r, was := Apply(cfg, log, s, RecordFallback(f, retryAt)).received[f.id], s.received[f.id];
            && r.attempts == was.attempts + 1
            && (r.status.Failed? <==> f.d.terminal || f.seen + 1 >= cfg.policy.maxAttempts)
            && (!r.status.Failed? ==> r.status.Retryable? && r.nextAttemptAt == Some(retryAt))
  {}

  // ----- A row is not given up early ------------------------------------------------------------

  predicate GivenUpSpent(policy: Policy, s: State, id: MessageId) {
    id in s.received && s.received[id].status.Failed? ==> s.received[id].attempts >= policy.maxAttempts
  }

  /** A move that could end the row before its budget: a late record on it, or a
      dispatch of it with a hopeless fault. */
  predicate CutsShort(cfg: Config, w: World, m: Move, id: MessageId) {
    || LateRecord(m, id)
    || (m.Act? && m.step.Dispatch? && m.step.id == id && id in w.s.received
        && var fault := FaultAt(cfg, w.s, id, m.step.a, m.step.now); fault.Some? && Hopeless(fault.value.0))
  }

  ghost predicate NeverCutShort(cfg: Config, w: World, moves: seq<Move>, id: MessageId)
    requires Runs(cfg, w, moves)
    decreases |moves|
  {
    moves == [] || (!CutsShort(cfg, w, moves[0], id) && NeverCutShort(cfg, Do(cfg, w, moves[0]), moves[1..], id))
  }

  lemma DispatchSpent(cfg: Config, s: State, claimed: MessageId, a: Attempt, now: Time, id: MessageId)
    requires claimed in s.received && Open(s.received[claimed]) && GivenUpSpent(cfg.policy, s, id)
    requires claimed == id ==> var fault := FaultAt(cfg, s, id, a, now); fault.Some? ==> !Hopeless(fault.value.0)
    ensures GivenUpSpent(cfg.policy, Dispatched(cfg, s, claimed, a, now), id)
  {
    DispatchAllOrNothing(cfg, s, claimed, a, now);
    if claimed == id && AttemptsOf(Dispatched(cfg, s, id, a, now), id) == AttemptsOf(s, id) + 1 {
      FateExactly(cfg, s, id, a, now);
    }
  }

  lemma StepSpent(cfg: Config, w: World, step: Step, id: MessageId)
    requires Enabled(cfg, w.log, w.s, step) && GivenUpSpent(cfg.policy, w.s, id) && !CutsShort(cfg, w, Act(step), id)
    ensures GivenUpSpent(cfg.policy, Apply(cfg, w.log, w.s, step), id)
  {
    match step
    case Ingest(p, panics, now) =>
      if id in w.s.received {
        IngestKeepsRows(cfg, w.log, w.s, p, panics, now, id);
      } else if id in Apply(cfg, w.log, w.s, step).received {
        OnlyIngestInserts(cfg, w.log, w.s, step, id);
      }
    case Dispatch(claimed, a, now) => DispatchSpent(cfg, w.s, claimed, a, now, id);
    case _ =>
  }

  lemma {:induction false} RunSpent(cfg: Config, w: World, moves: seq<Move>, id: MessageId)
    requires Runs(cfg, w, moves) && NeverCutShort(cfg, w, moves, id) && GivenUpSpent(cfg.policy, w.s, id)
    ensures GivenUpSpent(cfg.policy, Exec(cfg, w, moves).s, id)
    decreases |moves|
  {
    if moves != [] {
      if moves[0].Act? {
        StepSpent(cfg, w, moves[0].step, id);
      }
      RunSpent(cfg, Do(cfg, w, moves[0]), moves[1..], id);
    }
  }

  /** In every run with no late record on a row and no hopeless fault of it, a row
      that is Failed has used all its attempts. */
  lemma GivesUpOnlyWhenSpent(cfg: Config, moves: seq<Move>, id: MessageId)
    requires Runs(cfg, World(map[], Empty()), moves) && NeverCutShort(cfg, World(map[], Empty()), moves, id)
    requires id in Exec(cfg, World(map[], Empty()), moves).s.received
    ensures var r := Exec(cfg, World(map[], Empty()), moves).s.received[id];
            r.status.Failed? ==> r.attempts >= cfg.policy.maxAttempts
  {
    RunSpent(cfg, World(map[], Empty()), moves, id);
  }
}
