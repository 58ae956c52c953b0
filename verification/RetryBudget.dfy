/**
 How often one row may fail over whole runs of the receive protocol, with redrives,
 clears and failures recorded late by the fallback.
 */
module RetryBudget {
  import opened Wrappers
  import opened ReceivedRows
  import opened ReceiveProtocol
  import opened ReceiveTheorems

  // ----- The bound --------------------------------------------------------------------------

  /** Within the policy's budget plus `k`, with an attempt left unless failed. */
  predicate Within(policy: Policy, r: Row, k: nat) {
    r.attempts <= policy.maxAttempts + k && (!r.status.Failed? ==> r.attempts < policy.maxAttempts + k)
  }

  ghost predicate RowWithin(policy: Policy, s: State, id: MessageId, k: nat) {
    id in s.received ==> Within(policy, s.received[id], k)
  }

  predicate Redrives(m: Move, id: MessageId, clearHistory: bool) {
    m.Act? && m.step.RedriveFailed? && id in m.step.ids && m.step.clearHistory == clearHistory
  }

  /** The row's history-preserving redrives since its last clear, after one more
      move. */
  function KeptOn(m: Move, id: MessageId, k: nat): nat {
    if Redrives(m, id, true) then 0 else if Redrives(m, id, false) then k + 1 else k
  }

  function KeptSinceClear(moves: seq<Move>, id: MessageId, k: nat): nat {
    if moves == [] then k else KeptSinceClear(moves[1..], id, KeptOn(moves[0], id, k))
  }

  /** How often one row was redriven, with or without a clear. */
  function CountRedrives(moves: seq<Move>, id: MessageId, clearHistory: bool): nat {
    if moves == [] then 0
    else (if Redrives(moves[0], id, clearHistory) then 1 else 0) + CountRedrives(moves[1..], id, clearHistory)
  }

  /** A fallback record that exhausts its row or leaves it an attempt, judged as it
      is recorded. The row's own attempt count always does one or the other. */
  predicate Harmless(policy: Policy, s: State, f: Fallback, k: nat) {
    f.id in s.received && Open(s.received[f.id]) ==>
      Exhausted(policy, f.seen, f.d) || s.received[f.id].attempts + 1 < policy.maxAttempts + k
  }

  predicate LateRecord(m: Move, id: MessageId) {
    m.Act? && m.step.RecordFallback? && m.step.f.id == id
  }

  /** Every fallback recorded on the row in a run is harmless when its turn comes. */
  ghost predicate HarmlessRun(cfg: Config, w: World, moves: seq<Move>, id: MessageId, k: nat)
    requires Runs(cfg, w, moves)
    decreases |moves|
  {
    moves == [] ||
    (&& (LateRecord(moves[0], id) ==> Harmless(cfg.policy, w.s, moves[0].step.f, k))
     && HarmlessRun(cfg, Do(cfg, w, moves[0]), moves[1..], id, KeptOn(moves[0], id, k)))
  }

  lemma FailureWithin(policy: Policy, r: Row, k: nat, seen: nat, d: Disposition, at: Time, retryAt: Time)
    requires Within(policy, r, k)
    requires Open(r) ==> Exhausted(policy, seen, d) || r.attempts + 1 < policy.maxAttempts + k
    ensures Within(policy, RecordFailure(policy, r, seen, d, at, retryAt), k)
  {}

  lemma DispatchWithin(cfg: Config, s: State, id: MessageId, a: Attempt, now: Time, row: MessageId, k: nat)
    requires id in s.received && Open(s.received[id]) && RowWithin(cfg.policy, s, row, k)
    ensures RowWithin(cfg.policy, Dispatched(cfg, s, id, a, now), row, k)
  {
    DispatchAllOrNothing(cfg, s, id, a, now);
  }

  lemma IngestWithin(cfg: Config, log: Log, s: State, p: int, panics: bool, now: Time, row: MessageId, k: nat)
    requires Enabled(cfg, log, s, Ingest(p, panics, now)) && RowWithin(cfg.policy, s, row, k)
    requires cfg.policy.maxAttempts > 0
    ensures RowWithin(cfg.policy, Apply(cfg, log, s, Ingest(p, panics, now)), row, k)
  {
    var s' := Apply(cfg, log, s, Ingest(p, panics, now));
    if row in s.received {
      IngestKeepsRows(cfg, log, s, p, panics, now, row);
    } else if row in s'.received {
      OnlyIngestInserts(cfg, log, s, Ingest(p, panics, now), row);
    }
  }

  lemma StepWithin(cfg: Config, log: Log, s: State, step: Step, row: MessageId, k: nat)
    requires Enabled(cfg, log, s, step) && RowWithin(cfg.policy, s, row, k) && cfg.policy.maxAttempts > 0
    requires step.RecordFallback? && step.f.id == row ==> Harmless(cfg.policy, s, step.f, k)
    ensures RowWithin(cfg.policy, Apply(cfg, log, s, step), row, KeptOn(Act(step), row, k))
  {
    match step
    case Ingest(p, panics, now) => IngestWithin(cfg, log, s, p, panics, now, row, k);
    case Dispatch(id, a, now) => DispatchWithin(cfg, s, id, a, now, row, k);
    case RecordFallback(f, retryAt) =>
      if f.id == row && row in s.received {
        FailureWithin(cfg.policy, s.received[row], k, f.seen, f.d, f.at, retryAt);
      }
    case _ =>
  }

  lemma {:induction false} RunWithin(cfg: Config, w: World, moves: seq<Move>, id: MessageId, k: nat)
    requires Runs(cfg, w, moves) && HarmlessRun(cfg, w, moves, id, k)
    requires RowWithin(cfg.policy, w.s, id, k) && cfg.policy.maxAttempts > 0
    ensures RowWithin(cfg.policy, Exec(cfg, w, moves).s, id, KeptSinceClear(moves, id, k))
    decreases |moves|
  {
    if moves != [] {
      if moves[0].Act? {
        StepWithin(cfg, w.log, w.s, moves[0].step, id, k);
      }
      RunWithin(cfg, Do(cfg, w, moves[0]), moves[1..], id, KeptOn(moves[0], id, k));
    }
  }

  /** In every run whose fallback records on a row are harmless, in particular
      when its failures are recorded in their claim transactions, the row's
      attempts never exceed max_attempts plus its own history-preserving redrives
      since its last clear, and while it is open an attempt is left. */
  lemma AttemptsStayInBudget(cfg: Config, moves: seq<Move>, id: MessageId)
    requires cfg.policy.maxAttempts > 0 && Runs(cfg, World(map[], Empty()), moves)
    requires HarmlessRun(cfg, World(map[], Empty()), moves, id, 0)
    requires id in Exec(cfg, World(map[], Empty()), moves).s.received
    ensures var r := Exec(cfg, World(map[], Empty()), moves).s.received[id];
            && r.attempts <= cfg.policy.maxAttempts + KeptSinceClear(moves, id, 0)
            && (Open(r) ==> r.attempts < cfg.policy.maxAttempts + KeptSinceClear(moves, id, 0))
  {
    RunWithin(cfg, World(map[], Empty()), moves, id, 0);
  }

  /** A run that records no fallback on the row is harmless to it. */
  lemma {:induction false} InClaimIsHarmless(cfg: Config, w: World, moves: seq<Move>, id: MessageId, k: nat)
    requires Runs(cfg, w, moves)
    requires forall m :: m in moves && m.Act? && m.step.RecordFallback? ==> m.step.f.id != id
    ensures HarmlessRun(cfg, w, moves, id, k)
    decreases |moves|
  {
    if moves != [] {
      assert moves[0] in moves;
      assert forall m :: m in moves[1..] ==> m in moves;
      InClaimIsHarmless(cfg, Do(cfg, w, moves[0]), moves[1..], id, KeptOn(moves[0], id, k));
    }
  }

  // ----- When a fallback record overruns -----------------------------------------------------

  /** No dispatch that may come next takes the row past its budget. */
  ghost predicate NextInBudget(cfg: Config, w: World, id: MessageId, k: nat) {
    forall a: Attempt, now: Time :: Enabled(cfg, w.log, w.s, Dispatch(id, a, now)) ==>
      Apply(cfg, w.log, w.s, Dispatch(id, a, now)).received[id].attempts <= cfg.policy.maxAttempts + k
  }

  lemma WithinNext(cfg: Config, w: World, id: MessageId, k: nat)
    requires RowWithin(cfg.policy, w.s, id, k)
    ensures NextInBudget(cfg, w, id, k)
  {
    forall a: Attempt, now: Time | Enabled(cfg, w.log, w.s, Dispatch(id, a, now))
      ensures Apply(cfg, w.log, w.s, Dispatch(id, a, now)).received[id].attempts <= cfg.policy.maxAttempts + k
    {
      DispatchWithin(cfg, w.s, id, a, now, id, k);
      DispatchAllOrNothing(cfg, w.s, id, a, now);
    }
  }

  const DOOMED := Attempt(Done, false, Done, true, true, 0)

  /** An attempt whose database fails is recorded on its row, whatever the handlers
      do. */
  lemma DoomedFails(cfg: Config, s: State, id: MessageId, now: Time)
    requires id in s.received && Open(s.received[id])
    ensures Dispatched(cfg, s, id, DOOMED, now).received[id].attempts == s.received[id].attempts + 1
  {
    if cfg.before || cfg.after {
      assert Converge(cfg, s, id, DOOMED, now).Failure?;
    }
  }

  /** Recording a fallback on an open row in its budget is harmless if and only if
      no dispatch that may follow takes the attempts past the budget. */
  lemma OverrunExactly(cfg: Config, log: Log, s: State, f: Fallback, retryAt: Time, k: nat)
    requires Enabled(cfg, log, s, RecordFallback(f, retryAt)) && f.id in s.received && Open(s.received[f.id])
    requires RowWithin(cfg.policy, s, f.id, k)
    ensures var s' := Apply(cfg, log, s, RecordFallback(f, retryAt));
            Harmless(cfg.policy, s, f, k) <==> NextInBudget(cfg, World(log, s'), f.id, k)
  {
    var s' := Apply(cfg, log, s, RecordFallback(f, retryAt));
    if Harmless(cfg.policy, s, f, k) {
      FailureWithin(cfg.policy, s.received[f.id], k, f.seen, f.d, f.at, retryAt);
      WithinNext(cfg, World(log, s'), f.id, k);
    } else {
      DoomedFails(cfg, s', f.id, retryAt);
      assert Enabled(cfg, log, s', Dispatch(f.id, DOOMED, retryAt));
    }
  }

  /** At no point of a run could a dispatch take the row past its budget. */
  ghost predicate AlwaysInBudget(cfg: Config, w: World, moves: seq<Move>, id: MessageId, k: nat)
    requires Runs(cfg, w, moves)
    decreases |moves|
  {
    && NextInBudget(cfg, w, id, k)
    && (moves == [] || AlwaysInBudget(cfg, Do(cfg, w, moves[0]), moves[1..], id, KeptOn(moves[0], id, k)))
  }

  lemma LateRecordExactly(cfg: Config, w: World, m: Move, id: MessageId, k: nat)
    requires Can(cfg, w, m) && LateRecord(m, id) && RowWithin(cfg.policy, w.s, id, k)
    requires NextInBudget(cfg, Do(cfg, w, m), id, k)
    ensures Harmless(cfg.policy, w.s, m.step.f, k)
  {
    if id in w.s.received && Open(w.s.received[id]) {
      OverrunExactly(cfg, w.log, w.s, m.step.f, m.step.retryAt, k);
    }
  }

  /** A run is harmless to a row if and only if at no point of it one more dispatch
      could take the row past its budget. */
  lemma {:induction false} HarmlessFrom(cfg: Config, w: World, moves: seq<Move>, id: MessageId, k: nat)
    requires Runs(cfg, w, moves) && RowWithin(cfg.policy, w.s, id, k) && cfg.policy.maxAttempts > 0
    ensures HarmlessRun(cfg, w, moves, id, k) <==> AlwaysInBudget(cfg, w, moves, id, k)
    decreases |moves|
  {
    WithinNext(cfg, w, id, k);
    if moves != [] {
      var m, next, k' := moves[0], Do(cfg, w, moves[0]), KeptOn(moves[0], id, k);
      if LateRecord(m, id) && AlwaysInBudget(cfg, w, moves, id, k) {
        assert AlwaysInBudget(cfg, next, moves[1..], id, k');
        LateRecordExactly(cfg, w, m, id, k);
      }
      if LateRecord(m, id) ==> Harmless(cfg.policy, w.s, m.step.f, k) {
        if m.Act? {
          StepWithin(cfg, w.log, w.s, m.step, id, k);
        }
        HarmlessFrom(cfg, next, moves[1..], id, k');
      }
    }
  }

  lemma HarmlessExactly(cfg: Config, moves: seq<Move>, id: MessageId)
    requires cfg.policy.maxAttempts > 0 && Runs(cfg, World(map[], Empty()), moves)
    ensures HarmlessRun(cfg, World(map[], Empty()), moves, id, 0) <==>
              AlwaysInBudget(cfg, World(map[], Empty()), moves, id, 0)
  {
    HarmlessFrom(cfg, World(map[], Empty()), moves, id, 0);
  }

  lemma {:induction false} RunsOn(cfg: Config, w: World, moves: seq<Move>, m: Move)
    requires Runs(cfg, w, moves) && Can(cfg, Exec(cfg, w, moves), m)
    ensures Runs(cfg, w, moves + [m]) && Exec(cfg, w, moves + [m]) == Do(cfg, Exec(cfg, w, moves), m)
    decreases |moves|
  {
    if moves == [] {
      assert moves + [m] == [m];
    } else {
      assert (moves + [m])[1..] == moves[1..] + [m];
      RunsOn(cfg, Do(cfg, w, moves[0]), moves[1..], m);
    }
  }

  lemma {:induction false} NoRedriveKept(moves: seq<Move>, id: MessageId, k: nat)
    requires forall m :: m in moves ==> !(m.Act? && m.step.RedriveFailed?)
    ensures KeptSinceClear(moves, id, k) == k
  {
    if moves != [] {
      assert moves[0] in moves;
      assert forall m :: m in moves[1..] ==> m in moves;
      NoRedriveKept(moves[1..], id, k);
    }
  }

  const OVERRUN_CFG := Config(true, false, "t", Policy(2, 20), 5)
  const RECORD := Readable(1, 1, "e", None, "x")
  const FAILING := Attempt(Faults(HandlerError), false, Done, false, true, 0)
  const LOST := FAILING.(rollbackWorks := false)
  const HANDED_OVER := Fallback(1, 0, FailureDisposition(HandlerError, InHandler), 0)

  const OVERRUN := [Produce(0, RECORD), Act(Ingest(0, false, 0)), Act(Dispatch(1, LOST, 0)), Act(Dispatch(1, FAILING, 0)),
                    Act(RecordFallback(HANDED_OVER, 0)), Act(Dispatch(1, FAILING, 0))]

  /** What row 1 and the hand-over look like along that run. */
  ghost predicate OverrunAt(w: World, attempts: nat, handedOver: bool) {
    && 1 in w.s.received && w.s.received[1].attempts == attempts
    && (attempts < 3 ==> Due(w.s.received[1], 0))
    && (handedOver ==> HANDED_OVER in w.s.fallbacks)
  }

  lemma OverrunBegins()
    ensures Runs(OVERRUN_CFG, World(map[], Empty()), OVERRUN[..2])
    ensures OverrunAt(Exec(OVERRUN_CFG, World(map[], Empty()), OVERRUN[..2]), 0, false)
  {
    var w0 := World(map[], Empty());
    assert Runs(OVERRUN_CFG, w0, []) && Exec(OVERRUN_CFG, w0, []) == w0;
    RunsOn(OVERRUN_CFG, w0, [], OVERRUN[0]);
    assert [] + [OVERRUN[0]] == OVERRUN[..1];
    RunsOn(OVERRUN_CFG, w0, OVERRUN[..1], OVERRUN[1]);
    assert OVERRUN[..1] + [OVERRUN[1]] == OVERRUN[..2];
  }

  ghost predicate OverrunNext(n: nat, attempts: nat, handedOver: bool) {
    || (n == 2 && attempts == 0) || (n == 3 && attempts == 0 && handedOver)
    || (n == 4 && attempts == 1 && handedOver) || (n == 5 && attempts == 2)
  }

  lemma OverrunMove(w: World, n: nat, attempts: nat, handedOver: bool)
    requires OverrunNext(n, attempts, handedOver) && OverrunAt(w, attempts, handedOver)
    ensures Can(OVERRUN_CFG, w, OVERRUN[n])
    ensures OverrunAt(Do(OVERRUN_CFG, w, OVERRUN[n]), if n == 2 then 0 else attempts + 1, n < 4)
  {}

  lemma OverrunStep(n: nat, attempts: nat, handedOver: bool)
    requires OverrunNext(n, attempts, handedOver)
    requires Runs(OVERRUN_CFG, World(map[], Empty()), OVERRUN[..n])
    requires OverrunAt(Exec(OVERRUN_CFG, World(map[], Empty()), OVERRUN[..n]), attempts, handedOver)
    ensures Runs(OVERRUN_CFG, World(map[], Empty()), OVERRUN[..n + 1])
    ensures OverrunAt(Exec(OVERRUN_CFG, World(map[], Empty()), OVERRUN[..n + 1]), if n == 2 then 0 else attempts + 1, n < 4)
  {
    var w0 := World(map[], Empty());
    OverrunMove(Exec(OVERRUN_CFG, w0, OVERRUN[..n]), n, attempts, handedOver);
    RunsOn(OVERRUN_CFG, w0, OVERRUN[..n], OVERRUN[n]);
    assert OVERRUN[..n] + [OVERRUN[n]] == OVERRUN[..n + 1];
  }

  /** A run that overruns: an attempt whose transaction is lost, one recorded
      failure, the late fallback with the count its claim saw, and one failure
      more make three attempts of a budget of two. */
  lemma FallbackOverruns()
    ensures Runs(OVERRUN_CFG, World(map[], Empty()), OVERRUN) && KeptSinceClear(OVERRUN, 1, 0) == 0
    ensures var s := Exec(OVERRUN_CFG, World(map[], Empty()), OVERRUN).s;
            1 in s.received && s.received[1].attempts == 3 > OVERRUN_CFG.policy.maxAttempts
  {
    OverrunBegins();
    OverrunStep(2, 0, false);
    OverrunStep(3, 0, true);
    OverrunStep(4, 1, true);
    OverrunStep(5, 2, false);
    assert OVERRUN[..6] == OVERRUN;
    NoRedriveKept(OVERRUN, 1, 0);
  }

  // ----- Finitely many attempts ------------------------------------------------------------------

  function AttemptsOf(s: State, id: MessageId): nat {
    if id in s.received then s.received[id].attempts else 0
  }

  /** The moves of a run that record a failure on the row. */
  ghost function FailuresOn(cfg: Config, w: World, moves: seq<Move>, id: MessageId): nat
    requires Runs(cfg, w, moves)
    decreases |moves|
  {
    if moves == [] then 0
    else
      var next := Do(cfg, w, moves[0]);
      (if AttemptsOf(next.s, id) > AttemptsOf(w.s, id) then 1 else 0) + FailuresOn(cfg, next, moves[1..], id)
  }

  /** A dispatch records a failure exactly when it neither processes its row nor
      loses its transaction. */
  lemma DispatchRecords(cfg: Config, s: State, id: MessageId, a: Attempt, now: Time)
    requires id in s.received && Open(s.received[id])
    ensures var s' := Dispatched(cfg, s, id, a, now);
            AttemptsOf(s', id) == AttemptsOf(s, id) + 1 <==>
              !s'.received[id].status.Processed? && s'.fallbacks == s.fallbacks
  {
    if (cfg.before || cfg.after) && Converge(cfg, s, id, a, now).Failure? {
      var fault := Converge(cfg, s, id, a, now).error;
      var f := Fallback(id, s.received[id].attempts, FailureDisposition(fault.0, fault.1), now);
      assert |s.fallbacks + multiset{f}| == |s.fallbacks| + 1;
    }
  }

  /** A dispatch of the row that keeps its transaction. */
  ghost predicate KeptDispatch(cfg: Config, w: World, m: Move, id: MessageId)
    requires Can(cfg, w, m)
  {
    m.Act? && m.step.Dispatch? && m.step.id == id && Do(cfg, w, m).s.fallbacks == w.s.fallbacks
  }

  ghost function KeptDispatches(cfg: Config, w: World, moves: seq<Move>, id: MessageId): nat
    requires Runs(cfg, w, moves)
    decreases |moves|
  {
    if moves == [] then 0
    else (if KeptDispatch(cfg, w, moves[0], id) then 1 else 0) + KeptDispatches(cfg, Do(cfg, w, moves[0]), moves[1..], id)
  }

  /** The attempts a row has used: its failures, and the one that processed it. */
  function Used(s: State, id: MessageId): nat {
    AttemptsOf(s, id) + if id in s.received && s.received[id].status.Processed? then 1 else 0
  }

  lemma DispatchUses(cfg: Config, s: State, claimed: MessageId, a: Attempt, now: Time, id: MessageId)
    requires claimed in s.received && Open(s.received[claimed])
    ensures var s' := Dispatched(cfg, s, claimed, a, now);
            && (Used(s', id) == Used(s, id) || Used(s', id) == Used(s, id) + 1)
            && (id == claimed && s'.fallbacks == s.fallbacks ==> Used(s', id) == Used(s, id) + 1)
  {
    DispatchAllOrNothing(cfg, s, claimed, a, now);
    if id == claimed {
      DispatchRecords(cfg, s, id, a, now);
    }
  }

  lemma IngestUses(cfg: Config, log: Log, s: State, p: int, panics: bool, now: Time, id: MessageId)
    requires Enabled(cfg, log, s, Ingest(p, panics, now))
    ensures Used(Apply(cfg, log, s, Ingest(p, panics, now)), id) == Used(s, id)
  {
    var s' := Apply(cfg, log, s, Ingest(p, panics, now));
    if id in s.received {
      IngestKeepsRows(cfg, log, s, p, panics, now, id);
    } else if id in s'.received {
      OnlyIngestInserts(cfg, log, s, Ingest(p, panics, now), id);
    }
  }

  /** How one step changes what a row has used: nothing left of it on a clear, else
      one more or as it was, and as it was on a redrive that keeps the history. */
  lemma StepUses(cfg: Config, log: Log, s: State, step: Step, id: MessageId)
    requires Enabled(cfg, log, s, step)
    ensures var before, after := Used(s, id), Used(Apply(cfg, log, s, step), id);
            && (Redrives(Act(step), id, true) ==> after == 0)
            && (!Redrives(Act(step), id, true) ==> after == before || after == before + 1)
            && (Redrives(Act(step), id, false) ==> after == before)
  {
    match step
    case Ingest(p, panics, now) => IngestUses(cfg, log, s, p, panics, now, id);
    case Dispatch(claimed, a, now) => DispatchUses(cfg, s, claimed, a, now, id);
    case _ =>
  }

  /** The moves of a run that use up an attempt of the row. */
  ghost function UsesOn(cfg: Config, w: World, moves: seq<Move>, id: MessageId): nat
    requires Runs(cfg, w, moves)
    decreases |moves|
  {
    if moves == [] then 0
    else
      var next := Do(cfg, w, moves[0]);
      (if Used(next.s, id) > Used(w.s, id) then 1 else 0) + UsesOn(cfg, next, moves[1..], id)
  }

  /** Recording a failure uses an attempt, and so does every dispatch that keeps
      its transaction. */
  lemma MoveCounts(cfg: Config, w: World, m: Move, id: MessageId)
    requires Can(cfg, w, m)
    ensures AttemptsOf(Do(cfg, w, m).s, id) > AttemptsOf(w.s, id) || KeptDispatch(cfg, w, m, id) ==>
              Used(Do(cfg, w, m).s, id) > Used(w.s, id)
  {
    if m.Act? {
      if id in w.s.received && w.s.received[id].status.Processed? {
        ProcessedIsFinal(cfg, w, [m], id);
        assert Exec(cfg, w, [m]) == Do(cfg, w, m);
      } else if m.step.Dispatch? {
        DispatchUses(cfg, w.s, m.step.id, m.step.a, m.step.now, id);
      }
    }
  }

  lemma {:induction false} UsesCount(cfg: Config, w: World, moves: seq<Move>, id: MessageId)
    requires Runs(cfg, w, moves)
    ensures FailuresOn(cfg, w, moves, id) <= UsesOn(cfg, w, moves, id)
    ensures KeptDispatches(cfg, w, moves, id) <= UsesOn(cfg, w, moves, id)
    decreases |moves|
  {
    if moves != [] {
      MoveCounts(cfg, w, moves[0], id);
      UsesCount(cfg, Do(cfg, w, moves[0]), moves[1..], id);
    }
  }

  /** One move from a row in its budget: still in it, with what it used moved as the
      move says. */
  lemma MoveSpends(cfg: Config, w: World, m: Move, id: MessageId, k: nat)
    requires Can(cfg, w, m) && RowWithin(cfg.policy, w.s, id, k) && cfg.policy.maxAttempts > 0
    requires LateRecord(m, id) ==> Harmless(cfg.policy, w.s, m.step.f, k)
    ensures RowWithin(cfg.policy, Do(cfg, w, m).s, id, KeptOn(m, id, k))
    ensures Spends(cfg.policy, m, id, k, Used(w.s, id), Used(Do(cfg, w, m).s, id))
  {
    if m.Act? {
      StepWithin(cfg, w.log, w.s, m.step, id, k);
      StepUses(cfg, w.log, w.s, m.step, id);
    }
  }

  predicate Spends(policy: Policy, m: Move, id: MessageId, k: nat, before: nat, after: nat) {
    && before <= policy.maxAttempts + k
    && (if Redrives(m, id, true) then after == 0
        else if Redrives(m, id, false) then after == before
        else after == before || after == before + 1)
  }

  /** The budget once and again for every clear, plus one per kept-history redrive. */
  function Allowance(policy: Policy, clears: nat, redrives: nat): nat {
    policy.maxAttempts * (1 + clears) + redrives
  }

  lemma AllowanceOn(policy: Policy, clears: nat, redrives: nat, more: nat)
    ensures Allowance(policy, clears + 1, redrives) == policy.maxAttempts + Allowance(policy, clears, redrives)
    ensures Allowance(policy, clears, redrives + more) == Allowance(policy, clears, redrives) + more
  {}

  /** What a run may spend on the row: its budget, and a new one at every clear. */
  function Spendable(policy: Policy, moves: seq<Move>, id: MessageId, k: nat): nat {
    if moves == [] then policy.maxAttempts + k
    else (if Redrives(moves[0], id, true) then policy.maxAttempts + k else 0)
         + Spendable(policy, moves[1..], id, KeptOn(moves[0], id, k))
  }

  lemma {:induction false} SpendableIsAllowance(policy: Policy, moves: seq<Move>, id: MessageId, k: nat)
    ensures Spendable(policy, moves, id, k)
         == Allowance(policy, CountRedrives(moves, id, true), k + CountRedrives(moves, id, false))
  {
    if moves != [] {
      var clears, kept := CountRedrives(moves[1..], id, true), CountRedrives(moves[1..], id, false);
      SpendableIsAllowance(policy, moves[1..], id, KeptOn(moves[0], id, k));
      AllowanceOn(policy, clears, kept, k);
      AllowanceOn(policy, clears, k + kept, 1);
    }
  }

  predicate StillOpen(s: State, id: MessageId) {
    id in s.received && Open(s.received[id])
  }

  lemma {:induction false} UsesFrom(cfg: Config, w: World, moves: seq<Move>, id: MessageId, k: nat)
    requires Runs(cfg, w, moves) && HarmlessRun(cfg, w, moves, id, k)
    requires RowWithin(cfg.policy, w.s, id, k) && cfg.policy.maxAttempts > 0
    ensures UsesOn(cfg, w, moves, id) + Used(w.s, id) <= Spendable(cfg.policy, moves, id, k)
    ensures StillOpen(Exec(cfg, w, moves).s, id) ==>
              UsesOn(cfg, w, moves, id) + Used(w.s, id) < Spendable(cfg.policy, moves, id, k)
    decreases |moves|
  {
    if moves != [] {
      MoveSpends(cfg, w, moves[0], id, k);
      UsesFrom(cfg, Do(cfg, w, moves[0]), moves[1..], id, KeptOn(moves[0], id, k));
    }
  }

  /** The most attempts a run may use on a row, by the redrives in it. */
  function Most(policy: Policy, moves: seq<Move>, id: MessageId): nat {
    Allowance(policy, CountRedrives(moves, id, true), CountRedrives(moves, id, false))
  }

  /** A run harmless to a row uses up at most `most` of its attempts, and fewer
      while the row is open. */
  lemma UsesBounded(cfg: Config, w: World, moves: seq<Move>, id: MessageId, most: nat)
    requires Runs(cfg, w, moves) && HarmlessRun(cfg, w, moves, id, 0)
    requires RowWithin(cfg.policy, w.s, id, 0) && cfg.policy.maxAttempts > 0
    requires most == Spendable(cfg.policy, moves, id, 0)
    ensures FailuresOn(cfg, w, moves, id) <= most && KeptDispatches(cfg, w, moves, id) <= most
    ensures StillOpen(Exec(cfg, w, moves).s, id) ==> KeptDispatches(cfg, w, moves, id) < most
  {
    UsesFrom(cfg, w, moves, id, 0);
    UsesCount(cfg, w, moves, id);
  }

  /** Finitely many redrives allow finitely many failures: in every run harmless to
      a row, at most max_attempts once and again per clear of that row, plus one per
      history-preserving redrive of it, are recorded on it. */
  lemma FailuresFinite(cfg: Config, moves: seq<Move>, id: MessageId)
    requires cfg.policy.maxAttempts > 0 && Runs(cfg, World(map[], Empty()), moves)
    requires HarmlessRun(cfg, World(map[], Empty()), moves, id, 0)
    ensures FailuresOn(cfg, World(map[], Empty()), moves, id) <= Most(cfg.policy, moves, id)
  {
    SpendableIsAllowance(cfg.policy, moves, id, 0);
    UsesBounded(cfg, World(map[], Empty()), moves, id, Most(cfg.policy, moves, id));
  }

  /** A row is done with after finitely many attempts: in every run harmless to it,
      its dispatches that keep their transaction are no more than that, and fewer
      while it is neither Processed nor Failed. */
  lemma DispatchesFinite(cfg: Config, moves: seq<Move>, id: MessageId)
    requires cfg.policy.maxAttempts > 0 && Runs(cfg, World(map[], Empty()), moves)
    requires HarmlessRun(cfg, World(map[], Empty()), moves, id, 0)
    ensures KeptDispatches(cfg, World(map[], Empty()), moves, id) <= Most(cfg.policy, moves, id)
    ensures StillOpen(Exec(cfg, World(map[], Empty()), moves).s, id) ==>
              KeptDispatches(cfg, World(map[], Empty()), moves, id) < Most(cfg.policy, moves, id)
  {
    SpendableIsAllowance(cfg.policy, moves, id, 0);
    UsesBounded(cfg, World(map[], Empty()), moves, id, Most(cfg.policy, moves, id));
  }
}
