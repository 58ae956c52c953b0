/**
 The dispatcher and the received table it works on, each method one transaction.
 Handlers write before they fail, so it is the savepoint that undoes them.
 */
module Dispatcher {
  import opened Wrappers
  import opened EntityCache
  import opened ReceivedRows
  import opened ReceiveProtocol
  import opened Selection

  datatype MarkOutcome = Updated | StaleClaim | Missing

  datatype Stats = Stats(claimed: nat, processed: nat, failed: nat, panicked: Option<MessageId>)

  function CreatedOf(rows: map<MessageId, Row>, id: MessageId): Time {
    if id in rows then rows[id].createdAt else 0
  }

  function ByCreated(rows: map<MessageId, Row>): (MessageId, MessageId) -> bool {
    (a: MessageId, b: MessageId) => CreatedOf(rows, a) <= CreatedOf(rows, b)
  }

  function DueRows(rows: map<MessageId, Row>, now: Time, locked: set<MessageId>): set<MessageId> {
    set id | id in rows && Due(rows[id], now) && id !in locked
  }

  /** `ORDER BY last_failed_at, created_at, message_id`, absent times last. */
  predicate FailedBefore(rows: map<MessageId, Row>, a: MessageId, b: MessageId) {
    if a !in rows || b !in rows then a in rows || (b !in rows && a <= b)
    else
      var x, y := rows[a].lastFailedAt, rows[b].lastFailedAt;
      if x != y then y.None? || (x.Some? && x.value < y.value)
      else rows[a].createdAt < rows[b].createdAt || (rows[a].createdAt == rows[b].createdAt && a <= b)
  }

  function ByFailure(rows: map<MessageId, Row>): (MessageId, MessageId) -> bool {
    (a: MessageId, b: MessageId) => FailedBefore(rows, a, b)
  }

  function RedrivableRows(rows: map<MessageId, Row>, since: Option<Time>, kind: Option<FailureKind>,
                          locked: set<MessageId>): set<MessageId> {
    set id | id in rows && Redrivable(rows[id], since, kind) && id !in locked
  }

  /** No row left out failed before one that was taken: rows without a failure time come
      last, then the older row goes first. */
  ghost predicate OldestFailuresFirst(rows: map<MessageId, Row>, page: seq<MessageId>, matching: set<MessageId>) {
    forall x, y :: x in page && y in matching && y !in page && x in rows && y in rows ==>
      var a, b := rows[x], rows[y];
      && (a.lastFailedAt.None? ==> b.lastFailedAt.None?)
      && (a.lastFailedAt.Some? && b.lastFailedAt.Some? ==> a.lastFailedAt.value <= b.lastFailedAt.value)
      && (a.lastFailedAt == b.lastFailedAt ==> a.createdAt <= b.createdAt && (a.createdAt == b.createdAt ==> x < y))
  }

  /** What follows a lost claim transaction: what others do to the tables before
      the failure is recorded on a fresh connection, and whether that works. */
  datatype Recovery = Recovery(others: State -> State, connects: bool)

  function Meanwhile(recovery: Recovery, s: State): State {
    var after := recovery.others(s);
    s.(received := after.received, cache := after.cache, effects := after.effects)
  }

  /** The fault an attempt rolls back with, if it does. */
  function FaultOf(cfg: Config, s: State, id: MessageId, a: Attempt, now: Time): Option<(Error, FailureStage)>
    requires id in s.received
  {
    if (cfg.before || cfg.after) && Converge(cfg, s, id, a, now).Failure?
    then Some(Converge(cfg, s, id, a, now).error) else None
  }

  /** The attempt ends in a caught handler panic. */
  predicate Panics(cfg: Config, s: State, id: MessageId, a: Attempt, now: Time)
    requires id in s.received
  {
    FaultOf(cfg, s, id, a, now).Some? && FaultOf(cfg, s, id, a, now).value.0.HandlerPanicked?
  }

  /** The attempt loses its claim transaction. */
  predicate Loses(cfg: Config, s: State, id: MessageId, a: Attempt, now: Time)
    requires id in s.received
  {
    FaultOf(cfg, s, id, a, now).Some? && !a.rollbackWorks
  }

  /** Where one call of the dispatcher leaves the tables: the dispatch of its row,
      and after a lost transaction the late record of its failure. */
  function Finished(cfg: Config, s: State, id: MessageId, a: Attempt, now: Time, recovery: Recovery): State
    requires id in s.received
  {
    if Loses(cfg, s, id, a, now) then
      var fault := FaultOf(cfg, s, id, a, now).value;
      var m := Meanwhile(recovery, s);
      if recovery.connects
      then Recorded(cfg, m, id, s.received[id].attempts, FailureDisposition(fault.0, fault.1), now, a.retryAt) else m
    else Dispatched(cfg, s, id, a, now)
  }

  /** A call that keeps its transaction is the protocol's dispatch step. One that
      loses it is that step, whatever others do, and then the step that records or
      drops what was handed over. */
  lemma FinishedIsSteps(cfg: Config, log: Log, s: State, id: MessageId, a: Attempt, now: Time, recovery: Recovery)
    requires Enabled(cfg, log, s, Dispatch(id, a, now))
    ensures var s1 := Apply(cfg, log, s, Dispatch(id, a, now)); var s' := Finished(cfg, s, id, a, now, recovery);
            if !Loses(cfg, s, id, a, now) then s' == s1
            else
              var fault := FaultOf(cfg, s, id, a, now).value;
              var f := Fallback(id, s.received[id].attempts, FailureDisposition(fault.0, fault.1), now);
              var m := Meanwhile(recovery, s);
              var late := m.(fallbacks := s1.fallbacks);
              var step := if recovery.connects then RecordFallback(f, a.retryAt) else DropFallback(f);
              s1 == s.(fallbacks := s1.fallbacks) && Enabled(cfg, log, late, step) && s' == Apply(cfg, log, late, step)
  {
    if Loses(cfg, s, id, a, now) {
      var fault := FaultOf(cfg, s, id, a, now).value;
      var f := Fallback(id, s.received[id].attempts, FailureDisposition(fault.0, fault.1), now);
      assert s.fallbacks + multiset{f} - multiset{f} == s.fallbacks;
    }
  }

  function OutcomeOf(received: map<MessageId, Row>, id: MessageId): MarkOutcome {
    if id !in received then Missing else if Open(received[id]) then Updated else StaleClaim
  }

  /** The counts of one call on a claimed row: processed when this call processed
      it, failed when this call's record added an attempt to it, else neither,
      which takes a lost transaction. */
  predicate Tells(stats: Stats, s: State, received: map<MessageId, Row>, id: MessageId, lost: bool, recovery: Recovery)
    requires id in s.received
  {
    var before := if lost then Meanwhile(recovery, s).received else s.received;
    && stats.claimed == 1 >= stats.processed + stats.failed
    && (stats.processed == 1 <==> !lost && id in received && received[id].status.Processed?)
    && (stats.failed == 1 <==> id in before && id in received && received[id].attempts == before[id].attempts + 1)
    && (stats.processed + stats.failed == 0 ==> lost)
  }

  function Ids(page: seq<MessageId>): set<MessageId> {
    set id | id in page
  }

  class Dispatcher {
    const cfg: Config
    var received: map<MessageId, Row>
    var cache: map<Entity, CacheRow>
    var effects: seq<Effect>

    constructor (cfg: Config, received: map<MessageId, Row>)
      ensures this.cfg == cfg && Tables() == Empty().(received := received)
    {
      this.cfg, this.received, cache, effects := cfg, received, map[], [];
    }

    /** The tables as a state of the receive protocol. */
    function Tables(): State
      reads this
    {
      Empty().(received := received, cache := cache, effects := effects)
    }

    /** `claim_received_row`: the oldest due row nobody has locked. */
    method ClaimReceivedRow(now: Time, locked: set<MessageId>) returns (claimed: Option<MessageId>)
      ensures claimed.None? <==> DueRows(received, now, locked) == {}
      ensures claimed.Some? ==>
                && claimed.value in DueRows(received, now, locked) && claimed.value !in locked
                && forall id :: id in DueRows(received, now, locked) ==>
                     received[claimed.value].createdAt <= received[id].createdAt
    {
      var due := DueRows(received, now, locked);
      if due == {} {
        return None;
      }
      var first := First(due, ByCreated(received));
      assert forall id :: id in due ==> ByCreated(received)(first, id);
      return Some(first);
    }

    /** `mark_received_processed`. */
    method MarkReceivedProcessed(id: MessageId, at: Time) returns (outcome: MarkOutcome)
      modifies this`received
      ensures received == if id in old(received) then old(received)[id := MarkProcessed(old(received[id]), at)] else old(received)
      ensures outcome == OutcomeOf(old(received), id)
    {
      if id in received && Open(received[id]) {
        received := received[id := received[id].(status := Processed, processedAt := Some(at))];
        outcome := Updated;
      } else {
        outcome := if id in received then StaleClaim else Missing;
      }
    }

    /** `record_received_failure`. */
    method RecordReceivedFailure(id: MessageId, seen: nat, d: Disposition, at: Time, retryAt: Time)
      returns (outcome: MarkOutcome)
      modifies this`received
      ensures Tables() == Recorded(cfg, old(Tables()), id, seen, d, at, retryAt)
      ensures outcome == OutcomeOf(old(received), id)
    {
      if id in received && Open(received[id]) {
        var r := received[id];
        var exhausted := d.terminal || seen + 1 >= cfg.policy.maxAttempts;
        var errors := r.errors + [ErrorEntry(d.kind, d.stage, at)];
        var limit := Limit(cfg.policy);
        if |errors| > limit {
          errors := errors[|errors| - limit..];
        }
        received := received[id := r.(status := if exhausted then ReceiveStatus.Failed else Retryable,
                                      attempts := r.attempts + 1,
                                      nextAttemptAt := if exhausted then None else Some(retryAt),
                                      errors := errors, lastFailedAt := Some(at), lastFailureKind := Some(d.kind))];
        outcome := Updated;
      } else {
        outcome := if id in received then StaleClaim else Missing;
      }
    }

    /** One handler call: its writes land before its result is known. */
    method RunHandler(effect: Effect, result: HandlerResult) returns (error: Option<Error>)
      modifies this`effects
      ensures effects == old(effects) + [effect]
      ensures error == if result.Faults? then Some(result.error) else None
    {
      effects := effects + [effect];
      error := if result.Faults? then Some(result.error) else None;
    }

    /** `converge_and_dispatch`: on success the tables are the converged ones; on a
        fault they are left as the fault found them. */
    method ConvergeAndDispatch(id: MessageId, a: Attempt, now: Time) returns (fault: Option<(Error, FailureStage)>)
      requires id in received && Open(received[id])
      modifies this
      ensures fault.None? ==> Converge(cfg, old(Tables()), id, a, now) == Success(Tables())
      ensures fault.Some? ==> Converge(cfg, old(Tables()), id, a, now) == Failure(fault.value)
    {
      var row := received[id];
      if cfg.before {
        var error := RunHandler(Before(id, a.skip), a.before);
        if error.Some? {
          return Some((error.value, InHandler));
        }
      }
      var entity := EntityKeyOf(row);
      if entity.Failure? {
        return Some((entity.error, Bookkeeping));
      }
      var e := entity.value;
      var applied := Upsert(if e in cache then Some(cache[e]) else None, row.snapshot, cfg.topic);
      if applied.Failure? {
        return Some((CacheOriginMismatch, Bookkeeping));
      }
      cache := cache[e := applied.value.0];
      if cfg.after && !(cfg.before && a.skip) && !applied.value.1.Ignored? {
        var error := RunHandler(After(id), a.after);
        if error.Some? {
          return Some((error.value, InHandler));
        }
      }
      if a.databaseFails {
        return Some((Database, Bookkeeping));
      }
      var _ := MarkReceivedProcessed(id, now);
      return None;
    }

    /** `unwind_and_record`: the failure on the row it claimed, in the claim
        transaction or, if that is lost, on a fresh connection, where others may
        have been at the row first. Without a connection the call errs. */
    method UnwindAndRecord(id: MessageId, fault: (Error, FailureStage), a: Attempt, now: Time, recovery: Recovery)
      returns (outcome: Option<MarkOutcome>)
      requires id in received && Open(received[id])
      modifies this
      ensures var d := FailureDisposition(fault.0, fault.1); var seen := old(received[id]).attempts;
              var s := if a.rollbackWorks then old(Tables()) else Meanwhile(recovery, old(Tables()));
              if a.rollbackWorks || recovery.connects
              then Tables() == Recorded(cfg, s, id, seen, d, now, a.retryAt) && outcome == Some(OutcomeOf(s.received, id))
              else Tables() == s && outcome == None
    {
      var d, seen := FailureDisposition(fault.0, fault.1), received[id].attempts;
      if !a.rollbackWorks {
        var after := recovery.others(Tables());
        received, cache, effects := after.received, after.cache, after.effects;
        if !recovery.connects {
          return None;
        }
      }
      var recorded := RecordReceivedFailure(id, seen, d, now, a.retryAt);
      outcome := Some(recorded);
    }

    /** `dispatch_once`: claim the oldest due row, and leave the tables exactly as
        the protocol's dispatch of that row does: converged, or rolled back with
        the failure recorded; a lost transaction is followed by the late record.
        A failure counts when its record updated the row, and without one the call
        errs. */
    method DispatchOnce(now: Time, locked: set<MessageId>, a: Attempt, recovery: Recovery)
      returns (stats: Option<Stats>, claimed: Option<MessageId>)
      modifies this
      ensures claimed.None? <==> DueRows(old(received), now, locked) == {}
      ensures claimed.None? ==> Tables() == old(Tables()) && stats == Some(Stats(0, 0, 0, None))
      ensures claimed.Some? ==>
                && claimed.value in DueRows(old(received), now, locked)
                && var s, id := old(Tables()), claimed.value;
                && Tables() == Finished(cfg, s, id, a, now, recovery)
                && (stats.None? <==> Loses(cfg, s, id, a, now) && !recovery.connects)
                && (stats.Some? ==> Tells(stats.value, s, received, id, Loses(cfg, s, id, a, now), recovery)
                                    && stats.value.panicked == if Panics(cfg, s, id, a, now) then claimed else None)
    {
      claimed := ClaimReceivedRow(now, locked);
      if claimed.None? {
        return Some(Stats(0, 0, 0, None)), None;
      }
      var id := claimed.value;
      var seen := received[id].attempts;
      if !cfg.before && !cfg.after {
        var _ := RecordReceivedFailure(id, seen, FailureDisposition(NoHandler, Routing), now, a.retryAt);
        return Some(Stats(1, 0, 1, None)), claimed;
      }
      var savedRows, savedCache, savedEffects := received, cache, effects;
      var fault := ConvergeAndDispatch(id, a, now);
      if fault.None? {
        return Some(Stats(1, 1, 0, None)), claimed;
      }
      received, cache, effects := savedRows, savedCache, savedEffects;
      var outcome := UnwindAndRecord(id, fault.value, a, now, recovery);
      if outcome.None? {
        return None, claimed;
      }
      var panicked := if fault.value.0.HandlerPanicked? then claimed else None;
      return Some(Stats(1, 0, if outcome.value.Updated? then 1 else 0, panicked)), claimed;
    }

    /** `redrive_received`: the first `maxRows` matching rows in failure order go
        back to Pending, history kept unless cleared. */
    method RedriveReceived(since: Option<Time>, kind: Option<FailureKind>, maxRows: nat, clearHistory: bool,
                           locked: set<MessageId>)
      returns (moved: nat, ghost page: seq<MessageId>)
      modifies this`received
      ensures FirstPage(page, RedrivableRows(old(received), since, kind, locked), maxRows, ByFailure(old(received)))
      ensures received == RedriveRows(old(received), Ids(page), clearHistory) && moved == |page| <= maxRows
      ensures forall id :: id in page ==> id !in locked
      ensures OldestFailuresFirst(old(received), page, RedrivableRows(old(received), since, kind, locked))
    {
      var chosen := TakeFirst(RedrivableRows(received, since, kind, locked), maxRows, ByFailure(received));
      assert forall x, y :: x in chosen && y in RedrivableRows(received, since, kind, locked) && y !in chosen ==>
               ByFailure(received)(x, y);
      page := chosen;
      received := RedriveRows(received, Ids(chosen), clearHistory);
      moved := |chosen|;
    }
  }
}
