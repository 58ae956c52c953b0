/**
 Whole relay cycles are runs of the send protocol, disturbed by others or not.
 */
module RelaySteps {
  import opened OutboxRows
  import opened OutboxTable
  import opened SendProtocol
  import opened SendTheorems
  import opened Relay
  import OutboxSteps

  /** The protocol state after the publish of one row, acknowledged or not. */
  function PublishedTo(cfg: Config, s: State, m: Message, c: ClaimId, cycle: Cycle, i: nat): State {
    var p := cfg.partition(m.entity);
    if Appends(cycle, i) then s.(log := s.log[p := LogOf(s.log, p) + [m]],
                                 acked := if cycle.acked(i) then s.acked + {(m, c)} else s.acked)
    else s
  }

  lemma PublishIsStep(cfg: Config, s: State, m: Message, c: ClaimId, cycle: Cycle, i: nat)
    requires Reachable(cfg, s) && HeldBy(s.rows, m.id, c) && s.rows[m.id].msg == m
    ensures Reachable(cfg, PublishedTo(cfg, s, m, c, cycle, i))
  {
    if Appends(cycle, i) {
      ReachableOn(cfg, s, Publish(m.id, c, cycle.acked(i)));
    }
  }

  lemma MarkIsStep(cfg: Config, s: State, m: Message, c: ClaimId, acked: bool, retryAt: Time)
    requires Reachable(cfg, s) && c in s.issued && (acked ==> (m, c) in s.acked)
    ensures Reachable(cfg, s.(rows := Marked(s.rows, m.id, c, acked, retryAt)))
  {
    if acked {
      OutboxSteps.PublishedIsStep(cfg, s, m, c);
    } else {
      OutboxSteps.FailedIsStep(cfg, s, m.id, c, retryAt);
    }
  }

  /** One row's turn in a cycle: it is published while the claim is current,
      others take any steps of the protocol, and it is marked. */
  ghost predicate Turn(cfg: Config, cycle: Cycle, m: Message, c: ClaimId, retryAt: Time, i: nat, s: State, between: seq<Step>,
                       s': State) {
    && HeldBy(s.rows, m.id, c) && s.rows[m.id].msg == m
    && Runs(cfg, PublishedTo(cfg, s, m, c, cycle, i), between)
    && var mid := Exec(cfg, PublishedTo(cfg, s, m, c, cycle, i), between);
       && cycle.others(i, s.rows, s.sequence) == (mid.rows, mid.sequence)
       && s' == mid.(rows := Marked(mid.rows, m.id, c, cycle.acked(i), retryAt))
  }

  lemma TurnIsSteps(cfg: Config, cycle: Cycle, m: Message, c: ClaimId, retryAt: Time, i: nat, s: State, between: seq<Step>,
                    s': State)
    requires Reachable(cfg, s) && c in s.issued && Turn(cfg, cycle, m, c, retryAt, i, s, between, s')
    ensures Reachable(cfg, s') && c in s'.issued
  {
    var sent := PublishedTo(cfg, s, m, c, cycle, i);
    var mid := Exec(cfg, sent, between);
    PublishIsStep(cfg, s, m, c, cycle, i);
    ReachableAlong(cfg, sent, between);
    OnlyGrows(cfg, sent, between);
    MarkIsStep(cfg, mid, m, c, cycle.acked(i), retryAt);
  }

  /** A cycle among others: the states in which its rows are published, and what
      the others do before each mark. */
  ghost predicate Turns(cfg: Config, cycle: Cycle, batch: seq<Row>, c: ClaimId, retryAt: Time, states: seq<State>,
                        between: seq<seq<Step>>) {
    && |states| == |between| + 1 && |between| <= |batch|
    && forall i :: 0 <= i < |between| ==> TurnAt(cfg, cycle, batch, c, retryAt, states, between, i)
  }

  ghost predicate TurnAt(cfg: Config, cycle: Cycle, batch: seq<Row>, c: ClaimId, retryAt: Time, states: seq<State>,
                         between: seq<seq<Step>>, i: nat)
    requires |states| == |between| + 1 && |between| <= |batch| && i < |between|
  {
    Turn(cfg, cycle, batch[i].msg, c, retryAt, i, states[i], between[i], states[i + 1])
  }

  lemma {:induction false} ReachableTurn(cfg: Config, cycle: Cycle, batch: seq<Row>, c: ClaimId, retryAt: Time,
                                         states: seq<State>, between: seq<seq<Step>>, n: nat)
    requires Turns(cfg, cycle, batch, c, retryAt, states, between) && n <= |between|
    requires Reachable(cfg, states[0]) && c in states[0].issued
    ensures Reachable(cfg, states[n]) && c in states[n].issued
  {
    if n > 0 {
      ReachableTurn(cfg, cycle, batch, c, retryAt, states, between, n - 1);
      assert TurnAt(cfg, cycle, batch, c, retryAt, states, between, n - 1);
      TurnIsSteps(cfg, cycle, batch[n - 1].msg, c, retryAt, n - 1, states[n - 1], between[n - 1], states[n]);
    }
  }

  lemma TurnMarks(cfg: Config, cycle: Cycle, batch: seq<Row>, c: ClaimId, retryAt: Time, states: seq<State>,
                  between: seq<seq<Step>>, i: nat, b: Books)
    requires Turns(cfg, cycle, batch, c, retryAt, states, between) && i < |between|
    requires b.rows == states[i].rows && b.sequence == states[i].sequence
    ensures var b' := MarkNext(cycle, batch[i].msg.id, c, retryAt, b, i);
            b'.rows == states[i + 1].rows && b'.sequence == states[i + 1].sequence
  {
    assert TurnAt(cfg, cycle, batch, c, retryAt, states, between, i);
  }

  lemma {:induction false} TurnsWorked(cfg: Config, cycle: Cycle, batch: seq<Row>, c: ClaimId, retryAt: Time,
                                       states: seq<State>, between: seq<seq<Step>>, start: Books, n: nat)
    requires Turns(cfg, cycle, batch, c, retryAt, states, between) && n <= |between|
    requires start.rows == states[0].rows && start.sequence == states[0].sequence
    ensures var b := Worked(cycle, batch, c, retryAt, start, n);
            b.rows == states[n].rows && b.sequence == states[n].sequence
  {
    if n > 0 {
      TurnsWorked(cfg, cycle, batch, c, retryAt, states, between, start, n - 1);
      TurnMarks(cfg, cycle, batch, c, retryAt, states, between, n - 1, Worked(cycle, batch, c, retryAt, start, n - 1));
    }
  }

  /** A cycle is a run of the protocol whatever others do meanwhile, as long as its
      claim is current on each row it publishes: what `RelayOnce` leaves in the
      table is the rows of the state reached. */
  lemma RelayIsSteps(cfg: Config, cycle: Cycle, batch: seq<Row>, c: ClaimId, retryAt: Time, states: seq<State>,
                     between: seq<seq<Step>>, start: Books, n: nat)
    requires Turns(cfg, cycle, batch, c, retryAt, states, between) && n <= |between|
    requires Reachable(cfg, states[0]) && c in states[0].issued
    requires start.rows == states[0].rows && start.sequence == states[0].sequence
    ensures Reachable(cfg, states[n])
    ensures var b := Worked(cycle, batch, c, retryAt, start, n);
            b.rows == states[n].rows && b.sequence == states[n].sequence
  {
    ReachableTurn(cfg, cycle, batch, c, retryAt, states, between, n);
    TurnsWorked(cfg, cycle, batch, c, retryAt, states, between, start, n);
  }

  /** What a publish appends to one partition. */
  function Own(cfg: Config, cycle: Cycle, m: Message, i: nat, p: int): seq<Message> {
    if Appends(cycle, i) && cfg.partition(m.entity) == p then [m] else []
  }

  lemma PublishGrows(cfg: Config, s: State, m: Message, c: ClaimId, cycle: Cycle, i: nat, p: int)
    ensures LogOf(PublishedTo(cfg, s, m, c, cycle, i).log, p) == LogOf(s.log, p) + Own(cfg, cycle, m, i, p)
  {}

  /** A turn appends its own record, and others only append after it. */
  lemma TurnLog(cfg: Config, cycle: Cycle, batch: seq<Row>, c: ClaimId, retryAt: Time, states: seq<State>,
                between: seq<seq<Step>>, i: nat, p: int)
    requires Turns(cfg, cycle, batch, c, retryAt, states, between) && i < |between|
    ensures var sent := LogOf(states[i].log, p) + Own(cfg, cycle, batch[i].msg, i, p);
            sent <= LogOf(states[i + 1].log, p) && (between[i] == [] ==> sent == LogOf(states[i + 1].log, p))
  {
    assert TurnAt(cfg, cycle, batch, c, retryAt, states, between, i);
    PublishGrows(cfg, states[i], batch[i].msg, c, cycle, i, p);
    OnlyGrows(cfg, PublishedTo(cfg, states[i], batch[i].msg, c, cycle, i), between[i]);
  }

  /** Each record that reached the log follows what its partition held when it was
      published, and stays there. */
  lemma {:induction false} RelayedLog(cfg: Config, cycle: Cycle, batch: seq<Row>, c: ClaimId, retryAt: Time,
                                      states: seq<State>, between: seq<seq<Step>>, i: nat, n: nat)
    requires Turns(cfg, cycle, batch, c, retryAt, states, between) && i < n <= |between| && Appends(cycle, i)
    ensures var p := cfg.partition(batch[i].msg.entity);
            LogOf(states[i].log, p) + [batch[i].msg] <= LogOf(states[n].log, p)
  {
    TurnLog(cfg, cycle, batch, c, retryAt, states, between, n - 1, cfg.partition(batch[i].msg.entity));
    if i < n - 1 {
      RelayedLog(cfg, cycle, batch, c, retryAt, states, between, i, n - 1);
    }
  }

  // ----- A cycle nobody disturbs -----------------------------------------------------------------

  function Idle(n: nat): seq<seq<Step>> {
    seq(n, _ => [])
  }

  /** The protocol state after one row is published and marked. */
  function Delivered(cfg: Config, s: State, m: Message, c: ClaimId, cycle: Cycle, i: nat, retryAt: Time): State {
    var sent := PublishedTo(cfg, s, m, c, cycle, i);
    sent.(rows := Marked(sent.rows, m.id, c, cycle.acked(i), retryAt))
  }

  lemma DeliveredTurn(cfg: Config, s: State, m: Message, c: ClaimId, cycle: Cycle, i: nat, retryAt: Time)
    requires Undisturbed(cycle) && HeldBy(s.rows, m.id, c) && s.rows[m.id].msg == m
    ensures Turn(cfg, cycle, m, c, retryAt, i, s, [], Delivered(cfg, s, m, c, cycle, i, retryAt))
  {
    assert LeftAlone(cycle, i, s.rows, s.sequence);
  }

  lemma TurnsOn(cfg: Config, cycle: Cycle, batch: seq<Row>, c: ClaimId, retryAt: Time, states: seq<State>, n: nat, s: State)
    requires n < |batch| && |states| == n + 1 && Turns(cfg, cycle, batch, c, retryAt, states, Idle(n))
    requires Turn(cfg, cycle, batch[n].msg, c, retryAt, n, states[n], [], s)
    ensures Turns(cfg, cycle, batch, c, retryAt, states + [s], Idle(n + 1))
  {
    var more, idle := states + [s], Idle(n + 1);
    forall i | 0 <= i <= n ensures TurnAt(cfg, cycle, batch, c, retryAt, more, idle, i) {
      if i < n {
        assert TurnAt(cfg, cycle, batch, c, retryAt, states, Idle(n), i);
      }
    }
  }

  lemma AloneHeld(cfg: Config, cycle: Cycle, batch: seq<Row>, c: ClaimId, retryAt: Time, states: seq<State>, n: nat)
    requires n < |batch| && |states| == n + 1 && Turns(cfg, cycle, batch, c, retryAt, states, Idle(n))
    requires Undisturbed(cycle) && Batch(states[0].rows, batch, c)
    ensures HeldBy(states[n].rows, batch[n].msg.id, c) && states[n].rows[batch[n].msg.id] == batch[n]
  {
    var start := Books(states[0].rows, states[0].sequence, Stats(0, 0, 0, 0, 0));
    TurnsWorked(cfg, cycle, batch, c, retryAt, states, Idle(n), start, n);
    AloneExactly(cycle, batch, c, retryAt, start, n);
    AloneOn(cycle, batch, c, retryAt, start, Worked(cycle, batch, c, retryAt, start, n), n);
  }

  /** Undisturbed, the claim stays current on every row until its turn, so the whole
      cycle is a run of the protocol. */
  lemma {:induction false} AloneTurns(cfg: Config, s: State, cycle: Cycle, batch: seq<Row>, c: ClaimId, retryAt: Time, n: nat)
    returns (states: seq<State>)
    requires Reachable(cfg, s) && c in s.issued && Undisturbed(cycle) && n <= |batch| && Batch(s.rows, batch, c)
    ensures |states| == n + 1 && states[0] == s && Turns(cfg, cycle, batch, c, retryAt, states, Idle(n))
  {
    if n == 0 {
      states := [s];
    } else {
      states := AloneTurns(cfg, s, cycle, batch, c, retryAt, n - 1);
      AloneHeld(cfg, cycle, batch, c, retryAt, states, n - 1);
      var next := Delivered(cfg, states[n - 1], batch[n - 1].msg, c, cycle, n - 1, retryAt);
      DeliveredTurn(cfg, states[n - 1], batch[n - 1].msg, c, cycle, n - 1, retryAt);
      TurnsOn(cfg, cycle, batch, c, retryAt, states, n - 1, next);
      states := states + [next];
    }
  }

  /** The records the first `n` publishes appended to one partition. */
  function SentTo(cfg: Config, cycle: Cycle, batch: seq<Row>, n: nat, p: int): seq<Message>
    requires n <= |batch|
  {
    if n == 0 then [] else SentTo(cfg, cycle, batch, n - 1, p) + Own(cfg, cycle, batch[n - 1].msg, n - 1, p)
  }

  lemma IdleLog(cfg: Config, cycle: Cycle, batch: seq<Row>, c: ClaimId, retryAt: Time, states: seq<State>, i: nat, p: int,
                start: seq<Message>, sent: seq<Message>)
    requires i + 1 < |states| && Turns(cfg, cycle, batch, c, retryAt, states, Idle(|states| - 1))
    requires LogOf(states[i].log, p) == start + sent
    ensures LogOf(states[i + 1].log, p) == start + (sent + Own(cfg, cycle, batch[i].msg, i, p))
  {
    TurnLog(cfg, cycle, batch, c, retryAt, states, Idle(|states| - 1), i, p);
  }

  /** Undisturbed, a cycle appends to each partition exactly what it sent there, in
      order. */
  lemma {:induction false} AloneLog(cfg: Config, cycle: Cycle, batch: seq<Row>, c: ClaimId, retryAt: Time,
                                    states: seq<State>, n: nat, p: int)
    requires n < |states| && Turns(cfg, cycle, batch, c, retryAt, states, Idle(|states| - 1))
    ensures LogOf(states[n].log, p) == LogOf(states[0].log, p) + SentTo(cfg, cycle, batch, n, p)
  {
    if n > 0 {
      AloneLog(cfg, cycle, batch, c, retryAt, states, n - 1, p);
      IdleLog(cfg, cycle, batch, c, retryAt, states, n - 1, p, LogOf(states[0].log, p), SentTo(cfg, cycle, batch, n - 1, p));
    }
  }
}
