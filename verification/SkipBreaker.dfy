/**
 The ingest breaker's streak: how many records in a row were skipped.
 */
module SkipBreaker {
  import opened Wrappers
  import opened ReceivedRows
  import opened ReceiveProtocol
  import opened ReceiveTheorems

  /** Ingest cannot store the record and cannot call it a duplicate: it does not
      decode, its handling panics, or its message id is taken under another key. */
  ghost predicate Skips(received: map<MessageId, Row>, w: Wire, panics: bool) {
    panics || w.Unreadable? || (w.id in received && forall id :: id in received ==> received[id].key != w.key)
  }

  /** The last `n` records were all skipped. */
  ghost predicate LastSkipped(skipped: seq<bool>, n: nat) {
    n <= |skipped| && forall i :: |skipped| - n <= i < |skipped| ==> skipped[i]
  }

  /** How many records at the end were skipped one after the other. */
  function Streak(skipped: seq<bool>): nat {
    if skipped == [] || !skipped[|skipped| - 1] then 0 else Streak(skipped[..|skipped| - 1]) + 1
  }

  lemma StreakOn(skipped: seq<bool>, skip: bool)
    ensures Streak(skipped + [skip]) == if skip then Streak(skipped) + 1 else 0
  {
    assert (skipped + [skip])[..|skipped|] == skipped;
  }

  /** The streak is at least `n` exactly when the last `n` records were skipped. */
  lemma {:induction false} StreakExactly(skipped: seq<bool>, n: nat)
    ensures n <= Streak(skipped) <==> LastSkipped(skipped, n)
  {
    if n > 0 && skipped != [] {
      var before := skipped[..|skipped| - 1];
      StreakExactly(before, n - 1);
      assert forall i :: 0 <= i < |before| ==> before[i] == skipped[i];
      if LastSkipped(skipped, n) {
        assert skipped[|skipped| - 1];
      }
    }
  }

  // ----- Over runs of the protocol ---------------------------------------------------------------

  /** Which of the records ingested since the last restart were skipped. */
  ghost function Outcomes(cfg: Config, w: World, moves: seq<Move>, before: seq<bool>): seq<bool>
    requires Runs(cfg, w, moves)
    decreases |moves|
  {
    if moves == [] then before else Outcomes(cfg, Do(cfg, w, moves[0]), moves[1..], OutcomesOn(cfg, w, moves[0], before))
  }

  ghost function OutcomesOn(cfg: Config, w: World, m: Move, before: seq<bool>): seq<bool>
    requires Can(cfg, w, m)
  {
    if m.Act? && m.step.Restart? then []
    else if m.Act? && m.step.Ingest? then
      before + [Skips(w.s.received, LogOf(w.log, m.step.p)[At(w.s.position, m.step.p)], m.step.panics)]
    else before
  }

  lemma SkipsExactly(received: map<MessageId, Row>, w: Wire, panics: bool)
    ensures Skips(received, w, panics) <==> panics || w.Unreadable? || InsertOutcomeOf(received, w).MessageIdConflict?
  {}

  lemma IngestStreak(cfg: Config, s: State, p: int, o: nat, w: Wire, panics: bool, now: Time, before: seq<bool>)
    requires s.skips == Streak(before) && s.tripped.None?
    ensures var s', skips := Ingested(cfg, s, p, o, w, panics, now), Skips(s.received, w, panics);
            && s'.skips == Streak(before + [skips])
            && (s'.tripped.Some? <==> skips && LastSkipped(before + [skips], cfg.maxSkips))
            && (s'.tripped.Some? ==> s'.tripped == Some((p, o)))
  {
    var skips := Skips(s.received, w, panics);
    SkipsExactly(s.received, w, panics);
    StreakOn(before, skips);
    StreakExactly(before + [skips], cfg.maxSkips);
  }

  lemma MoveStreak(cfg: Config, w: World, m: Move, before: seq<bool>)
    requires Can(cfg, w, m) && w.s.skips == Streak(before)
    ensures Do(cfg, w, m).s.skips == Streak(OutcomesOn(cfg, w, m, before))
  {
    if m.Act? {
      match m.step
      case Ingest(p, panics, now) =>
        var o := At(w.s.position, p);
        IngestStreak(cfg, w.s, p, o, LogOf(w.log, p)[o], panics, now, before);
      case _ =>
    }
  }

  lemma {:induction false} RunStreak(cfg: Config, w: World, moves: seq<Move>, before: seq<bool>)
    requires Runs(cfg, w, moves) && w.s.skips == Streak(before)
    ensures Exec(cfg, w, moves).s.skips == Streak(Outcomes(cfg, w, moves, before))
    decreases |moves|
  {
    if moves != [] {
      MoveStreak(cfg, w, moves[0], before);
      RunStreak(cfg, Do(cfg, w, moves[0]), moves[1..], OutcomesOn(cfg, w, moves[0], before));
    }
  }

  /** Whether the next ingest trips is decided by the records before it. */
  ghost predicate Trips(cfg: Config, w: World, p: int, panics: bool, now: Time, before: seq<bool>)
    requires Enabled(cfg, w.log, w.s, Ingest(p, panics, now))
  {
    var o := At(w.s.position, p);
    var skips := Skips(w.s.received, LogOf(w.log, p)[o], panics);
    var s' := Apply(cfg, w.log, w.s, Ingest(p, panics, now));
    && (s'.tripped.Some? <==> skips && LastSkipped(before + [skips], cfg.maxSkips))
    && (s'.tripped.Some? ==> s'.tripped == Some((p, o)) && s'.committed == w.s.committed)
  }

  lemma IngestTrips(cfg: Config, w: World, p: int, panics: bool, now: Time, before: seq<bool>)
    requires Enabled(cfg, w.log, w.s, Ingest(p, panics, now)) && w.s.skips == Streak(before)
    ensures Trips(cfg, w, p, panics, now, before)
  {
    var o := At(w.s.position, p);
    IngestStreak(cfg, w.s, p, o, LogOf(w.log, p)[o], panics, now, before);
  }

  /** In every run an ingest trips the breaker if and only if its record and the ones
      ingested before it since the last restart end in `maxSkips` skipped records in
      a row; a stored or duplicate record in between starts the count again. */
  lemma TripsExactly(cfg: Config, moves: seq<Move>, p: int, panics: bool, now: Time)
    requires Runs(cfg, World(map[], Empty()), moves)
    requires var w := Exec(cfg, World(map[], Empty()), moves); Enabled(cfg, w.log, w.s, Ingest(p, panics, now))
    ensures Trips(cfg, Exec(cfg, World(map[], Empty()), moves), p, panics, now,
                  Outcomes(cfg, World(map[], Empty()), moves, []))
  {
    RunStreak(cfg, World(map[], Empty()), moves, []);
    IngestTrips(cfg, Exec(cfg, World(map[], Empty()), moves), p, panics, now,
                Outcomes(cfg, World(map[], Empty()), moves, []));
  }
}
