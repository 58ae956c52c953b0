/**
 The ingester: store or quarantine one record, count skips, then acknowledge it.
 */
module Ingester {
  import opened Wrappers
  import opened ReceivedRows
  import opened ReceiveProtocol
  import SkipBreaker

  datatype Stats = Stats(inserted: nat, duplicates: nat, skipped: nat, committed: nat)

  /** The breaker's error: the record it stopped on. */
  datatype Tripped = Tripped(partition: int, offset: nat)

  /** Rows the conflict query returns: same message id or same key. */
  function Conflicting(received: map<MessageId, Row>, w: Wire): set<MessageId>
    requires w.Readable?
  {
    set id | id in received && (id == w.id || received[id].key == w.key)
  }

  /** What one committed record counts as: inserted when its message id is new to the
      table, skipped when it was, and else a duplicate. */
  ghost predicate Counts(stats: Stats, was: map<MessageId, Row>, received: map<MessageId, Row>, w: Wire, skipped: bool) {
    && stats.inserted + stats.duplicates + stats.skipped == 1 == stats.committed
    && (stats.skipped == 1 <==> skipped)
    && (stats.inserted == 1 <==> w.Readable? && w.id !in was && w.id in received)
  }

  class Ingester {
    const cfg: Config
    var received: map<MessageId, Row>
    var quarantine: set<(int, nat)>
    var committed: map<int, nat>
    var consecutiveSkips: nat
    /** Which of the records this ingester was given it skipped. */
    ghost var skipped: seq<bool>

    ghost predicate Valid()
      reads this
    {
      consecutiveSkips == SkipBreaker.Streak(skipped)
    }

    constructor (cfg: Config)
      ensures this.cfg == cfg && received == map[] && quarantine == {} && committed == map[]
      ensures Valid() && skipped == []
    {
      this.cfg, received, quarantine, committed, consecutiveSkips := cfg, map[], {}, map[], 0;
      skipped := [];
    }

    /** The tables and the skip count as a state of the receive protocol. */
    ghost function Tables(): State
      reads this
    {
      Empty().(received := received, quarantine := quarantine, skips := consecutiveSkips)
    }

    /** `received_insert_conflict_outcome`: the rows may come in any order. */
    method ConflictOutcome(w: Wire) returns (outcome: InsertOutcome)
      requires w.Readable? && Conflicting(received, w) != {}
      ensures outcome == InsertOutcomeOf(received, w) && !outcome.Inserted?
    {
      var sawMessageId := false;
      var left := Conflicting(received, w);
      while left != {}
        invariant left <= Conflicting(received, w)
        invariant forall id :: id in Conflicting(received, w) && id !in left ==> received[id].key != w.key
        invariant sawMessageId <==> w.id in Conflicting(received, w) && w.id !in left
        decreases left
      {
        var id :| id in left;
        left := left - {id};
        if received[id].key == w.key {
          return DuplicateIdempotencyKey;
        }
        sawMessageId := sawMessageId || id == w.id;
      }
      forall id | id in received ensures received[id].key != w.key {
        assert id in Conflicting(received, w) <==> id == w.id || received[id].key == w.key;
      }
      return if sawMessageId then MessageIdConflict else DuplicateIdempotencyKey;
    }

    /** `insert_received_with_outcome`. */
    method InsertReceived(p: int, o: nat, w: Wire, now: Time) returns (outcome: InsertOutcome)
      requires w.Readable?
      modifies this`received
      ensures outcome == InsertOutcomeOf(old(received), w)
      ensures received == if outcome.Inserted? then old(received)[w.id := RowFor(cfg, p, o, w, now)] else old(received)
    {
      if Conflicting(received, w) == {} {
        forall id | id in received ensures id != w.id && received[id].key != w.key {
          assert id !in Conflicting(received, w);
        }
        received := received[w.id := RowFor(cfg, p, o, w, now)];
        return Inserted;
      }
      outcome := ConflictOutcome(w);
    }

    /** `count_skip`. */
    method CountSkip(p: int, o: nat) returns (tripped: Option<Tripped>)
      modifies this`consecutiveSkips
      ensures consecutiveSkips == old(consecutiveSkips) + 1
      ensures tripped == if consecutiveSkips >= cfg.maxSkips then Some(Tripped(p, o)) else None
    {
      consecutiveSkips := consecutiveSkips + 1;
      tripped := if consecutiveSkips >= cfg.maxSkips then Some(Tripped(p, o)) else None;
    }

    /** The offset commit that acknowledges a record. */
    method CommitRecord(p: int, o: nat)
      modifies this`committed
      ensures committed == old(committed)[p := o + 1]
    {
      committed := committed[p := o + 1];
    }

    /** `quarantine`: the diagnosis is stored before the breaker is asked, and the
        breaker before the offset is committed. */
    method Quarantine(p: int, o: nat) returns (r: Result<Stats, Tripped>)
      modifies this`quarantine, this`consecutiveSkips, this`committed
      ensures quarantine == old(quarantine) + {(p, o)}
      ensures consecutiveSkips == old(consecutiveSkips) + 1
      ensures r.Failure? <==> consecutiveSkips >= cfg.maxSkips
      ensures committed == if r.Success? then old(committed)[p := o + 1] else old(committed)
      ensures r == if r.Success? then Success(Stats(0, 0, 1, 1)) else Failure(Tripped(p, o))
    {
      quarantine := quarantine + {(p, o)};
      var tripped := CountSkip(p, o);
      if tripped.Some? {
        return Failure(tripped.value);
      }
      CommitRecord(p, o);
      return Success(Stats(0, 0, 1, 1));
    }

    /** `ingest_once`: the tables end as the protocol's ingest leaves them, the
        record counts once as inserted, duplicate or skipped, and its offset is
        committed exactly when the breaker did not trip. It trips if and only if the
        last `maxSkips` records it was given were all skipped. */
    method IngestOnce(p: int, o: nat, w: Wire, panics: bool, now: Time) returns (r: Result<Stats, Tripped>)
      requires Valid()
      modifies this
      ensures Valid() && skipped == old(skipped) + [SkipBreaker.Skips(old(received), w, panics)]
      ensures var s := Ingested(cfg, old(Tables()), p, o, w, panics, now);
              && Tables() == Empty().(received := s.received, quarantine := s.quarantine, skips := s.skips)
              && (r.Failure? <==> s.tripped.Some?)
      ensures r.Failure? <==> skipped[|skipped| - 1] && SkipBreaker.LastSkipped(skipped, cfg.maxSkips)
      ensures committed == if r.Success? then old(committed)[p := o + 1] else old(committed)
      ensures r.Success? ==> Counts(r.value, old(received), received, w, skipped[|skipped| - 1])
      ensures r.Failure? ==> r.error == Tripped(p, o) && (p, o) in quarantine
      ensures (p, o) in quarantine || (w.Readable? && w.key in KeysOf(received))
    {
      SkipBreaker.IngestStreak(cfg, Tables(), p, o, w, panics, now, skipped);
      skipped := skipped + [SkipBreaker.Skips(received, w, panics)];
      if w.Unreadable? || panics {
        r := Quarantine(p, o);
        return;
      }
      var outcome := InsertReceived(p, o, w, now);
      match outcome {
        case MessageIdConflict =>
          r := Quarantine(p, o);
        case Inserted =>
          assert received[w.id].key == w.key;
          consecutiveSkips := 0;
          CommitRecord(p, o);
          r := Success(Stats(1, 0, 0, 1));
        case DuplicateIdempotencyKey =>
          consecutiveSkips := 0;
          CommitRecord(p, o);
          r := Success(Stats(0, 1, 0, 1));
      }
    }
  }
}
