/**
 Producer, broker and consumer together: every interleaving of send and receive
 steps over one topic whose partitioning keeps an entity on one partition.
 */
module EndToEnd {
  import opened Wrappers
  import Outbox = OutboxRows
  import Rows = ReceivedRows
  import Send = SendProtocol
  import SendInv = SendInvariant
  import SendTheorems
  import Recv = ReceiveProtocol
  import RecvInv = ReceiveInvariant

  type SendLog = map<int, seq<Outbox.Message>>

  datatype Config = Config(send: Send.Config, recv: Recv.Config)

  datatype System = System(send: Send.State, recv: Recv.State)

  datatype Step = Sending(s: Send.Step) | Receiving(r: Recv.Step)

  /** What ingest decodes from the record of a message. */
  function OnWire(m: Outbox.Message): Recv.Wire {
    Recv.Readable(m.id, if m.key.Some? then m.key.value else 0, m.entity, Some(Rows.Text(m.entity)), m.payload)
  }

  function Wires(records: seq<Outbox.Message>): seq<Recv.Wire> {
    seq(|records|, i requires 0 <= i < |records| => OnWire(records[i]))
  }

  function WireLog(log: SendLog): Recv.Log {
    map p | p in log :: Wires(log[p])
  }

  function Empty(): System {
    System(Send.Empty(), Recv.Empty())
  }

  ghost predicate Enabled(cfg: Config, sys: System, step: Step) {
    match step
    case Sending(s) => Send.Enabled(cfg.send, sys.send, s)
    case Receiving(r) => Recv.Enabled(cfg.recv, WireLog(sys.send.log), sys.recv, r)
  }

  ghost function Apply(cfg: Config, sys: System, step: Step): System
    requires Enabled(cfg, sys, step)
  {
    match step
    case Sending(s) => sys.(send := Send.Apply(cfg.send, sys.send, s))
    case Receiving(r) => sys.(recv := Recv.Apply(cfg.recv, WireLog(sys.send.log), sys.recv, r))
  }

  ghost predicate Runs(cfg: Config, sys: System, steps: seq<Step>)
    decreases |steps|
  {
    steps == [] || (Enabled(cfg, sys, steps[0]) && Runs(cfg, Apply(cfg, sys, steps[0]), steps[1..]))
  }

  ghost function Exec(cfg: Config, sys: System, steps: seq<Step>): System
    requires Runs(cfg, sys, steps)
    decreases |steps|
  {
    if steps == [] then sys else Exec(cfg, Apply(cfg, sys, steps[0]), steps[1..])
  }

  ghost predicate Inv(cfg: Config, sys: System) {
    SendInv.Inv(cfg.send, sys.send) && RecvInv.Core(cfg.recv, WireLog(sys.send.log), sys.recv)
  }

  lemma WireLogOf(log: SendLog, p: int)
    ensures Recv.LogOf(WireLog(log), p) == Wires(Send.LogOf(log, p))
  {}

  lemma LogGrows(cfg: Config, s: Send.State, step: Send.Step)
    requires Send.Enabled(cfg.send, s, step)
    ensures RecvInv.Extends(WireLog(s.log), WireLog(Send.Apply(cfg.send, s, step).log))
  {
    var log' := Send.Apply(cfg.send, s, step).log;
    assert !step.Publish? ==> log' == s.log;
    forall p ensures Recv.LogOf(WireLog(s.log), p) <= Recv.LogOf(WireLog(log'), p) {
      WireLogOf(s.log, p);
      WireLogOf(log', p);
      assert Send.LogOf(s.log, p) <= Send.LogOf(log', p);
    }
  }

  lemma StepInv(cfg: Config, sys: System, step: Step)
    requires Inv(cfg, sys) && Enabled(cfg, sys, step)
    ensures Inv(cfg, Apply(cfg, sys, step))
  {
    match step
    case Sending(s) =>
      SendInv.StepInv(cfg.send, sys.send, s);
      LogGrows(cfg, sys.send, s);
      RecvInv.GrowthCore(cfg.recv, WireLog(sys.send.log), WireLog(Send.Apply(cfg.send, sys.send, s).log), sys.recv);
    case Receiving(r) =>
      RecvInv.StepCore(cfg.recv, WireLog(sys.send.log), sys.recv, r);
  }

  lemma {:induction false} RunInv(cfg: Config, sys: System, steps: seq<Step>)
    requires Inv(cfg, sys) && Runs(cfg, sys, steps)
    ensures Inv(cfg, Exec(cfg, sys, steps))
    decreases |steps|
  {
    if steps != [] {
      StepInv(cfg, sys, steps[0]);
      RunInv(cfg, Apply(cfg, sys, steps[0]), steps[1..]);
    }
  }

  lemma ReachedInv(cfg: Config, steps: seq<Step>)
    requires Runs(cfg, Empty(), steps)
    ensures Inv(cfg, Exec(cfg, Empty(), steps))
  {
    SendInv.InitInv(cfg.send);
    RecvInv.InitInv(cfg.recv, WireLog(map[]));
    RunInv(cfg, Empty(), steps);
  }

  /** Nothing of the entity is pending or in flight on the producer, each of its
      records was received under its key, and each of its received rows is
      processed. */
  ghost predicate Settled(cfg: Config, sys: System, e: Outbox.Entity) {
    && (forall id :: id in sys.send.rows && sys.send.rows[id].msg.entity == e ==> !Outbox.Live(sys.send.rows[id]))
    && (var log := Send.LogOf(sys.send.log, cfg.send.partition(e));
        forall i :: 0 <= i < |log| && log[i].entity == e ==> OnWire(log[i]).key in Recv.KeysOf(sys.recv.received))
    && (forall id :: id in sys.recv.received && sys.recv.received[id].entity == Some(e) ==>
          sys.recv.received[id].status.Processed?)
  }

  /** The message a received row was stored from. */
  lemma StoredFrom(cfg: Config, sys: System, id: Rows.MessageId) returns (m: Outbox.Message)
    requires Inv(cfg, sys) && id in sys.recv.received
    ensures var r := sys.recv.received[id]; var log := Send.LogOf(sys.send.log, r.snapshot.partition);
            && 0 <= r.snapshot.offset < |log| && log[r.snapshot.offset] == m
            && m.id == id && m.key == Some(r.key) && r.entity == Some(m.entity) && r.snapshot.payload == m.payload
            && m in sys.send.minted && cfg.send.partition(m.entity) == r.snapshot.partition
            && m.entity in sys.send.newest
  {
    var r := sys.recv.received[id];
    var p := r.snapshot.partition;
    assert RecvInv.FromLog(cfg.recv.topic, WireLog(sys.send.log), id, r);
    WireLogOf(sys.send.log, p);
    m := Send.LogOf(sys.send.log, p)[r.snapshot.offset];
    assert p in sys.send.log && sys.send.log[p][r.snapshot.offset] == m;
  }

  /** Once an entity is settled, its newest accepted message is a received row. */
  lemma NewestReceived(cfg: Config, sys: System, e: Outbox.Entity)
    requires Inv(cfg, sys) && Settled(cfg, sys, e) && e in sys.send.domain
    ensures e in sys.send.newest && sys.send.newest[e].id in sys.recv.received
    ensures var r := sys.recv.received[sys.send.newest[e].id];
            r.entity == Some(e) && r.snapshot.partition == cfg.send.partition(e)
            && 0 <= r.snapshot.offset < |Send.LogOf(sys.send.log, cfg.send.partition(e))|
            && Send.LogOf(sys.send.log, cfg.send.partition(e))[r.snapshot.offset] == sys.send.newest[e]
  {
    SendTheorems.QuiescentLog(cfg.send, sys.send, e);
    var m := sys.send.newest[e];
    var p := cfg.send.partition(e);
    var i: nat :| i < |Send.LogOf(sys.send.log, p)| && Send.LogOf(sys.send.log, p)[i] == m;
    assert sys.send.log[p][i] == m;
    assert m.key.Some? && m.key.value in Recv.KeysOf(sys.recv.received);
    var id :| id in sys.recv.received && sys.recv.received[id].key == m.key.value;
    var n := StoredFrom(cfg, sys, id);
    assert n == m;
  }

  /** The cached row of an entity is a message of that entity in its partition. */
  lemma CachedFrom(cfg: Config, sys: System, e: Outbox.Entity) returns (m: Outbox.Message)
    requires Inv(cfg, sys) && e in sys.recv.cache
    ensures var c := sys.recv.cache[e].applied; var log := Send.LogOf(sys.send.log, cfg.send.partition(e));
            && c.partition == cfg.send.partition(e) && 0 <= c.offset < |log| && log[c.offset] == m
            && m.entity == e && m in sys.send.minted && c.payload == m.payload && e in sys.send.newest
  {
    var c := sys.recv.cache[e].applied;
    assert RecvInv.Derived(cfg.recv, WireLog(sys.send.log), e, c, sys.recv.received, sys.recv.effects);
    var id := Recv.LogOf(WireLog(sys.send.log), c.partition)[c.offset].id;
    m := StoredFrom(cfg, sys, id);
  }

  /** A record at or after the newest accepted one is that one. */
  lemma LaterIsNewest(log: SendLog, minted: set<Outbox.Message>, sequence: nat, p: int, i: nat, j: nat)
    requires SendInv.LogOrdered(log) && SendInv.Minted(minted, sequence)
    requires i <= j < |Send.LogOf(log, p)|
    requires var m := Send.LogOf(log, p)[i]; var n := Send.LogOf(log, p)[j];
             m.entity == n.entity && m in minted && n in minted && n.order <= m.order
    ensures Send.LogOf(log, p)[i] == Send.LogOf(log, p)[j]
  {
    assert p in log;
    assert i < j ==> log[p][i].order <= log[p][j].order;
  }

  lemma CacheReaches(cfg: Config, sys: System, id: Rows.MessageId, e: Outbox.Entity)
    requires Inv(cfg, sys) && Settled(cfg, sys, e) && id in sys.recv.received && sys.recv.received[id].entity == Some(e)
    ensures e in sys.recv.cache && sys.recv.received[id].snapshot.offset <= sys.recv.cache[e].applied.offset
  {
    assert sys.recv.received[id].status.Processed?;
  }

  lemma CacheAtNewest(cfg: Config, sys: System, e: Outbox.Entity)
    requires Inv(cfg, sys) && Settled(cfg, sys, e) && e in sys.send.domain
    ensures e in sys.recv.cache && sys.recv.cache[e].applied.payload == sys.send.domain[e]
  {
    NewestReceived(cfg, sys, e);
    SendTheorems.QuiescentLog(cfg.send, sys.send, e);
    var newest := sys.send.newest[e];
    var received := sys.recv.received[newest.id].snapshot.offset;
    CacheReaches(cfg, sys, newest.id, e);
    var m := CachedFrom(cfg, sys, e);
    LaterIsNewest(sys.send.log, sys.send.minted, sys.send.sequence, cfg.send.partition(e), received,
                  sys.recv.cache[e].applied.offset);
  }

  /** End-to-end convergence: in every run of enqueue, repair, claim, publish,
      mark, purge, ingest, consume-error, dispatch, failure, crash and redrive
      steps, an entity that is settled is cached exactly when the producer has it,
      with exactly its committed state. Other entities may be anywhere, and
      records may have been quarantined, skipped or read again on the way. */
  lemma Converges(cfg: Config, steps: seq<Step>, e: Outbox.Entity)
    requires Runs(cfg, Empty(), steps) && Settled(cfg, Exec(cfg, Empty(), steps), e)
    ensures var sys := Exec(cfg, Empty(), steps);
            && (e in sys.recv.cache <==> e in sys.send.domain)
            && (e in sys.send.domain ==> sys.recv.cache[e].applied.payload == sys.send.domain[e])
  {
    ReachedInv(cfg, steps);
    var sys := Exec(cfg, Empty(), steps);
    if e in sys.send.domain {
      CacheAtNewest(cfg, sys, e);
    }
    if e in sys.recv.cache {
      var m := CachedFrom(cfg, sys, e);
    }
  }

  // ----- Reading the whole log is enough ----------------------------------------------------

  ghost predicate AllResume(steps: seq<Step>) {
    forall step :: step in steps && step.Receiving? ==> Recv.Resumes(step.r)
  }

  ghost predicate Consumed(sys: System) {
    RecvInv.ConsumerInv(WireLog(sys.send.log), sys.recv)
  }

  lemma {:induction false} RunConsumed(cfg: Config, sys: System, steps: seq<Step>)
    requires Inv(cfg, sys) && Consumed(sys) && Runs(cfg, sys, steps) && AllResume(steps)
    ensures Consumed(Exec(cfg, sys, steps))
    decreases |steps|
  {
    if steps != [] {
      assert steps[0] in steps && forall step :: step in steps[1..] ==> step in steps;
      StepInv(cfg, sys, steps[0]);
      match steps[0] {
        case Sending(s) =>
          LogGrows(cfg, sys.send, s);
          RecvInv.GrowthInv(cfg.recv, WireLog(sys.send.log), WireLog(Send.Apply(cfg.send, sys.send, s).log), sys.recv);
        case Receiving(r) =>
          RecvInv.StepConsumer(cfg.recv, WireLog(sys.send.log), sys.recv, r);
      }
      RunConsumed(cfg, Apply(cfg, sys, steps[0]), steps[1..]);
    }
  }

  /** Nothing pending or in flight on the producer, every record acknowledged and
      none quarantined, every received row processed. */
  ghost predicate Drained(sys: System) {
    && (forall id :: id in sys.send.rows ==> !Outbox.Live(sys.send.rows[id]))
    && (forall p :: Recv.At(sys.recv.committed, p) == |Send.LogOf(sys.send.log, p)|)
    && sys.recv.quarantine == {}
    && (forall id :: id in sys.recv.received ==> sys.recv.received[id].status.Processed?)
  }

  lemma DrainedSettles(cfg: Config, sys: System, e: Outbox.Entity)
    requires Consumed(sys) && Drained(sys)
    ensures Settled(cfg, sys, e)
  {
    var p := cfg.send.partition(e);
    var log := Send.LogOf(sys.send.log, p);
    forall i | 0 <= i < |log| && log[i].entity == e ensures OnWire(log[i]).key in Recv.KeysOf(sys.recv.received) {
      WireLogOf(sys.send.log, p);
      assert i < Recv.At(sys.recv.committed, p);
      assert RecvInv.Handled(WireLog(sys.send.log), p, i, sys.recv.received, sys.recv.quarantine);
    }
  }

  /** When errors resume from the committed offset, a consumer that acknowledged
      the whole log, quarantined nothing and processed its rows settled every
      entity, so its cache is the producer's committed state. */
  lemma DrainedConverges(cfg: Config, steps: seq<Step>)
    requires Runs(cfg, Empty(), steps) && AllResume(steps) && Drained(Exec(cfg, Empty(), steps))
    ensures var sys := Exec(cfg, Empty(), steps);
            && sys.recv.cache.Keys == sys.send.domain.Keys
            && forall e :: e in sys.send.domain ==> sys.recv.cache[e].applied.payload == sys.send.domain[e]
  {
    SendInv.InitInv(cfg.send);
    RecvInv.InitInv(cfg.recv, WireLog(map[]));
    RunConsumed(cfg, Empty(), steps);
    var sys := Exec(cfg, Empty(), steps);
    forall e
      ensures e in sys.recv.cache <==> e in sys.send.domain
      ensures e in sys.send.domain ==> sys.recv.cache[e].applied.payload == sys.send.domain[e]
    {
      DrainedSettles(cfg, sys, e);
      Converges(cfg, steps, e);
    }
  }

  // ----- Kafkaman's own records are never quarantined -------------------------------------

  predicate PanicFree(step: Step) {
    step.Receiving? && step.r.Ingest? ==> !step.r.panics
  }

  predicate Clean(s: Recv.State) {
    s.quarantine == {} && s.tripped.None?
  }

  ghost predicate AllPanicFree(steps: seq<Step>) {
    forall step :: step in steps ==> PanicFree(step)
  }

  /** A stored row with a record's message id has its idempotency key too. */
  lemma NoConflict(cfg: Config, sys: System, p: int, o: nat)
    requires Inv(cfg, sys) && o < |Send.LogOf(sys.send.log, p)| && Send.LogOf(sys.send.log, p)[o].id in sys.recv.received
    ensures OnWire(Send.LogOf(sys.send.log, p)[o]).key in Recv.KeysOf(sys.recv.received)
  {
    var m := Send.LogOf(sys.send.log, p)[o];
    assert p in sys.send.log && sys.send.log[p][o] == m;
    var n := StoredFrom(cfg, sys, m.id);
    assert n == m;
  }

  lemma StoredNotSkipped(cfg: Recv.Config, log: Recv.Log, s: Recv.State, p: int, now: Rows.Time)
    requires Recv.Enabled(cfg, log, s, Recv.Ingest(p, false, now))
    requires var w := Recv.LogOf(log, p)[Recv.At(s.position, p)];
             w.Readable? && (w.id in s.received ==> w.key in Recv.KeysOf(s.received))
    ensures var s' := Recv.Apply(cfg, log, s, Recv.Ingest(p, false, now));
            s'.quarantine == s.quarantine && s'.tripped == s.tripped
  {}

  lemma IngestStores(cfg: Config, sys: System, p: int, now: Rows.Time)
    requires Inv(cfg, sys) && Recv.Enabled(cfg.recv, WireLog(sys.send.log), sys.recv, Recv.Ingest(p, false, now))
    ensures var recv := Recv.Apply(cfg.recv, WireLog(sys.send.log), sys.recv, Recv.Ingest(p, false, now));
            recv.quarantine == sys.recv.quarantine && recv.tripped == sys.recv.tripped
  {
    var o := Recv.At(sys.recv.position, p);
    WireLogOf(sys.send.log, p);
    if Send.LogOf(sys.send.log, p)[o].id in sys.recv.received {
      NoConflict(cfg, sys, p, o);
    }
    StoredNotSkipped(cfg.recv, WireLog(sys.send.log), sys.recv, p, now);
  }

  lemma OnlyIngestQuarantines(cfg: Recv.Config, log: Recv.Log, s: Recv.State, step: Recv.Step)
    requires Recv.Enabled(cfg, log, s, step) && !step.Ingest?
    ensures Recv.Apply(cfg, log, s, step).quarantine == s.quarantine
    ensures s.tripped.None? ==> Recv.Apply(cfg, log, s, step).tripped.None?
  {}

  lemma StepQuarantinesNothing(cfg: Config, sys: System, step: Step)
    requires Inv(cfg, sys) && Enabled(cfg, sys, step) && PanicFree(step) && Clean(sys.recv)
    ensures Clean(Apply(cfg, sys, step).recv)
  {
    if step.Receiving? {
      if step.r.Ingest? {
        assert step.r == Recv.Ingest(step.r.p, false, step.r.now);
        IngestStores(cfg, sys, step.r.p, step.r.now);
      } else {
        OnlyIngestQuarantines(cfg.recv, WireLog(sys.send.log), sys.recv, step.r);
      }
    }
  }

  /** A record this producer published is readable and conflicts with nothing
      under another key, so without ingest panics nothing is ever quarantined and
      the breaker never trips. */
  lemma {:induction false} NeverQuarantined(cfg: Config, sys: System, steps: seq<Step>)
    requires Inv(cfg, sys) && Runs(cfg, sys, steps) && AllPanicFree(steps) && Clean(sys.recv)
    ensures Clean(Exec(cfg, sys, steps).recv)
    decreases |steps|
  {
    if steps != [] {
      StepInv(cfg, sys, steps[0]);
      assert PanicFree(steps[0]) && AllPanicFree(steps[1..]);
      StepQuarantinesNothing(cfg, sys, steps[0]);
      NeverQuarantined(cfg, Apply(cfg, sys, steps[0]), steps[1..]);
    }
  }
}
