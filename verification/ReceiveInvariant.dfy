/**
 What every step of the receive protocol keeps.
 */
module ReceiveInvariant {
  import opened Wrappers
  import opened EntityCache
  import opened ReceivedRows
  import opened ReceiveProtocol

  // ----- Ingest ------------------------------------------------------------------

  ghost predicate KeysUnique(received: map<MessageId, Row>) {
    forall a, b :: a in received && b in received && received[a].key == received[b].key ==> a == b
  }

  /** A received row is the decoded record at its own position. */
  ghost predicate FromLog(topic: string, log: Log, id: MessageId, r: Row) {
    && r.snapshot.topic == topic
    && 0 <= r.snapshot.offset < |LogOf(log, r.snapshot.partition)|
    && LogOf(log, r.snapshot.partition)[r.snapshot.offset].Readable?
    && var w := LogOf(log, r.snapshot.partition)[r.snapshot.offset];
       w.id == id && r.key == w.key && r.entity == Some(w.entity) && r.snapshot.payload == w.payload
  }

  ghost predicate Provenance(topic: string, log: Log, received: map<MessageId, Row>) {
    forall id :: id in received ==> FromLog(topic, log, id, received[id])
  }

  /** The record became a received row with its idempotency key, or a quarantine
      row at its exact position. */
  ghost predicate Handled(log: Log, p: int, o: nat, received: map<MessageId, Row>, quarantine: set<(int, nat)>) {
    && o < |LogOf(log, p)|
    && ((p, o) in quarantine || (LogOf(log, p)[o].Readable? && LogOf(log, p)[o].key in KeysOf(received)))
  }

  ghost predicate Accounted(log: Log, committed: map<int, nat>, received: map<MessageId, Row>,
                            quarantine: set<(int, nat)>) {
    forall p, o: nat :: o < At(committed, p) ==> Handled(log, p, o, received, quarantine)
  }

  ghost predicate InflightHandled(log: Log, inflight: Option<(int, nat)>, received: map<MessageId, Row>,
                                  quarantine: set<(int, nat)>) {
    inflight.Some? ==> Handled(log, inflight.value.0, inflight.value.1, received, quarantine)
  }

  /** A tripped breaker leaves its record diagnosed and unacknowledged. */
  ghost predicate TrippedDiagnosed(tripped: Option<(int, nat)>, committed: map<int, nat>, quarantine: set<(int, nat)>) {
    tripped.Some? ==> tripped.value in quarantine && At(committed, tripped.value.0) <= tripped.value.1
  }

  /** The consumer reads on from the committed offset. */
  ghost predicate Synced(s: State) {
    && (s.inflight.Some? ==> s.tripped.None? && s.inflight.value.1 == At(s.committed, s.inflight.value.0))
    && (s.tripped.None? ==>
          forall p :: At(s.position, p) ==
            if s.inflight.Some? && s.inflight.value.0 == p then At(s.committed, p) + 1 else At(s.committed, p))
  }

  /** What the consumer's memory and the committed offsets owe to the tables. */
  ghost predicate ConsumerInv(log: Log, s: State) {
    && Accounted(log, s.committed, s.received, s.quarantine)
    && InflightHandled(log, s.inflight, s.received, s.quarantine)
    && TrippedDiagnosed(s.tripped, s.committed, s.quarantine)
    && Synced(s)
  }

  // ----- Dispatch -----------------------------------------------------------------

  predicate SamePlace(a: Effect, b: Effect) {
    a.id == b.id && (a.Before? <==> b.Before?)
  }

  /** Handler effects belong to processed rows and are committed once. */
  ghost predicate EffectsOnce(effects: seq<Effect>, received: map<MessageId, Row>) {
    && (forall i :: 0 <= i < |effects| ==> effects[i].id in received && received[effects[i].id].status.Processed?)
    && (forall i, j :: 0 <= i < j < |effects| ==> !SamePlace(effects[i], effects[j]))
  }

  /** The cache row of every entity came from a processed row whose post-upsert
      handler ran, unless the pre-upsert hook skipped it. */
  ghost predicate Derived(cfg: Config, log: Log, e: Entity, c: Snapshot, received: map<MessageId, Row>,
                          effects: seq<Effect>) {
    && 0 <= c.offset < |LogOf(log, c.partition)| && LogOf(log, c.partition)[c.offset].Readable?
    && var w := LogOf(log, c.partition)[c.offset];
       && w.id in received && received[w.id].snapshot == c && received[w.id].entity == Some(e)
       && received[w.id].status.Processed?
       && (cfg.after ==> After(w.id) in effects || Before(w.id, true) in effects)
  }

  ghost predicate CacheDerived(cfg: Config, log: Log, cache: map<Entity, CacheRow>, received: map<MessageId, Row>,
                               effects: seq<Effect>) {
    forall e :: e in cache ==> Derived(cfg, log, e, cache[e].applied, received, effects)
  }

  /** No processed row is ahead of the cache. */
  ghost predicate CacheCovers(cache: map<Entity, CacheRow>, received: map<MessageId, Row>) {
    forall id :: id in received && received[id].status.Processed? && received[id].entity.Some? ==>
      var e := received[id].entity.value;
      && e in cache && cache[e].applied.topic == received[id].snapshot.topic
      && cache[e].applied.partition == received[id].snapshot.partition
      && received[id].snapshot.offset <= cache[e].applied.offset
  }

  ghost predicate DispatchInv(cfg: Config, log: Log, s: State) {
    && EffectsOnce(s.effects, s.received)
    && CacheDerived(cfg, log, s.cache, s.received, s.effects)
    && CacheCovers(s.cache, s.received)
  }

  /** What holds of the tables wherever the consumer reads from. */
  ghost predicate Core(cfg: Config, log: Log, s: State) {
    KeysUnique(s.received) && Provenance(cfg.topic, log, s.received) && DispatchInv(cfg, log, s)
  }

  ghost predicate Inv(cfg: Config, log: Log, s: State) {
    Core(cfg, log, s) && ConsumerInv(log, s)
  }

  lemma InitInv(cfg: Config, log: Log)
    ensures Inv(cfg, log, Empty())
  {
    assert forall p :: At(Empty().committed, p) == 0;
  }

  // ----- The log only grows ----------------------------------------------------------

  ghost predicate Extends(log: Log, longer: Log) {
    forall p :: LogOf(log, p) <= LogOf(longer, p)
  }

  lemma GrowthCore(cfg: Config, log: Log, longer: Log, s: State)
    requires Core(cfg, log, s) && Extends(log, longer)
    ensures Core(cfg, longer, s)
  {
    assert Provenance(cfg.topic, longer, s.received);
    assert CacheDerived(cfg, longer, s.cache, s.received, s.effects);
  }

  lemma GrowthInv(cfg: Config, log: Log, longer: Log, s: State)
    requires Inv(cfg, log, s) && Extends(log, longer)
    ensures Inv(cfg, longer, s)
  {
    GrowthCore(cfg, log, longer, s);
    forall p, o: nat | Handled(log, p, o, s.received, s.quarantine)
      ensures Handled(longer, p, o, s.received, s.quarantine)
    {
      assert LogOf(log, p) <= LogOf(longer, p);
    }
    forall p, o: nat | o < At(s.committed, p) ensures Handled(longer, p, o, s.received, s.quarantine) {
      assert Handled(log, p, o, s.received, s.quarantine);
    }
  }

  // ----- Handling only grows -----------------------------------------------------------

  lemma HandledGrows(log: Log, committed: map<int, nat>, inflight: Option<(int, nat)>, received: map<MessageId, Row>,
                     quarantine: set<(int, nat)>, received': map<MessageId, Row>, quarantine': set<(int, nat)>)
    requires KeysOf(received) <= KeysOf(received') && quarantine <= quarantine'
    ensures Accounted(log, committed, received, quarantine) ==> Accounted(log, committed, received', quarantine')
    ensures InflightHandled(log, inflight, received, quarantine) ==> InflightHandled(log, inflight, received', quarantine')
  {
    forall p, o: nat | Handled(log, p, o, received, quarantine) ensures Handled(log, p, o, received', quarantine') {}
    if Accounted(log, committed, received, quarantine) {
      forall p, o: nat | o < At(committed, p) ensures Handled(log, p, o, received', quarantine') {
        assert Handled(log, p, o, received, quarantine);
      }
    }
  }

  /** Same rows, same identity, and no processed row changes. */
  ghost predicate SameRows(a: map<MessageId, Row>, b: map<MessageId, Row>) {
    && a.Keys == b.Keys
    && forall id :: id in a ==>
         && b[id].key == a[id].key && b[id].entity == a[id].entity && b[id].snapshot == a[id].snapshot
         && (a[id].status.Processed? ==> b[id] == a[id])
  }

  lemma SameKeys(a: map<MessageId, Row>, b: map<MessageId, Row>)
    requires SameRows(a, b)
    ensures KeysOf(a) == KeysOf(b)
  {
    forall k ensures k in KeysOf(a) <==> k in KeysOf(b) {
      assert forall id :: id in a ==> b[id].key == a[id].key;
    }
  }

  lemma SameRowsProvenance(cfg: Config, log: Log, a: map<MessageId, Row>, b: map<MessageId, Row>)
    requires KeysUnique(a) && Provenance(cfg.topic, log, a) && SameRows(a, b)
    ensures KeysUnique(b) && Provenance(cfg.topic, log, b)
  {
    forall id | id in b ensures FromLog(cfg.topic, log, id, b[id]) {
      assert FromLog(cfg.topic, log, id, a[id]);
    }
  }

  /** Recording failures and redriving change no processed row, so handler
      effects and the cache stay accounted for. */
  lemma SameRowsDispatch(cfg: Config, log: Log, s: State, b: map<MessageId, Row>)
    requires DispatchInv(cfg, log, s) && SameRows(s.received, b)
    requires forall id :: id in b && b[id].status.Processed? ==> s.received[id].status.Processed?
    ensures DispatchInv(cfg, log, s.(received := b))
  {}

  lemma SameRowsCore(cfg: Config, log: Log, s: State, b: map<MessageId, Row>)
    requires Core(cfg, log, s) && SameRows(s.received, b)
    requires forall id :: id in b && b[id].status.Processed? ==> s.received[id].status.Processed?
    ensures Core(cfg, log, s.(received := b))
  {
    SameRowsProvenance(cfg, log, s.received, b);
    SameRowsDispatch(cfg, log, s, b);
  }

  // ----- Tables, whatever the consumer does ---------------------------------------------------

  lemma InsertedKeys(received: map<MessageId, Row>, id: MessageId, r: Row)
    requires id !in received
    ensures KeysOf(received[id := r]) == KeysOf(received) + {r.key}
  {
    forall k ensures k in KeysOf(received[id := r]) <==> k in KeysOf(received) + {r.key} {
      var b := received[id := r];
      assert forall i :: i in received ==> i in b && b[i] == received[i];
      assert b[id] == r;
    }
  }

  lemma InsertedCore(cfg: Config, log: Log, s: State, p: int, o: nat, w: Wire, now: Time)
    requires Core(cfg, log, s) && o < |LogOf(log, p)| && LogOf(log, p)[o] == w && w.Readable?
    requires w.key !in KeysOf(s.received) && w.id !in s.received
    ensures Core(cfg, log, s.(received := s.received[w.id := RowFor(cfg, p, o, w, now)]))
  {
    InsertedKeys(s.received, w.id, RowFor(cfg, p, o, w, now));
  }

  lemma SameTables(cfg: Config, log: Log, s: State, s': State)
    requires Core(cfg, log, s) && s'.received == s.received && s'.cache == s.cache && s'.effects == s.effects
    ensures Core(cfg, log, s')
  {}

  predicate Inserts(received: map<MessageId, Row>, w: Wire, panics: bool) {
    w.Readable? && !panics && InsertOutcomeOf(received, w).Inserted?
  }

  lemma IngestedTables(cfg: Config, s: State, p: int, o: nat, w: Wire, panics: bool, now: Time)
    ensures var s' := Ingested(cfg, s, p, o, w, panics, now);
            && s'.cache == s.cache && s'.effects == s.effects
            && s'.received == if Inserts(s.received, w, panics) then s.received[w.id := RowFor(cfg, p, o, w, now)]
                              else s.received
  {}

  /** Whichever record ingest reads, wherever it reads it from. */
  lemma IngestedCore(cfg: Config, log: Log, s: State, p: int, o: nat, panics: bool, now: Time)
    requires Core(cfg, log, s) && o < |LogOf(log, p)|
    ensures Core(cfg, log, Ingested(cfg, s, p, o, LogOf(log, p)[o], panics, now))
  {
    var w := LogOf(log, p)[o];
    var s' := Ingested(cfg, s, p, o, w, panics, now);
    IngestedTables(cfg, s, p, o, w, panics, now);
    if Inserts(s.received, w, panics) {
      InsertedCore(cfg, log, s, p, o, w, now);
      SameTables(cfg, log, s.(received := s'.received), s');
    } else {
      SameTables(cfg, log, s, s');
    }
  }

  lemma RecordedCore(cfg: Config, log: Log, s: State, id: MessageId, seen: nat, d: Disposition, at: Time, retryAt: Time)
    requires Core(cfg, log, s)
    ensures Core(cfg, log, Recorded(cfg, s, id, seen, d, at, retryAt))
  {
    if id in s.received {
      var b := s.received[id := RecordFailure(cfg.policy, s.received[id], seen, d, at, retryAt)];
      SameRowsCore(cfg, log, s, b);
    }
  }

  lemma ConvergedEffects(cfg: Config, s: State, id: MessageId, a: Attempt, now: Time)
    requires EffectsOnce(s.effects, s.received) && id in s.received && Open(s.received[id])
    requires Converge(cfg, s, id, a, now).Success?
    ensures var s' := Converge(cfg, s, id, a, now).value; EffectsOnce(s'.effects, s'.received)
  {}

  /** A committed attempt processes its row, and either leaves the entity's cache
      row alone or moves it to this row with the handler's effects. */
  lemma ConvergedFacts(cfg: Config, s: State, id: MessageId, a: Attempt, now: Time, e: Entity)
    requires id in s.received && s.received[id].entity == Some(e) && Converge(cfg, s, id, a, now).Success?
    ensures var s' := Converge(cfg, s, id, a, now).value;
            && s'.received == s.received[id := MarkProcessed(s.received[id], now)]
            && s.effects <= s'.effects
            && e in s'.cache && s'.cache == s.cache[e := s'.cache[e]]
            && ((e in s.cache && s'.cache[e] == s.cache[e])
                || (s'.cache[e].applied == s.received[id].snapshot
                    && (cfg.after ==> After(id) in s'.effects || Before(id, true) in s'.effects)))
            && Upsert(if e in s.cache then Some(s.cache[e]) else None, s.received[id].snapshot, cfg.topic).Success?
            && Upsert(if e in s.cache then Some(s.cache[e]) else None, s.received[id].snapshot, cfg.topic).value.0
               == s'.cache[e]
  {}

  lemma ConvergedDerived(cfg: Config, log: Log, s: State, s': State, id: MessageId, e: Entity, now: Time)
    requires CacheDerived(cfg, log, s.cache, s.received, s.effects)
    requires id in s.received && s.received[id].entity == Some(e) && Open(s.received[id])
    requires FromLog(cfg.topic, log, id, s.received[id])
    requires s'.received == s.received[id := MarkProcessed(s.received[id], now)] && s.effects <= s'.effects
    requires e in s'.cache && s'.cache == s.cache[e := s'.cache[e]]
    requires (e in s.cache && s'.cache[e] == s.cache[e])
             || (s'.cache[e].applied == s.received[id].snapshot
                 && (cfg.after ==> After(id) in s'.effects || Before(id, true) in s'.effects))
    ensures CacheDerived(cfg, log, s'.cache, s'.received, s'.effects)
  {
    forall f | f in s'.cache ensures Derived(cfg, log, f, s'.cache[f].applied, s'.received, s'.effects) {
      if f in s.cache && s'.cache[f] == s.cache[f] {
        assert Derived(cfg, log, f, s.cache[f].applied, s.received, s.effects);
      }
    }
  }

  /** Every cached origin is on the declared topic. */
  lemma CachedTopic(cfg: Config, log: Log, s: State, e: Entity)
    requires Provenance(cfg.topic, log, s.received) && CacheDerived(cfg, log, s.cache, s.received, s.effects)
    requires e in s.cache
    ensures s.cache[e].applied.topic == cfg.topic
  {
    var c := s.cache[e].applied;
    assert Derived(cfg, log, e, c, s.received, s.effects);
    var w := LogOf(log, c.partition)[c.offset];
    assert FromLog(cfg.topic, log, w.id, s.received[w.id]);
  }

  lemma ConvergedCovers(cfg: Config, s: State, s': State, id: MessageId, e: Entity, now: Time)
    requires CacheCovers(s.cache, s.received)
    requires id in s.received && s.received[id].entity == Some(e) && s.received[id].snapshot.topic == cfg.topic
    requires e in s.cache ==> s.cache[e].applied.topic == cfg.topic
    requires s'.received == s.received[id := MarkProcessed(s.received[id], now)]
    requires e in s'.cache && s'.cache == s.cache[e := s'.cache[e]]
    requires var u := Upsert(if e in s.cache then Some(s.cache[e]) else None, s.received[id].snapshot, cfg.topic);
             u.Success? && u.value.0 == s'.cache[e]
    ensures CacheCovers(s'.cache, s'.received)
  {}

  /** A committed attempt changes only its own row's status. */
  lemma ProcessedRows(received: map<MessageId, Row>, id: MessageId, now: Time)
    requires id in received && Open(received[id])
    ensures SameRows(received, received[id := MarkProcessed(received[id], now)])
  {}

  lemma ConvergedCore(cfg: Config, log: Log, s: State, id: MessageId, a: Attempt, now: Time)
    requires Core(cfg, log, s) && id in s.received && Open(s.received[id])
    requires Converge(cfg, s, id, a, now).Success?
    ensures Core(cfg, log, Converge(cfg, s, id, a, now).value)
  {
    var s' := Converge(cfg, s, id, a, now).value;
    assert FromLog(cfg.topic, log, id, s.received[id]);
    var e := s.received[id].entity.value;
    ConvergedEffects(cfg, s, id, a, now);
    ConvergedFacts(cfg, s, id, a, now, e);
    ProcessedRows(s.received, id, now);
    SameRowsProvenance(cfg, log, s.received, s'.received);
    ConvergedDerived(cfg, log, s, s', id, e, now);
    if e in s.cache { CachedTopic(cfg, log, s, e); }
    ConvergedCovers(cfg, s, s', id, e, now);
  }

  lemma DispatchedCore(cfg: Config, log: Log, s: State, id: MessageId, a: Attempt, now: Time)
    requires Core(cfg, log, s) && id in s.received && Open(s.received[id])
    ensures Core(cfg, log, Dispatched(cfg, s, id, a, now))
  {
    if !cfg.before && !cfg.after {
      RecordedCore(cfg, log, s, id, s.received[id].attempts, FailureDisposition(NoHandler, Routing), now, a.retryAt);
    } else if Converge(cfg, s, id, a, now).Success? {
      ConvergedCore(cfg, log, s, id, a, now);
    } else {
      var fault := Converge(cfg, s, id, a, now).error;
      RecordedCore(cfg, log, s, id, s.received[id].attempts, FailureDisposition(fault.0, fault.1), now, a.retryAt);
    }
  }

  lemma RedriveCore(cfg: Config, log: Log, s: State, ids: set<MessageId>, clearHistory: bool)
    requires Core(cfg, log, s) && forall id :: id in ids ==> id in s.received && s.received[id].status.Failed?
    ensures Core(cfg, log, s.(received := RedriveRows(s.received, ids, clearHistory)))
  {
    SameRowsCore(cfg, log, s, RedriveRows(s.received, ids, clearHistory));
  }

  /** Every step keeps the tables' invariant, errors that do not resume from the
      committed offset included. */
  lemma StepCore(cfg: Config, log: Log, s: State, step: Step)
    requires Core(cfg, log, s) && Enabled(cfg, log, s, step)
    ensures Core(cfg, log, Apply(cfg, log, s, step))
  {
    match step
    case Ingest(p, panics, now) => IngestedCore(cfg, log, s, p, At(s.position, p), panics, now);
    case Dispatch(id, a, now) => DispatchedCore(cfg, log, s, id, a, now);
    case RecordFallback(f, retryAt) =>
      RecordedCore(cfg, log, s.(fallbacks := s.fallbacks - multiset{f}), f.id, f.seen, f.d, f.at, retryAt);
    case RedriveFailed(ids, since, kind, clearHistory) => RedriveCore(cfg, log, s, ids, clearHistory);
    case _ =>
  }

  // ----- The consumer ----------------------------------------------------------------------------

  /** Steps that leave the consumer alone and forget no key. */
  ghost predicate SameConsumer(s: State, s': State) {
    && KeysOf(s.received) <= KeysOf(s'.received) && s'.quarantine == s.quarantine && s'.committed == s.committed
    && s'.position == s.position && s'.inflight == s.inflight && s'.tripped == s.tripped
  }

  lemma SameConsumerKept(log: Log, s: State, s': State)
    requires ConsumerInv(log, s) && SameConsumer(s, s')
    ensures ConsumerInv(log, s')
  {
    HandledGrows(log, s.committed, s.inflight, s.received, s.quarantine, s'.received, s'.quarantine);
  }

  lemma RecordedConsumer(cfg: Config, s: State, id: MessageId, seen: nat, d: Disposition, at: Time, retryAt: Time)
    ensures SameConsumer(s, Recorded(cfg, s, id, seen, d, at, retryAt))
  {
    if id in s.received {
      SameKeys(s.received, s.received[id := RecordFailure(cfg.policy, s.received[id], seen, d, at, retryAt)]);
    }
  }

  lemma DispatchedConsumer(cfg: Config, s: State, id: MessageId, a: Attempt, now: Time)
    requires id in s.received && Open(s.received[id])
    ensures SameConsumer(s, Dispatched(cfg, s, id, a, now))
  {
    if !cfg.before && !cfg.after {
      RecordedConsumer(cfg, s, id, s.received[id].attempts, FailureDisposition(NoHandler, Routing), now, a.retryAt);
    } else if Converge(cfg, s, id, a, now).Success? {
      ProcessedRows(s.received, id, now);
      SameKeys(s.received, s.received[id := MarkProcessed(s.received[id], now)]);
    } else {
      var fault := Converge(cfg, s, id, a, now).error;
      RecordedConsumer(cfg, s, id, s.received[id].attempts, FailureDisposition(fault.0, fault.1), now, a.retryAt);
    }
  }

  lemma SyncedMove(s: State, p: int, inflight: Option<(int, nat)>, tripped: Option<(int, nat)>, skips: nat)
    requires Synced(s) && s.inflight.None? && s.tripped.None?
    requires (inflight == Some((p, At(s.position, p))) && tripped.None?)
             || (inflight.None? && tripped == Some((p, At(s.position, p))))
    ensures Synced(s.(position := s.position[p := At(s.position, p) + 1], inflight := inflight, tripped := tripped,
                      skips := skips))
  {
    var position := s.position[p := At(s.position, p) + 1];
    forall q ensures At(position, q) == if q == p then At(s.committed, p) + 1 else At(s.committed, q) {
      assert At(s.position, q) == At(s.committed, q);
    }
  }

  lemma QuarantinedTables(log: Log, s: State, p: int, o: nat)
    requires Accounted(log, s.committed, s.received, s.quarantine) && o < |LogOf(log, p)|
    ensures Accounted(log, s.committed, s.received, s.quarantine + {(p, o)})
    ensures Handled(log, p, o, s.received, s.quarantine + {(p, o)})
  {
    HandledGrows(log, s.committed, None, s.received, s.quarantine, s.received, s.quarantine + {(p, o)});
  }

  lemma SkippedConsumer(cfg: Config, log: Log, s: State, p: int)
    requires ConsumerInv(log, s) && s.inflight.None? && s.tripped.None? && At(s.position, p) < |LogOf(log, p)|
    ensures ConsumerInv(log, Skipped(cfg, s, p, At(s.position, p)))
  {
    var o := At(s.position, p);
    var s' := Skipped(cfg, s, p, o);
    SyncedMove(s, p, s'.inflight, s'.tripped, s'.skips);
    QuarantinedTables(log, s, p, o);
    assert At(s.committed, p) == o;
  }

  lemma StoredConsumer(log: Log, s: State, p: int, received: map<MessageId, Row>)
    requires ConsumerInv(log, s) && s.inflight.None? && s.tripped.None? && KeysOf(s.received) <= KeysOf(received)
    requires Handled(log, p, At(s.position, p), received, s.quarantine)
    ensures ConsumerInv(log, s.(received := received, skips := 0, inflight := Some((p, At(s.position, p))),
                                position := s.position[p := At(s.position, p) + 1]))
  {
    var o := At(s.position, p);
    SyncedMove(s, p, Some((p, o)), None, 0);
    HandledGrows(log, s.committed, s.inflight, s.received, s.quarantine, received, s.quarantine);
  }

  lemma IngestedConsumer(cfg: Config, log: Log, s: State, p: int, panics: bool, now: Time)
    requires ConsumerInv(log, s) && Enabled(cfg, log, s, Ingest(p, panics, now))
    ensures ConsumerInv(log, Apply(cfg, log, s, Ingest(p, panics, now)))
  {
    var o := At(s.position, p);
    var w := LogOf(log, p)[o];
    if w.Unreadable? || panics {
      SkippedConsumer(cfg, log, s, p);
    } else {
      match InsertOutcomeOf(s.received, w)
      case Inserted =>
        InsertedKeys(s.received, w.id, RowFor(cfg, p, o, w, now));
        StoredConsumer(log, s, p, s.received[w.id := RowFor(cfg, p, o, w, now)]);
      case DuplicateIdempotencyKey =>
        StoredConsumer(log, s, p, s.received);
      case MessageIdConflict =>
        SkippedConsumer(cfg, log, s, p);
    }
  }

  /** Acknowledging only ever moves past a handled record. */
  lemma AckConsumer(cfg: Config, log: Log, s: State)
    requires ConsumerInv(log, s) && s.inflight.Some?
    ensures ConsumerInv(log, Apply(cfg, log, s, Ack))
  {
    var (p, o) := s.inflight.value;
    var committed := s.committed[p := o + 1];
    assert forall q :: At(committed, q) == if q == p then o + 1 else At(s.committed, q);
    forall q, i: nat | i < At(committed, q) ensures Handled(log, q, i, s.received, s.quarantine) {
      if q == p && i == o {
      } else {
        assert i < At(s.committed, q);
      }
    }
  }

  lemma ResumeConsumer(log: Log, s: State, skips: nat)
    requires ConsumerInv(log, s)
    ensures ConsumerInv(log, s.(inflight := None, position := s.committed, skips := skips, tripped := None))
    ensures s.tripped.None? ==> ConsumerInv(log, s.(inflight := None, position := s.committed))
  {}

  lemma StepConsumer(cfg: Config, log: Log, s: State, step: Step)
    requires ConsumerInv(log, s) && Enabled(cfg, log, s, step) && Resumes(step)
    ensures ConsumerInv(log, Apply(cfg, log, s, step))
  {
    match step
    case Ingest(p, panics, now) => IngestedConsumer(cfg, log, s, p, panics, now);
    case Ack => AckConsumer(cfg, log, s);
    case AckError(resume) => ResumeConsumer(log, s, 0);
    case RecvError(p, resume) => ResumeConsumer(log, s, 0);
    case Restart => ResumeConsumer(log, s, 0);
    case Dispatch(id, a, now) =>
      DispatchedConsumer(cfg, s, id, a, now);
      SameConsumerKept(log, s, Dispatched(cfg, s, id, a, now));
    case RecordFallback(f, retryAt) =>
      RecordedConsumer(cfg, s.(fallbacks := s.fallbacks - multiset{f}), f.id, f.seen, f.d, f.at, retryAt);
      SameConsumerKept(log, s, Apply(cfg, log, s, step));
    case DropFallback(f) =>
    case RedriveFailed(ids, since, kind, clearHistory) =>
      SameKeys(s.received, RedriveRows(s.received, ids, clearHistory));
      SameConsumerKept(log, s, Apply(cfg, log, s, step));
  }

  /** Every step keeps the whole invariant, as long as errors resume from the
      committed offset. */
  lemma StepInv(cfg: Config, log: Log, s: State, step: Step)
    requires Inv(cfg, log, s) && Enabled(cfg, log, s, step) && Resumes(step)
    ensures Inv(cfg, log, Apply(cfg, log, s, step))
  {
    StepCore(cfg, log, s, step);
    StepConsumer(cfg, log, s, step);
  }
}
