/**
 Which handlers a committed dispatch ran, and in what order of records over whole
 runs.
 */
module HandlerRuns {
  import opened Wrappers
  import opened EntityCache
  import opened ReceivedRows
  import opened ReceiveProtocol
  import opened ReceiveInvariant
  import opened ReceiveTheorems

  /** This commit took the entity's cache row to `snapshot`. */
  predicate Moved(cache: map<Entity, CacheRow>, cache': map<Entity, CacheRow>, e: Entity, snapshot: Snapshot) {
    e in cache' && cache'[e].applied == snapshot && (e in cache ==> cache[e].applied != snapshot)
  }

  /** A committed dispatch leaves the pre-upsert hook's effects if it is registered,
      and then the post-upsert handler's if and only if that is registered, the hook
      did not skip it, and the commit moved the cache to this very record. */
  lemma HandlersExactly(cfg: Config, s: State, id: MessageId, a: Attempt, now: Time)
    requires id in s.received && Converge(cfg, s, id, a, now).Success?
    ensures EntityKeyOf(s.received[id]).Success?
    ensures var s' := Converge(cfg, s, id, a, now).value;
            var moved := Moved(s.cache, s'.cache, EntityKeyOf(s.received[id]).value, s.received[id].snapshot);
            s'.effects == s.effects + (if cfg.before then [Before(id, a.skip)] else [])
                          + (if cfg.after && !(cfg.before && a.skip) && moved then [Effect.After(id)] else [])
  {}

  /** Rows of one entity. */
  predicate SameEntity(received: map<MessageId, Row>, a: MessageId, b: MessageId) {
    a in received && b in received && received[a].entity.Some? && received[a].entity == received[b].entity
  }

  /** The post-upsert handler saw one entity's records in increasing offset. */
  ghost predicate Forward(effects: seq<Effect>, received: map<MessageId, Row>) {
    forall i, j :: 0 <= i < j < |effects| ==> InOrder(effects[i], effects[j], received)
  }

  predicate InOrder(x: Effect, y: Effect, received: map<MessageId, Row>) {
    x.After? && y.After? && SameEntity(received, x.id, y.id) ==>
      && received[x.id].snapshot.partition == received[y.id].snapshot.partition
      && received[x.id].snapshot.offset < received[y.id].snapshot.offset
  }

  /** No step changes which record a stored row is. */
  lemma StepKeepsIdentity(cfg: Config, log: Log, s: State, step: Step, id: MessageId)
    requires Enabled(cfg, log, s, step) && id in s.received
    ensures var s' := Apply(cfg, log, s, step);
            id in s'.received && s'.received[id].entity == s.received[id].entity
            && s'.received[id].snapshot == s.received[id].snapshot
  {
    match step
    case Ingest(p, panics, now) => IngestKeepsRows(cfg, log, s, p, panics, now, id);
    case Dispatch(claimed, a, now) => DispatchAllOrNothing(cfg, s, claimed, a, now);
    case _ =>
  }

  lemma ForwardKept(effects: seq<Effect>, a: map<MessageId, Row>, b: map<MessageId, Row>)
    requires Forward(effects, a) && forall i :: 0 <= i < |effects| ==> effects[i].id in a
    requires forall id :: id in a ==> id in b && b[id].entity == a[id].entity && b[id].snapshot == a[id].snapshot
    ensures Forward(effects, b)
  {
    forall i, j | 0 <= i < j < |effects| ensures InOrder(effects[i], effects[j], b) {
      assert InOrder(effects[i], effects[j], a);
    }
  }

  /** A record the cache moved to is past every record whose handler ran before. */
  lemma MovedIsNewer(cfg: Config, log: Log, s: State, id: MessageId, a: Attempt, now: Time, earlier: MessageId)
    requires Core(cfg, log, s) && id in s.received && Open(s.received[id]) && Converge(cfg, s, id, a, now).Success?
    requires earlier in s.received && s.received[earlier].status.Processed? && SameEntity(s.received, earlier, id)
    requires var s' := Converge(cfg, s, id, a, now).value;
             Moved(s.cache, s'.cache, s.received[id].entity.value, s.received[id].snapshot)
    ensures s.received[earlier].snapshot.partition == s.received[id].snapshot.partition
    ensures s.received[earlier].snapshot.offset < s.received[id].snapshot.offset
  {
    var e := s.received[id].entity.value;
    assert FromLog(cfg.topic, log, id, s.received[id]);
    assert e in s.cache && s.received[earlier].snapshot.offset <= s.cache[e].applied.offset;
    CachedTopic(cfg, log, s, e);
    ConvergedFacts(cfg, s, id, a, now, e);
  }

  lemma ForwardOn(effects: seq<Effect>, more: seq<Effect>, received: map<MessageId, Row>, id: MessageId)
    requires Forward(effects, received) && |more| <= 2 && (|more| == 2 ==> more[0].Before?)
    requires forall k :: 0 <= k < |more| ==> more[k].id == id
    requires || (forall k :: 0 <= k < |more| ==> more[k].Before?)
             || (forall i :: 0 <= i < |effects| ==> InOrder(effects[i], Effect.After(id), received))
    ensures Forward(effects + more, received)
  {
    var all := effects + more;
    forall i, j | 0 <= i < j < |all| ensures InOrder(all[i], all[j], received) {
      if j < |effects| {
        assert InOrder(effects[i], effects[j], received);
      } else if i < |effects| {
        assert all[j] == more[j - |effects|];
      }
    }
  }

  lemma ConvergedForward(cfg: Config, log: Log, s: State, id: MessageId, a: Attempt, now: Time)
    requires Core(cfg, log, s) && Forward(s.effects, s.received)
    requires id in s.received && Open(s.received[id]) && Converge(cfg, s, id, a, now).Success?
    ensures Forward(Converge(cfg, s, id, a, now).value.effects, s.received)
  {
    var s' := Converge(cfg, s, id, a, now).value;
    assert FromLog(cfg.topic, log, id, s.received[id]);
    HandlersExactly(cfg, s, id, a, now);
    var hook := if cfg.before then [Before(id, a.skip)] else [];
    var moved := Moved(s.cache, s'.cache, s.received[id].entity.value, s.received[id].snapshot);
    var runs := cfg.after && !(cfg.before && a.skip) && moved;
    var more := hook + if runs then [Effect.After(id)] else [];
    assert s'.effects == s.effects + more;
    forall i | 0 <= i < |s.effects| && runs ensures InOrder(s.effects[i], Effect.After(id), s.received) {
      if s.effects[i].After? && SameEntity(s.received, s.effects[i].id, id) {
        MovedIsNewer(cfg, log, s, id, a, now, s.effects[i].id);
      }
    }
    ForwardOn(s.effects, more, s.received, id);
  }

  lemma StepForward(cfg: Config, log: Log, s: State, step: Step)
    requires Core(cfg, log, s) && Enabled(cfg, log, s, step) && Forward(s.effects, s.received)
    ensures var s' := Apply(cfg, log, s, step); Forward(s'.effects, s'.received)
  {
    var s' := Apply(cfg, log, s, step);
    EffectsCommitWithTheMark(cfg, log, s, step);
    StepCore(cfg, log, s, step);
    if s'.effects != s.effects {
      ConvergedForward(cfg, log, s, step.id, step.a, step.now);
      forall i | 0 <= i < |s'.effects| ensures s'.effects[i].id in s.received {
        assert s'.effects[i].id in s'.received;
      }
    }
    forall id | id in s.received
      ensures id in s'.received && s'.received[id].entity == s.received[id].entity
              && s'.received[id].snapshot == s.received[id].snapshot
    {
      StepKeepsIdentity(cfg, log, s, step, id);
    }
    ForwardKept(s'.effects, s.received, s'.received);
  }

  lemma {:induction false} RunForward(cfg: Config, w: World, moves: seq<Move>)
    requires Core(cfg, w.log, w.s) && Forward(w.s.effects, w.s.received) && Runs(cfg, w, moves)
    ensures var w' := Exec(cfg, w, moves); Forward(w'.s.effects, w'.s.received)
    decreases |moves|
  {
    if moves != [] {
      if moves[0].Act? {
        StepForward(cfg, w.log, w.s, moves[0].step);
      }
      MoveCore(cfg, w, moves[0]);
      RunForward(cfg, Do(cfg, w, moves[0]), moves[1..]);
    }
  }

  /** In every run the post-upsert handler is given one entity's records in
      increasing offset, however dispatches, retries and redrives are ordered: it
      never derives from a record older than one it has seen. */
  lemma HandlersRunForward(cfg: Config, moves: seq<Move>, i: nat, j: nat)
    requires Runs(cfg, World(map[], Empty()), moves)
    requires i < j < |Exec(cfg, World(map[], Empty()), moves).s.effects|
    ensures var s := Exec(cfg, World(map[], Empty()), moves).s; var a, b := s.effects[i], s.effects[j];
            a.After? && b.After? && SameEntity(s.received, a.id, b.id) ==>
              && s.received[a.id].snapshot.partition == s.received[b.id].snapshot.partition
              && s.received[a.id].snapshot.offset < s.received[b.id].snapshot.offset
  {
    RunForward(cfg, World(map[], Empty()), moves);
    var s := Exec(cfg, World(map[], Empty()), moves).s;
    assert InOrder(s.effects[i], s.effects[j], s.received);
  }
}
