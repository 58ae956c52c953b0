/**
 A concrete run in which retention leaves an older row as the newest visible one.
 */
module SendWitness {
  import opened Wrappers
  import opened OutboxRows
  import opened SendProtocol
  import opened SendTheorems

  /** The state after one writer alone locks, writes, supersedes, inserts and
      commits. */
  function Enqueued(s: State, e: Entity, p: Payload, id: MessageId, key: Key, ids: set<MessageId>, now: Time): State {
    var msg := Message(id, Some(key), e, s.sequence, p);
    s.(rows := SupersedeRows(s.rows, ids)[id := Row(msg, Pending, 0, now, None, now)],
       sequence := s.sequence + 1, domain := s.domain[e := p], minted := s.minted + {msg}, newest := s.newest[e := msg])
  }

  lemma OpensTx(cfg: Config, s: State, e: Entity, p: Payload) returns (s': State)
    requires Reachable(cfg, s) && s.txs == map[]
    ensures Reachable(cfg, s')
    ensures s' == s.(txs := map[0 := Tx({cfg.lockKey(e)}, None, {}, map[], map[], map[e := p], map[])])
  {
    ReachableOn(cfg, s, Begin(0));
    var s1 := Apply(cfg, s, Begin(0));
    ReachableOn(cfg, s1, Lock(0, e));
    var s2 := Apply(cfg, s1, Lock(0, e));
    assert {} + {cfg.lockKey(e)} == {cfg.lockKey(e)};
    ReachableOn(cfg, s2, Write(0, e, p));
    s' := Apply(cfg, s2, Write(0, e, p));
  }

  lemma EnqueueReachable(cfg: Config, s: State, e: Entity, p: Payload, id: MessageId, key: Key, ids: set<MessageId>,
                         now: Time)
    requires Reachable(cfg, s) && s.txs == map[] && Fresh(s, id) && FreshKey(s, key)
    requires forall i :: i in ids ==> i in s.rows && s.rows[i].msg.entity == e && s.rows[i].status.Pending?
    ensures Reachable(cfg, Enqueued(s, e, p, id, key, ids, now))
  {
    var s1 := OpensTx(cfg, s, e, p);
    ReachableOn(cfg, s1, SupersedePending(0, e, ids));
    var s2 := Apply(cfg, s1, SupersedePending(0, e, ids));
    assert {} + ids == ids;
    InsertAndCommit(cfg, s, s2, e, p, id, key, ids, now, map[e := p], map[]);
    Merged(s.domain, e, p);
  }

  lemma OpensRepair(cfg: Config, s: State, e: Entity) returns (s': State)
    requires Reachable(cfg, s) && s.txs == map[] && e in s.domain
    ensures Reachable(cfg, s')
    ensures s' == s.(txs := map[0 := Tx({cfg.lockKey(e)}, None, {}, map[], map[], map[], map[e := s.domain[e]])])
  {
    ReachableOn(cfg, s, Begin(0));
    var s1 := Apply(cfg, s, Begin(0));
    ReachableOn(cfg, s1, Lock(0, e));
    var s2 := Apply(cfg, s1, Lock(0, e));
    assert {} + {cfg.lockKey(e)} == {cfg.lockKey(e)};
    ReachableOn(cfg, s2, Load(0, e));
    s' := Apply(cfg, s2, Load(0, e));
  }

  /** A repair alone: it loads under the lock, and the committed state stays. */
  lemma RepairReachable(cfg: Config, s: State, e: Entity, id: MessageId, key: Key, ids: set<MessageId>, now: Time)
    requires Reachable(cfg, s) && s.txs == map[] && e in s.domain && Fresh(s, id) && FreshKey(s, key)
    requires forall i :: i in ids ==> i in s.rows && s.rows[i].msg.entity == e && s.rows[i].status.Pending?
    ensures Reachable(cfg, Enqueued(s, e, s.domain[e], id, key, ids, now).(domain := s.domain))
  {
    var s1 := OpensRepair(cfg, s, e);
    ReachableOn(cfg, s1, SupersedePending(0, e, ids));
    var s2 := Apply(cfg, s1, SupersedePending(0, e, ids));
    assert {} + ids == ids;
    InsertAndCommit(cfg, s, s2, e, s.domain[e], id, key, ids, now, map[], map[e := s.domain[e]]);
    assert s.domain + map[] == s.domain;
  }

  lemma Merged<K, V>(m: map<K, V>, k: K, v: V)
    ensures m + map[k := v] == m[k := v]
  {}

  /** The rest of a transaction that vouches for what it enqueues, by its own write
      or by what it loaded. */
  lemma InsertAndCommit(cfg: Config, s: State, s2: State, e: Entity, p: Payload, id: MessageId, key: Key,
                        ids: set<MessageId>, now: Time, writes: map<Entity, Payload>, loaded: map<Entity, Payload>)
    requires Reachable(cfg, s2) && s.txs == map[] && Fresh(s, id) && FreshKey(s, key)
    requires writes == map[e := p] || (writes == map[] && loaded == map[e := p])
    requires s2 == s.(txs := map[0 := Tx({cfg.lockKey(e)}, Some(e), ids, map[], map[], writes, loaded)])
    ensures Reachable(cfg, Enqueued(s, e, p, id, key, ids, now).(domain := s.domain + writes))
  {
    ReachableOn(cfg, s2, Insert(0, id, key, p, now));
    var s3 := Apply(cfg, s2, Insert(0, id, key, p, now));
    var msg := Message(id, Some(key), e, s.sequence, p);
    var tx := Tx({cfg.lockKey(e)}, None, ids, map[id := Row(msg, Pending, 0, now, None, now)], map[e := msg], writes, loaded);
    assert s3 == s.(txs := map[0 := tx], sequence := s.sequence + 1, minted := s.minted + {msg});
    CommitDrawn(cfg, s, s3, tx);
    Merged(SupersedeRows(s.rows, ids), id, tx.inserted[id]);
    Merged(s.newest, e, msg);
  }

  lemma CommitDrawn(cfg: Config, s: State, s3: State, tx: Tx)
    requires Reachable(cfg, s3) && s.txs == map[] && s3.txs == map[0 := tx] && tx.superseding.None?
    requires tx.writes.Keys <= tx.latest.Keys && forall e :: e in tx.latest ==> Vouched(tx, e)
    requires s3 == s.(txs := s3.txs, sequence := s3.sequence, minted := s3.minted)
    ensures Reachable(cfg, s.(rows := SupersedeRows(s.rows, tx.updated) + tx.inserted, sequence := s3.sequence,
                              minted := s3.minted, domain := s.domain + tx.writes, newest := s.newest + tx.latest))
  {
    ReachableOn(cfg, s3, Commit(0));
    assert Apply(cfg, s3, Commit(0)).txs == map[];
  }

  lemma Claimed(cfg: Config, s: State, id: MessageId) returns (s': State)
    requires Reachable(cfg, s) && s.txs == map[] && s.issued == {} && DueNewest(s.rows, id, 0)
    ensures Reachable(cfg, s')
    ensures s' == s.(rows := ClaimRows(s.rows, {id}, Claim(7, "relay", 60)), issued := {7})
  {
    var step := ClaimBatch({id}, Claim(7, "relay", 60), 0);
    ReachableOn(cfg, s, step);
    s' := Apply(cfg, s, step);
    assert {} + {7} == {7};
  }

  lemma Delivered(cfg: Config, s: State, id: MessageId) returns (s': State)
    requires Reachable(cfg, s) && s.txs == map[] && s.issued == {} && DueNewest(s.rows, id, 0)
    ensures Reachable(cfg, s') && s'.newest == s.newest && s'.domain == s.domain
    ensures s'.rows == MarkPublishedRows(ClaimRows(s.rows, {id}, Claim(7, "relay", 60)), id, 7)
  {
    var s1 := Claimed(cfg, s, id);
    InvKeyed(cfg, s, id);
    ReachableOn(cfg, s1, Publish(id, 7, true));
    var s2 := Apply(cfg, s1, Publish(id, 7, true));
    ReachableOn(cfg, s2, MarkPublished(s.rows[id].msg, 7));
    s' := Apply(cfg, s2, MarkPublished(s.rows[id].msg, 7));
  }

  const FIRST := Message(1, Some(1), "e", 0, "a")
  const SECOND := Message(2, Some(2), "e", 1, "b")
  const OLD_ROW := Row(FIRST, Superseded, 0, 0, None, 0)

  lemma OneEnqueued(cfg: Config) returns (s: State)
    ensures Reachable(cfg, s)
    ensures s == State(map[1 := Row(FIRST, Pending, 0, 0, None, 0)], 1, map[], map["e" := "a"], map[], {}, {}, {FIRST},
                       map["e" := FIRST])
  {
    assert Runs(cfg, Empty(), []) && Exec(cfg, Empty(), []) == Empty();
    EnqueueReachable(cfg, Empty(), "e", "a", 1, 1, {}, 0);
    s := Enqueued(Empty(), "e", "a", 1, 1, {}, 0);
    assert s.minted == {FIRST};
  }

  lemma TwoEnqueued(cfg: Config) returns (s: State)
    ensures Reachable(cfg, s) && s.txs == map[] && s.issued == {}
    ensures s.rows == map[1 := OLD_ROW, 2 := Row(SECOND, Pending, 0, 0, None, 0)]
    ensures s.newest == map["e" := SECOND] && s.domain == map["e" := "b"]
  {
    var s1 := OneEnqueued(cfg);
    EnqueueReachable(cfg, s1, "e", "b", 2, 2, {1}, 0);
    s := Enqueued(s1, "e", "b", 2, 2, {1}, 0);
  }

  lemma DeliveredRows(rows: Table)
    requires rows == map[1 := OLD_ROW, 2 := Row(SECOND, Pending, 0, 0, None, 0)]
    ensures DueNewest(rows, 2, 0)
    ensures MarkPublishedRows(ClaimRows(rows, {2}, Claim(7, "relay", 60)), 2, 7)
         == map[1 := OLD_ROW, 2 := Row(SECOND, Published, 1, 0, None, 0)]
  {
    var claimed := ClaimRows(rows, {2}, Claim(7, "relay", 60));
    assert claimed == map[1 := OLD_ROW, 2 := Row(SECOND, Publishing, 1, 0, Some(Claim(7, "relay", 60)), 0)];
  }

  lemma SweptRows(rows: Table)
    requires rows == map[1 := OLD_ROW, 2 := Row(SECOND, Published, 1, 0, None, 0)]
    ensures Purgeable(rows, 2, 5, false) && NewestVisible(PurgeRows(rows, {2}), "e", 1)
    ensures PurgeRows(rows, {2})[1] == OLD_ROW
  {
    assert PurgeRows(rows, {2}) == map[1 := OLD_ROW];
  }

  /** Two enqueues, one delivery, one sweep: the newest visible accepted row says
      "a" while the committed state is "b". */
  lemma SweepLeavesOlderRow(cfg: Config)
    ensures exists s :: Reachable(cfg, s) && NewestVisible(s.rows, "e", 1) && s.rows[1].msg.payload == "a"
                        && "e" in s.domain && s.domain["e"] == "b"
  {
    var s := TwoEnqueued(cfg);
    DeliveredRows(s.rows);
    var s' := Delivered(cfg, s, 2);
    SweptRows(s'.rows);
    var sweep := Purge({2}, 5, false);
    ReachableOn(cfg, s', sweep);
    assert Apply(cfg, s', sweep).rows == PurgeRows(s'.rows, {2});
  }
}
