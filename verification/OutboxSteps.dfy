/**
 The table's own transactions are runs of the send protocol. Each lemma names the
 state it reaches in full, so they chain: whatever calls with fresh ids are made one
 after the other, the protocol's results hold between them.
 */
module OutboxSteps {
  import opened Wrappers
  import opened OutboxRows
  import opened OutboxTable
  import opened Selection
  import opened SendProtocol
  import opened SendTheorems
  import opened SendWitness
  import Resync

  /** What `ClaimBatch` ensures of its window and page is what enables the
      protocol's collapse and claim. */
  lemma ClaimBatchIsSteps(cfg: Config, s: State, window: seq<MessageId>, page: seq<MessageId>, limit: nat, claim: Claim,
                          now: Time, locked: set<MessageId>)
    requires Reachable(cfg, s) && s.txs == map[] && claim.id !in s.issued
    requires FirstPage(window, Window(s.rows, now), limit, ByOrder(s.rows))
    requires FirstPage(page, Candidates(CollapseRows(s.rows, Ids(window)), now, locked), limit,
                       ByOrder(CollapseRows(s.rows, Ids(window))))
    ensures Reachable(cfg, s.(rows := ClaimRows(CollapseRows(s.rows, Ids(window)), Ids(page), claim),
                              issued := s.issued + {claim.id}))
  {
    var collapse := Collapse(Ids(window), now);
    assert Enabled(cfg, s, collapse);
    ReachableOn(cfg, s, collapse);
    ClaimIsStep(cfg, Apply(cfg, s, collapse), page, claim, now, locked, limit);
  }

  lemma ClaimIsStep(cfg: Config, s: State, page: seq<MessageId>, claim: Claim, now: Time, locked: set<MessageId>,
                    limit: nat)
    requires Reachable(cfg, s) && s.txs == map[] && claim.id !in s.issued
    requires FirstPage(page, Candidates(s.rows, now, locked), limit, ByOrder(s.rows))
    ensures Reachable(cfg, s.(rows := ClaimRows(s.rows, Ids(page), claim), issued := s.issued + {claim.id}))
  {
    var step := SendProtocol.ClaimBatch(Ids(page), claim, now);
    assert Enabled(cfg, s, step);
    ReachableOn(cfg, s, step);
  }

  /** What `Enqueue` accepts is one writer's whole transaction. */
  lemma EnqueueIsSteps(cfg: Config, s: State, id: MessageId, key: Key, e: Entity, payload: Payload, now: Time)
    requires Reachable(cfg, s) && s.txs == map[] && Fresh(s, id) && FreshKey(s, key)
    ensures var msg := Message(id, Some(key), e, s.sequence, payload);
            Reachable(cfg, s.(rows := EnqueuedRows(s.rows, msg, now), sequence := s.sequence + 1,
                              domain := s.domain[e := payload], minted := s.minted + {msg}, newest := s.newest[e := msg]))
  {
    EnqueueReachable(cfg, s, e, payload, id, key, Pendings(s.rows, e), now);
  }

  /** What `RepairKey` commits is one repair's whole transaction, if the state it
      loaded is the committed one: the repair changes no domain state. */
  lemma RepairIsSteps(cfg: Config, s: State, key: Entity, found: Resync.Loaded, now: Time)
    requires Reachable(cfg, s) && s.txs == map[] && Resync.KeyError(s.rows, key, found).None?
    requires found.Current? ==>
               key in s.domain && found.payload == s.domain[key] && Fresh(s, found.id) && FreshKey(s, found.key.value)
    ensures var after := Resync.RepairedTable(s.rows, s.sequence, key, found, now);
            var s' := s.(rows := after.0, sequence := after.1);
            Reachable(cfg, if found.Gone? then s'
                           else var msg := Message(found.id, found.key, key, s.sequence, found.payload);
                                s'.(minted := s.minted + {msg}, newest := s.newest[key := msg]))
  {
    if found.Current? {
      RepairReachable(cfg, s, key, found.id, found.key.value, Pendings(s.rows, key), now);
    }
  }

  /** The audit row of a refused enqueue is a transaction of its own. */
  lemma AuditIsSteps(cfg: Config, s: State, id: MessageId, e: Entity, payload: Payload, now: Time)
    requires Reachable(cfg, s) && s.txs == map[] && Fresh(s, id)
    ensures var msg := Message(id, None, e, s.sequence, payload);
            Reachable(cfg, s.(rows := s.rows[id := Row(msg, Failed, 0, now, None, now)], sequence := s.sequence + 1,
                              minted := s.minted + {msg}))
  {
    var msg := Message(id, None, e, s.sequence, payload);
    var row := Row(msg, Failed, 0, now, None, now);
    ReachableOn(cfg, s, Begin(0));
    var s1 := Apply(cfg, s, Begin(0));
    ReachableOn(cfg, s1, Reject(0, id, e, payload, now));
    var s2 := Apply(cfg, s1, Reject(0, id, e, payload, now));
    var tx := Tx({}, None, {}, map[id := row], map[], map[], map[]);
    assert s2 == s.(txs := map[0 := tx], sequence := s.sequence + 1, minted := s.minted + {msg});
    CommitAudit(cfg, s, s2, id, row, tx);
  }

  lemma CommitAudit(cfg: Config, s: State, s2: State, id: MessageId, row: Row, tx: Tx)
    requires Reachable(cfg, s2) && s.txs == map[] && tx == Tx({}, None, {}, map[id := row], map[], map[], map[])
    requires s2 == s.(txs := map[0 := tx], sequence := s2.sequence, minted := s2.minted)
    ensures Reachable(cfg, s.(rows := s.rows[id := row], sequence := s2.sequence, minted := s2.minted))
  {
    CommitDrawn(cfg, s, s2, tx);
    AuditRows(s.rows, id, row);
    assert s.domain + map[] == s.domain && s.newest + map[] == s.newest;
  }

  lemma AuditRows(rows: Table, id: MessageId, row: Row)
    ensures SupersedeRows(rows, {}) + map[id := row] == rows[id := row]
  {
    assert SupersedeRows(rows, {}) == rows;
  }

  /** A mark after an acknowledgement, a mark after a failed publish and a sweep are
      one step each. */
  lemma PublishedIsStep(cfg: Config, s: State, m: Message, c: ClaimId)
    requires Reachable(cfg, s) && (m, c) in s.acked
    ensures Reachable(cfg, s.(rows := MarkPublishedRows(s.rows, m.id, c)))
  {
    ReachableOn(cfg, s, SendProtocol.MarkPublished(m, c));
  }

  lemma FailedIsStep(cfg: Config, s: State, id: MessageId, c: ClaimId, retryAt: Time)
    requires Reachable(cfg, s) && c in s.issued
    ensures Reachable(cfg, s.(rows := MarkFailedRows(s.rows, id, c, retryAt)))
  {
    ReachableOn(cfg, s, MarkFailed(id, c, retryAt));
  }

  lemma PurgeIsStep(cfg: Config, s: State, victims: seq<MessageId>, batchSize: nat, before: Time, includeFailed: bool,
                    locked: set<MessageId>)
    requires Reachable(cfg, s)
    requires FirstPage(victims, Victims(s.rows, before, includeFailed, locked), batchSize, ByCreated(s.rows))
    ensures Reachable(cfg, s.(rows := PurgeRows(s.rows, Ids(victims))))
  {
    var step := Purge(Ids(victims), before, includeFailed);
    assert Enabled(cfg, s, step);
    ReachableOn(cfg, s, step);
  }
}
