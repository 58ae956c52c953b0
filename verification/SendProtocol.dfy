/**
 The send side as a step-based protocol: concurrent writers and repairs, relay
 workers, the broker and the retention sweep, interleaved in any order.
 */
module SendProtocol {
  import opened Wrappers
  import opened OutboxRows

  type TxId = nat

  /** An open transaction. `locks` are the advisory locks it holds to commit,
      `updated` the committed rows it has superseded (and therefore row-locked),
      `inserted` its own uncommitted rows, `latest` the last row it enqueued per
      entity, `writes` its domain changes and `loaded` what a repair read. */
  datatype Tx = Tx(locks: set<int>, superseding: Option<Entity>, updated: set<MessageId>, inserted: Table,
                   latest: map<Entity, Message>, writes: map<Entity, Payload>, loaded: map<Entity, Payload>)

  /** `rows`, `domain` and `log` are the committed outbox table, the committed
      domain state and the broker's partitions. `sequence` is the
      `enqueue_order` sequence, which no rollback rewinds. `acked` holds the
      delivery acknowledgements workers are about to act on. `minted` and
      `newest` are history: every message ever drawn, and the newest accepted
      message ever committed per entity. */
  datatype State = State(rows: Table, sequence: nat, txs: map<TxId, Tx>, domain: map<Entity, Payload>,
                         log: map<int, seq<Message>>, issued: set<ClaimId>, acked: set<(Message, ClaimId)>,
                         minted: set<Message>, newest: map<Entity, Message>)

  /** The advisory lock key and the partition of an entity. Neither need be
      injective. */
  datatype Config = Config(lockKey: Entity -> int, partition: Entity -> int)

  datatype Step =
    | Begin(t: TxId)
    | Lock(t: TxId, e: Entity)
    | Write(t: TxId, e: Entity, p: Payload)
    | Load(t: TxId, e: Entity)
    | SupersedePending(t: TxId, e: Entity, ids: set<MessageId>)
    | Insert(t: TxId, id: MessageId, key: Key, p: Payload, now: Time)
    | Reject(t: TxId, id: MessageId, e: Entity, p: Payload, now: Time)
    | Commit(t: TxId)
    | Abort(t: TxId)
    | Collapse(over: set<MessageId>, now: Time)
    | ClaimBatch(chosen: set<MessageId>, claim: Claim, now: Time)
    | Publish(id: MessageId, c: ClaimId, acknowledged: bool)
    | MarkPublished(m: Message, c: ClaimId)
    | MarkFailed(id: MessageId, c: ClaimId, retryAt: Time)
    | Purge(victims: set<MessageId>, before: Time, includeFailed: bool)

  function Empty(): State {
    State(map[], 0, map[], map[], map[], {}, {}, {}, map[])
  }

  function LogOf(log: map<int, seq<Message>>, p: int): seq<Message> {
    if p in log then log[p] else []
  }

  predicate RowLocked(s: State, id: MessageId) {
    exists t :: t in s.txs && id in s.txs[t].updated
  }

  predicate Fresh(s: State, id: MessageId) {
    forall m :: m in s.minted ==> m.id != id
  }

  predicate FreshKey(s: State, key: Key) {
    forall m :: m in s.minted ==> m.key != Some(key)
  }

  /** What a transaction says the entity's state is: its own write, or the
      committed state a repair loaded. */
  predicate Vouched(tx: Tx, e: Entity) {
    e in tx.latest &&
    (if e in tx.writes then tx.writes[e] == tx.latest[e].payload
     else e in tx.loaded && tx.loaded[e] == tx.latest[e].payload)
  }

  ghost predicate Enabled(cfg: Config, s: State, step: Step) {
    match step
    case Begin(t) => t !in s.txs
    case Lock(t, e) => t in s.txs && forall u :: u in s.txs && u != t ==> cfg.lockKey(e) !in s.txs[u].locks
    case Write(t, e, p) => t in s.txs
    case Load(t, e) =>
      t in s.txs && cfg.lockKey(e) in s.txs[t].locks && e in s.domain
    case SupersedePending(t, e, ids) =>
      && t in s.txs && cfg.lockKey(e) in s.txs[t].locks && s.txs[t].superseding.None?
      && forall id :: id in ids ==> id in s.rows && s.rows[id].msg.entity == e && s.rows[id].status.Pending?
    case Insert(t, id, key, p, now) =>
      t in s.txs && s.txs[t].superseding.Some? && Fresh(s, id) && FreshKey(s, key)
    case Reject(t, id, e, p, now) =>
      t in s.txs && s.txs[t].superseding.None? && Fresh(s, id)
    case Commit(t) =>
      && t in s.txs && s.txs[t].superseding.None?
      && s.txs[t].writes.Keys <= s.txs[t].latest.Keys
      && forall e :: e in s.txs[t].latest ==> Vouched(s.txs[t], e)
    case Abort(t) => t in s.txs
    case Collapse(over, now) =>
      && (forall id :: id in over ==> DueNewest(s.rows, id, now))
      && (forall id :: Overtaken(s.rows, id, over) ==> !RowLocked(s, id))
    case ClaimBatch(chosen, claim, now) =>
      && claim.id !in s.issued
      && (forall id :: id in chosen ==> Claimable(s.rows, id, now) && !RowLocked(s, id))
      && (forall id :: Overtaken(s.rows, id, chosen) ==> !RowLocked(s, id))
    case Publish(id, c, acknowledged) => HeldBy(s.rows, id, c)
    case MarkPublished(m, c) => (m, c) in s.acked
    case MarkFailed(id, c, retryAt) => c in s.issued
    case Purge(victims, before, includeFailed) =>
      forall id :: id in victims ==> Purgeable(s.rows, id, before, includeFailed)
  }

  function OwnSuperseded(tx: Tx, e: Entity): Table {
    map id | id in tx.inserted ::
      if tx.inserted[id].msg.entity == e && tx.inserted[id].status.Pending?
      then SupersededRow(tx.inserted[id]) else tx.inserted[id]
  }

  function SetTx(s: State, t: TxId, tx: Tx): State {
    s.(txs := s.txs[t := tx])
  }

  function Drawn(s: State, t: TxId, row: Row, latest: map<Entity, Message>): State
    requires t in s.txs
  {
    var tx := s.txs[t];
    s.(sequence := s.sequence + 1,
       minted := s.minted + {row.msg},
       txs := s.txs[t := tx.(inserted := tx.inserted[row.msg.id := row], latest := latest, superseding := None)])
  }

  function Apply(cfg: Config, s: State, step: Step): State
    requires Enabled(cfg, s, step)
  {
    match step
    case Begin(t) => SetTx(s, t, Tx({}, None, {}, map[], map[], map[], map[]))
    case Lock(t, e) => SetTx(s, t, s.txs[t].(locks := s.txs[t].locks + {cfg.lockKey(e)}))
    case Write(t, e, p) => SetTx(s, t, s.txs[t].(writes := s.txs[t].writes[e := p]))
    case Load(t, e) => SetTx(s, t, s.txs[t].(loaded := s.txs[t].loaded[e := s.domain[e]]))
    case SupersedePending(t, e, ids) =>
      SetTx(s, t, s.txs[t].(superseding := Some(e), updated := s.txs[t].updated + ids,
                            inserted := OwnSuperseded(s.txs[t], e)))
    case Insert(t, id, key, p, now) =>
      var e := s.txs[t].superseding.value;
      var msg := Message(id, Some(key), e, s.sequence, p);
      Drawn(s, t, Row(msg, Pending, 0, now, None, now), s.txs[t].latest[e := msg])
    case Reject(t, id, e, p, now) =>
      var msg := Message(id, None, e, s.sequence, p);
      Drawn(s, t, Row(msg, Failed, 0, now, None, now), s.txs[t].latest)
    case Commit(t) =>
      var tx := s.txs[t];
      s.(rows := SupersedeRows(s.rows, tx.updated) + tx.inserted,
         txs := s.txs - {t},
         domain := s.domain + tx.writes,
         newest := s.newest + tx.latest)
    case Abort(t) => s.(txs := s.txs - {t})
    case Collapse(over, now) => s.(rows := CollapseRows(s.rows, over))
    case ClaimBatch(chosen, claim, now) =>
      s.(rows := ClaimRows(s.rows, chosen, claim), issued := s.issued + {claim.id})
    case Publish(id, c, acknowledged) =>
      var m := s.rows[id].msg;
      var p := cfg.partition(m.entity);
      s.(log := s.log[p := LogOf(s.log, p) + [m]],
         acked := if acknowledged then s.acked + {(m, c)} else s.acked)
    case MarkPublished(m, c) => s.(rows := MarkPublishedRows(s.rows, m.id, c))
    case MarkFailed(id, c, retryAt) => s.(rows := MarkFailedRows(s.rows, id, c, retryAt))
    case Purge(victims, before, includeFailed) => s.(rows := PurgeRows(s.rows, victims))
  }
}
