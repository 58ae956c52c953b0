/**
 What every step of the send protocol keeps.

 Each predicate takes just the parts of the state it speaks about, so a step only
 has to re-establish the predicates over the parts it changed.
 */
module SendInvariant {
  import opened Wrappers
  import opened OutboxRows
  import opened SendProtocol

  type Log = map<int, seq<Message>>

  ghost predicate InLog(cfg: Config, log: Log, m: Message) {
    m in LogOf(log, cfg.partition(m.entity))
  }

  /** Message ids, idempotency keys and enqueue orders each name one message. */
  ghost predicate Minted(minted: set<Message>, sequence: nat) {
    && (forall m :: m in minted ==> m.order < sequence)
    && (forall m, n :: m in minted && n in minted && m.id == n.id ==> m == n)
    && (forall m, n :: m in minted && n in minted && m.order == n.order ==> m == n)
    && (forall m, n :: m in minted && n in minted && m.key.Some? && m.key == n.key ==> m == n)
  }

  ghost predicate RowSound(id: MessageId, r: Row, minted: set<Message>, issued: set<ClaimId>) {
    && r.msg in minted && r.msg.id == id
    && (r.status.Failed? <==> r.msg.key.None?)
    && (r.claim.Some? <==> r.status.Publishing?)
    && (r.claim.Some? ==> r.claim.value.id in issued)
  }

  ghost predicate RowsSound(rows: Table, minted: set<Message>, issued: set<ClaimId>) {
    forall id :: id in rows ==> RowSound(id, rows[id], minted, issued)
  }

  /** Every accepted row is at or behind the newest accepted message of its
      entity, and a Superseded row is strictly behind it. */
  ghost predicate BehindNewest(rows: Table, newest: map<Entity, Message>) {
    forall id :: id in rows && !rows[id].status.Failed? ==>
      && rows[id].msg.entity in newest
      && rows[id].msg.order <= newest[rows[id].msg.entity].order
      && (rows[id].status.Superseded? ==> rows[id].msg.order < newest[rows[id].msg.entity].order)
  }

  /** The newest accepted message is still in the table or already in the log. */
  ghost predicate NewestKept(cfg: Config, newest: map<Entity, Message>, minted: set<Message>, rows: Table, log: Log) {
    forall e :: e in newest ==>
      && newest[e] in minted && newest[e].entity == e && newest[e].key.Some?
      && (newest[e].id in rows || InLog(cfg, log, newest[e]))
  }

  /** One entity's records never decrease in enqueue order. */
  ghost predicate LogOrdered(log: Log) {
    forall p, i, j :: p in log && 0 <= i < j < |log[p]| && log[p][i].entity == log[p][j].entity ==>
      log[p][i].order <= log[p][j].order
  }

  ghost predicate LogSound(cfg: Config, log: Log, minted: set<Message>, newest: map<Entity, Message>) {
    forall p, i :: p in log && 0 <= i < |log[p]| ==>
      var m := log[p][i];
      && m in minted && m.key.Some? && cfg.partition(m.entity) == p
      && m.entity in newest && m.order <= newest[m.entity].order
  }

  /** No record is ahead of a row that may still be published. */
  ghost predicate LogBehindLive(log: Log, rows: Table) {
    forall p, i, id :: p in log && 0 <= i < |log[p]| && id in rows && Live(rows[id])
                       && rows[id].msg.entity == log[p][i].entity ==>
      log[p][i].order <= rows[id].msg.order
  }

  ghost predicate PublishedLogged(cfg: Config, rows: Table, log: Log) {
    forall id :: id in rows && rows[id].status.Published? ==> InLog(cfg, log, rows[id].msg)
  }

  ghost predicate AckedLogged(cfg: Config, acked: set<(Message, ClaimId)>, log: Log) {
    forall a :: a in acked ==> InLog(cfg, log, a.0)
  }

  /** Two transactions never hold one advisory lock. */
  ghost predicate LocksExclusive(txs: map<TxId, Tx>) {
    forall t, u :: t in txs && u in txs && t != u ==> txs[t].locks !! txs[u].locks
  }

  ghost predicate InsertsDisjoint(txs: map<TxId, Tx>) {
    forall t, u :: t in txs && u in txs && t != u ==> txs[t].inserted.Keys !! txs[u].inserted.Keys
  }

  /** Rows an open transaction superseded are still Pending for everyone else,
      under a lock it holds, and it has enqueued (or is enqueuing) newer state. */
  ghost predicate TxUpdates(cfg: Config, updated: set<MessageId>, locks: set<int>, latest: map<Entity, Message>,
                            superseding: Option<Entity>, rows: Table) {
    forall id :: id in updated ==>
      && id in rows && rows[id].status.Pending?
      && cfg.lockKey(rows[id].msg.entity) in locks
      && (rows[id].msg.entity in latest || superseding == Some(rows[id].msg.entity))
  }

  ghost predicate InsertedSound(id: MessageId, r: Row, latest: map<Entity, Message>, superseding: Option<Entity>,
                                minted: set<Message>) {
    && r.msg in minted && r.msg.id == id && r.claim.None?
    && (r.status.Failed? <==> r.msg.key.None?)
    && (!r.status.Failed? ==>
          && (r.status.Superseded? || r.status.Pending?)
          && r.msg.entity in latest
          && r.msg.order <= latest[r.msg.entity].order
          && (r.msg != latest[r.msg.entity] || superseding == Some(r.msg.entity) ==> r.status.Superseded?)
          && (r.status.Superseded? && superseding != Some(r.msg.entity) ==>
                r.msg.order < latest[r.msg.entity].order))
  }

  ghost predicate TxInserts(inserted: Table, latest: map<Entity, Message>, superseding: Option<Entity>, rows: Table,
                            minted: set<Message>) {
    forall id :: id in inserted ==> id !in rows && InsertedSound(id, inserted[id], latest, superseding, minted)
  }

  /** An enqueued row's entity is locked and the row is newer than anything
      committed for that entity. */
  ghost predicate TxLatest(cfg: Config, latest: map<Entity, Message>, superseding: Option<Entity>, locks: set<int>,
                           inserted: Table, newest: map<Entity, Message>) {
    && (superseding.Some? ==> cfg.lockKey(superseding.value) in locks)
    && forall e :: e in latest ==>
      && latest[e].entity == e && latest[e].key.Some?
      && latest[e].id in inserted && inserted[latest[e].id].msg == latest[e]
      && cfg.lockKey(e) in locks
      && (e in newest ==> newest[e].order < latest[e].order)
  }

  /** What a repair loaded is still the committed state. */
  ghost predicate TxLoaded(cfg: Config, loaded: map<Entity, Payload>, locks: set<int>, domain: map<Entity, Payload>) {
    forall e :: e in loaded ==> cfg.lockKey(e) in locks && e in domain && domain[e] == loaded[e]
  }

  ghost predicate TxSound(cfg: Config, tx: Tx, rows: Table, minted: set<Message>, newest: map<Entity, Message>,
                          domain: map<Entity, Payload>) {
    && TxUpdates(cfg, tx.updated, tx.locks, tx.latest, tx.superseding, rows)
    && TxInserts(tx.inserted, tx.latest, tx.superseding, rows, minted)
    && TxLatest(cfg, tx.latest, tx.superseding, tx.locks, tx.inserted, newest)
    && TxLoaded(cfg, tx.loaded, tx.locks, domain)
  }

  ghost predicate TxsSound(cfg: Config, s: State) {
    && LocksExclusive(s.txs) && InsertsDisjoint(s.txs)
    && forall t :: t in s.txs ==> TxSound(cfg, s.txs[t], s.rows, s.minted, s.newest, s.domain)
  }

  /** The newest accepted message of every entity carries its committed state. */
  ghost predicate DomainMirrored(domain: map<Entity, Payload>, newest: map<Entity, Message>) {
    domain.Keys == newest.Keys && forall e :: e in newest ==> newest[e].payload == domain[e]
  }

  ghost predicate TableSound(cfg: Config, s: State) {
    && RowsSound(s.rows, s.minted, s.issued) && BehindNewest(s.rows, s.newest)
    && NewestKept(cfg, s.newest, s.minted, s.rows, s.log) && OneInFlight(s.rows)
    && DomainMirrored(s.domain, s.newest)
  }

  ghost predicate BrokerSound(cfg: Config, s: State) {
    && LogOrdered(s.log) && LogSound(cfg, s.log, s.minted, s.newest) && LogBehindLive(s.log, s.rows)
    && PublishedLogged(cfg, s.rows, s.log) && AckedLogged(cfg, s.acked, s.log)
  }

  ghost predicate Inv(cfg: Config, s: State) {
    Minted(s.minted, s.sequence) && TableSound(cfg, s) && BrokerSound(cfg, s) && TxsSound(cfg, s)
  }

  lemma InitInv(cfg: Config)
    ensures Inv(cfg, Empty())
  {}

  // ----- Statements that only change the committed table --------------------

  /** What the relay's and the sweep's statements have in common: rows keep their
      message, nothing is brought back to life, only overtaken rows are
      superseded, only logged rows are published, only settled rows disappear,
      and rows another transaction has updated are left alone. */
  ghost predicate RowStep(cfg: Config, s: State, b: Table, issued: set<ClaimId>) {
    && s.issued <= issued
    && (forall id :: id in b ==> id in s.rows && RowMoves(cfg, s, s.rows[id], b[id], issued))
    && (forall id :: id in s.rows && id !in b ==> !Live(s.rows[id]))
    && (forall t, id :: t in s.txs && id in s.txs[t].updated && id in s.rows ==> id in b && b[id] == s.rows[id])
  }

  ghost predicate RowMoves(cfg: Config, s: State, a: Row, b: Row, issued: set<ClaimId>) {
    && b.msg == a.msg
    && (b.status.Failed? <==> a.status.Failed?)
    && (b.claim.Some? <==> b.status.Publishing?)
    && (b.claim.Some? ==> b.claim.value.id in issued)
    && (Live(b) ==> Live(a))
    && (b.status.Superseded? ==>
          a.status.Superseded? || (a.msg.entity in s.newest && a.msg.order < s.newest[a.msg.entity].order))
    && (b.status.Published? ==> a.status.Published? || InLog(cfg, s.log, a.msg))
  }

  lemma RowStepSound(cfg: Config, s: State, b: Table, issued: set<ClaimId>)
    requires RowsSound(s.rows, s.minted, s.issued) && RowStep(cfg, s, b, issued)
    ensures RowsSound(b, s.minted, issued)
  {
    forall id | id in b ensures RowSound(id, b[id], s.minted, issued) {
      assert RowSound(id, s.rows[id], s.minted, s.issued) && RowMoves(cfg, s, s.rows[id], b[id], issued);
    }
  }

  lemma RowStepBehind(cfg: Config, s: State, b: Table, issued: set<ClaimId>)
    requires BehindNewest(s.rows, s.newest) && RowStep(cfg, s, b, issued)
    ensures BehindNewest(b, s.newest)
  {
    forall id | id in b && !b[id].status.Failed?
      ensures && b[id].msg.entity in s.newest && b[id].msg.order <= s.newest[b[id].msg.entity].order
              && (b[id].status.Superseded? ==> b[id].msg.order < s.newest[b[id].msg.entity].order)
    {
      assert RowMoves(cfg, s, s.rows[id], b[id], issued);
    }
  }

  lemma RowStepKept(cfg: Config, s: State, b: Table, issued: set<ClaimId>)
    requires TableSound(cfg, s) && PublishedLogged(cfg, s.rows, s.log) && Minted(s.minted, s.sequence)
    requires RowStep(cfg, s, b, issued)
    ensures NewestKept(cfg, s.newest, s.minted, b, s.log)
  {
    forall e | e in s.newest ensures s.newest[e].id in b || InLog(cfg, s.log, s.newest[e]) {
      var m := s.newest[e];
      if m.id in s.rows && m.id !in b {
        assert RowSound(m.id, s.rows[m.id], s.minted, s.issued);
        assert s.rows[m.id].msg == m;
      }
    }
  }

  lemma RowStepLog(cfg: Config, s: State, b: Table, issued: set<ClaimId>)
    requires LogBehindLive(s.log, s.rows) && PublishedLogged(cfg, s.rows, s.log) && RowStep(cfg, s, b, issued)
    ensures LogBehindLive(s.log, b) && PublishedLogged(cfg, b, s.log)
  {
    forall id | id in b ensures RowMoves(cfg, s, s.rows[id], b[id], issued) {}
  }

  lemma RowStepTxs(cfg: Config, s: State, b: Table, issued: set<ClaimId>)
    requires TxsSound(cfg, s) && RowStep(cfg, s, b, issued)
    ensures forall t :: t in s.txs ==> TxSound(cfg, s.txs[t], b, s.minted, s.newest, s.domain)
  {
    forall t | t in s.txs ensures TxSound(cfg, s.txs[t], b, s.minted, s.newest, s.domain) {
      assert TxSound(cfg, s.txs[t], s.rows, s.minted, s.newest, s.domain);
    }
  }

  lemma RowStepInv(cfg: Config, s: State, b: Table, issued: set<ClaimId>)
    requires Inv(cfg, s) && RowStep(cfg, s, b, issued) && OneInFlight(b)
    ensures Inv(cfg, s.(rows := b, issued := issued))
  {
    RowStepSound(cfg, s, b, issued);
    RowStepBehind(cfg, s, b, issued);
    RowStepKept(cfg, s, b, issued);
    RowStepLog(cfg, s, b, issued);
    RowStepTxs(cfg, s, b, issued);
  }

  /** An overtaken row is strictly behind the newest accepted message. */
  lemma OvertakenBehind(s: State, id: MessageId, over: set<MessageId>)
    requires BehindNewest(s.rows, s.newest) && RowsSound(s.rows, s.minted, s.issued)
    requires Overtaken(s.rows, id, over) && forall c :: c in over && c in s.rows ==> Live(s.rows[c])
    ensures s.rows[id].msg.entity in s.newest && s.rows[id].msg.order < s.newest[s.rows[id].msg.entity].order
  {}

  lemma CollapseMoves(cfg: Config, s: State, over: set<MessageId>, now: Time)
    requires TableSound(cfg, s) && Enabled(cfg, s, Collapse(over, now))
    ensures RowStep(cfg, s, CollapseRows(s.rows, over), s.issued) && OneInFlight(CollapseRows(s.rows, over))
  {
    var b := CollapseRows(s.rows, over);
    forall id | id in b ensures RowMoves(cfg, s, s.rows[id], b[id], s.issued) {
      assert RowSound(id, s.rows[id], s.minted, s.issued);
      if Overtaken(s.rows, id, over) {
        OvertakenBehind(s, id, over);
      }
    }
    forall t, id | t in s.txs && id in s.txs[t].updated && id in s.rows ensures b[id] == s.rows[id] {
      assert RowLocked(s, id);
    }
    OneInFlightShrinks(s.rows, b);
  }

  lemma CollapseInv(cfg: Config, s: State, over: set<MessageId>, now: Time)
    requires Inv(cfg, s) && Enabled(cfg, s, Collapse(over, now))
    ensures Inv(cfg, s.(rows := CollapseRows(s.rows, over)))
  {
    CollapseMoves(cfg, s, over, now);
    RowStepInv(cfg, s, CollapseRows(s.rows, over), s.issued);
  }

  lemma ClaimMoves(cfg: Config, s: State, chosen: set<MessageId>, claim: Claim, now: Time)
    requires TableSound(cfg, s) && Enabled(cfg, s, ClaimBatch(chosen, claim, now))
    ensures RowStep(cfg, s, ClaimRows(s.rows, chosen, claim), s.issued + {claim.id})
  {
    var b := ClaimRows(s.rows, chosen, claim);
    forall id | id in b ensures RowMoves(cfg, s, s.rows[id], b[id], s.issued + {claim.id}) {
      assert RowSound(id, s.rows[id], s.minted, s.issued);
      if id !in chosen && Overtaken(s.rows, id, chosen) {
        OvertakenBehind(s, id, chosen);
      }
    }
    forall t, id | t in s.txs && id in s.txs[t].updated && id in s.rows ensures b[id] == s.rows[id] {
      assert RowLocked(s, id);
    }
  }

  lemma DistinctOrders(s: State)
    requires RowsSound(s.rows, s.minted, s.issued) && Minted(s.minted, s.sequence)
    ensures OrdersDistinct(s.rows)
  {
    forall x, y | x in s.rows && y in s.rows && x != y ensures s.rows[x].msg.order != s.rows[y].msg.order {
      assert RowSound(x, s.rows[x], s.minted, s.issued) && RowSound(y, s.rows[y], s.minted, s.issued);
    }
  }

  lemma ClaimInv(cfg: Config, s: State, chosen: set<MessageId>, claim: Claim, now: Time)
    requires Inv(cfg, s) && Enabled(cfg, s, ClaimBatch(chosen, claim, now))
    ensures Inv(cfg, s.(rows := ClaimRows(s.rows, chosen, claim), issued := s.issued + {claim.id}))
  {
    ClaimMoves(cfg, s, chosen, claim, now);
    DistinctOrders(s);
    ClaimOneInFlight(s.rows, chosen, claim, now);
    RowStepInv(cfg, s, ClaimRows(s.rows, chosen, claim), s.issued + {claim.id});
  }

  /** A row that is in flight is no open transaction's to supersede. */
  lemma InFlightUnlocked(cfg: Config, s: State, id: MessageId)
    requires TxsSound(cfg, s) && id in s.rows && !s.rows[id].status.Pending?
    ensures forall t :: t in s.txs ==> id !in s.txs[t].updated
  {
    forall t | t in s.txs ensures id !in s.txs[t].updated {
      assert TxSound(cfg, s.txs[t], s.rows, s.minted, s.newest, s.domain);
    }
  }

  lemma MarkPublishedMoves(cfg: Config, s: State, m: Message, c: ClaimId)
    requires TableSound(cfg, s)
    requires HeldBy(s.rows, m.id, c) ==>
               InLog(cfg, s.log, s.rows[m.id].msg) && forall t :: t in s.txs ==> m.id !in s.txs[t].updated
    ensures RowStep(cfg, s, MarkPublishedRows(s.rows, m.id, c), s.issued)
    ensures OneInFlight(MarkPublishedRows(s.rows, m.id, c))
  {
    var b := MarkPublishedRows(s.rows, m.id, c);
    forall id | id in b ensures RowMoves(cfg, s, s.rows[id], b[id], s.issued) {
      assert RowSound(id, s.rows[id], s.minted, s.issued);
    }
    OneInFlightShrinks(s.rows, b);
  }

  /** An acknowledgement a worker acts on is for the message its row holds. */
  lemma AckedIsHeld(cfg: Config, s: State, m: Message, c: ClaimId)
    requires Minted(s.minted, s.sequence) && RowsSound(s.rows, s.minted, s.issued) && BrokerSound(cfg, s)
    requires (m, c) in s.acked && m.id in s.rows
    ensures InLog(cfg, s.log, s.rows[m.id].msg)
  {
    assert InLog(cfg, s.log, (m, c).0);
    assert RowSound(m.id, s.rows[m.id], s.minted, s.issued);
  }

  lemma MarkPublishedInv(cfg: Config, s: State, m: Message, c: ClaimId)
    requires Inv(cfg, s) && (m, c) in s.acked
    ensures Inv(cfg, s.(rows := MarkPublishedRows(s.rows, m.id, c)))
  {
    if HeldBy(s.rows, m.id, c) {
      InFlightUnlocked(cfg, s, m.id);
      AckedIsHeld(cfg, s, m, c);
    }
    MarkPublishedMoves(cfg, s, m, c);
    RowStepInv(cfg, s, MarkPublishedRows(s.rows, m.id, c), s.issued);
  }

  lemma MarkFailedMoves(cfg: Config, s: State, id: MessageId, c: ClaimId, retryAt: Time)
    requires TableSound(cfg, s)
    requires HeldBy(s.rows, id, c) ==> forall t :: t in s.txs ==> id !in s.txs[t].updated
    ensures RowStep(cfg, s, MarkFailedRows(s.rows, id, c, retryAt), s.issued)
    ensures OneInFlight(MarkFailedRows(s.rows, id, c, retryAt))
  {
    var b := MarkFailedRows(s.rows, id, c, retryAt);
    forall i | i in b ensures RowMoves(cfg, s, s.rows[i], b[i], s.issued) {
      assert RowSound(i, s.rows[i], s.minted, s.issued);
    }
    FailedOneInFlight(s.rows, id, c, retryAt);
  }

  /** The row that returns to Pending was the one in flight. */
  lemma FailedOneInFlight(rows: Table, id: MessageId, c: ClaimId, retryAt: Time)
    requires OneInFlight(rows)
    ensures OneInFlight(MarkFailedRows(rows, id, c, retryAt))
  {}

  lemma MarkFailedInv(cfg: Config, s: State, id: MessageId, c: ClaimId, retryAt: Time)
    requires Inv(cfg, s)
    ensures Inv(cfg, s.(rows := MarkFailedRows(s.rows, id, c, retryAt)))
  {
    if HeldBy(s.rows, id, c) {
      InFlightUnlocked(cfg, s, id);
    }
    MarkFailedMoves(cfg, s, id, c, retryAt);
    RowStepInv(cfg, s, MarkFailedRows(s.rows, id, c, retryAt), s.issued);
  }

  /** A sweep leaves what an open transaction has superseded: it is still
      Pending. */
  lemma PurgeSparesUpdated(cfg: Config, s: State, victims: set<MessageId>, before: Time, includeFailed: bool, t: TxId,
                           id: MessageId)
    requires Enabled(cfg, s, Purge(victims, before, includeFailed)) && t in s.txs && id in s.txs[t].updated && id in s.rows
    requires TxSound(cfg, s.txs[t], s.rows, s.minted, s.newest, s.domain)
    ensures id !in victims
  {
    assert s.rows[id].status.Pending?;
  }

  lemma PurgeMoves(cfg: Config, s: State, victims: set<MessageId>, before: Time, includeFailed: bool)
    requires TableSound(cfg, s) && TxsSound(cfg, s) && Enabled(cfg, s, Purge(victims, before, includeFailed))
    ensures RowStep(cfg, s, PurgeRows(s.rows, victims), s.issued) && OneInFlight(PurgeRows(s.rows, victims))
  {
    var b := PurgeRows(s.rows, victims);
    forall id | id in b ensures RowMoves(cfg, s, s.rows[id], b[id], s.issued) {
      assert RowSound(id, s.rows[id], s.minted, s.issued);
    }
    forall t, id | t in s.txs && id in s.txs[t].updated && id in s.rows ensures id in b {
      PurgeSparesUpdated(cfg, s, victims, before, includeFailed, t, id);
    }
    OneInFlightShrinks(s.rows, b);
  }

  lemma PurgeInv(cfg: Config, s: State, victims: set<MessageId>, before: Time, includeFailed: bool)
    requires Inv(cfg, s) && Enabled(cfg, s, Purge(victims, before, includeFailed))
    ensures Inv(cfg, s.(rows := PurgeRows(s.rows, victims)))
  {
    PurgeMoves(cfg, s, victims, before, includeFailed);
    RowStepInv(cfg, s, PurgeRows(s.rows, victims), s.issued);
  }

  // ----- The broker ----------------------------------------------------------

  function Appended(cfg: Config, log: Log, m: Message): Log {
    log[cfg.partition(m.entity) := LogOf(log, cfg.partition(m.entity)) + [m]]
  }

  lemma AppendKeepsLogged(cfg: Config, log: Log, m: Message, n: Message)
    ensures InLog(cfg, log, n) ==> InLog(cfg, Appended(cfg, log, m), n)
    ensures InLog(cfg, Appended(cfg, log, m), m)
  {}

  /** The published row is live, so nothing of its entity in the log is newer. */
  lemma AppendOrdered(cfg: Config, s: State, id: MessageId)
    requires LogOrdered(s.log) && LogBehindLive(s.log, s.rows) && id in s.rows && Live(s.rows[id])
    ensures LogOrdered(Appended(cfg, s.log, s.rows[id].msg))
  {}

  lemma AppendBehindLive(cfg: Config, s: State, id: MessageId)
    requires LogBehindLive(s.log, s.rows) && OneInFlight(s.rows) && id in s.rows && s.rows[id].status.Publishing?
    ensures LogBehindLive(Appended(cfg, s.log, s.rows[id].msg), s.rows)
  {}

  lemma AppendSound(cfg: Config, s: State, id: MessageId)
    requires LogSound(cfg, s.log, s.minted, s.newest) && BehindNewest(s.rows, s.newest)
    requires id in s.rows && RowSound(id, s.rows[id], s.minted, s.issued) && s.rows[id].status.Publishing?
    ensures LogSound(cfg, Appended(cfg, s.log, s.rows[id].msg), s.minted, s.newest)
  {}

  lemma PublishInv(cfg: Config, s: State, id: MessageId, c: ClaimId, acked: set<(Message, ClaimId)>)
    requires Inv(cfg, s) && HeldBy(s.rows, id, c)
    requires forall a :: a in acked ==> a in s.acked || a.0 == s.rows[id].msg
    ensures Inv(cfg, s.(log := Appended(cfg, s.log, s.rows[id].msg), acked := acked))
  {
    var m := s.rows[id].msg;
    var log := Appended(cfg, s.log, m);
    forall n ensures InLog(cfg, s.log, n) ==> InLog(cfg, log, n) { AppendKeepsLogged(cfg, s.log, m, n); }
    AppendKeepsLogged(cfg, s.log, m, m);
    assert RowSound(id, s.rows[id], s.minted, s.issued);
    AppendOrdered(cfg, s, id);
    AppendBehindLive(cfg, s, id);
    AppendSound(cfg, s, id);
    assert NewestKept(cfg, s.newest, s.minted, s.rows, log);
    assert PublishedLogged(cfg, s.rows, log);
    assert AckedLogged(cfg, acked, log);
  }

  // ----- Open transactions ---------------------------------------------------

  lemma SetTxsSound(cfg: Config, s: State, t: TxId, tx: Tx)
    requires TxsSound(cfg, s) && TxSound(cfg, tx, s.rows, s.minted, s.newest, s.domain)
    requires forall u :: u in s.txs && u != t ==>
               tx.locks !! s.txs[u].locks && tx.inserted.Keys !! s.txs[u].inserted.Keys
    ensures TxsSound(cfg, SetTx(s, t, tx))
  {
    var txs := s.txs[t := tx];
    assert LocksExclusive(txs);
    assert InsertsDisjoint(txs);
    forall u | u in txs ensures TxSound(cfg, txs[u], s.rows, s.minted, s.newest, s.domain) {}
  }

  lemma SetTxInv(cfg: Config, s: State, t: TxId, tx: Tx)
    requires Inv(cfg, s) && TxsSound(cfg, SetTx(s, t, tx))
    ensures Inv(cfg, SetTx(s, t, tx))
  {}

  lemma AbortInv(cfg: Config, s: State, t: TxId)
    requires Inv(cfg, s)
    ensures Inv(cfg, s.(txs := s.txs - {t}))
  {
    assert LocksExclusive(s.txs - {t});
    assert InsertsDisjoint(s.txs - {t});
  }

  lemma SupersedePendingSound(cfg: Config, s: State, tx: Tx, e: Entity, ids: set<MessageId>)
    requires TxSound(cfg, tx, s.rows, s.minted, s.newest, s.domain) && cfg.lockKey(e) in tx.locks
    requires tx.superseding.None?
    requires forall id :: id in ids ==> id in s.rows && s.rows[id].msg.entity == e && s.rows[id].status.Pending?
    ensures TxSound(cfg, tx.(superseding := Some(e), updated := tx.updated + ids, inserted := OwnSuperseded(tx, e)),
                    s.rows, s.minted, s.newest, s.domain)
  {
    var tx' := tx.(superseding := Some(e), updated := tx.updated + ids, inserted := OwnSuperseded(tx, e));
    forall id | id in tx'.inserted
      ensures id !in s.rows && InsertedSound(id, tx'.inserted[id], tx'.latest, tx'.superseding, s.minted)
    {
      assert InsertedSound(id, tx.inserted[id], tx.latest, tx.superseding, s.minted);
    }
  }

  /** Locking, writing and loading keep the transaction sound; a load under the
      entity lock reads the committed state. */
  lemma LockWriteLoadSound(cfg: Config, s: State, tx: Tx, e: Entity, p: Payload)
    requires TxSound(cfg, tx, s.rows, s.minted, s.newest, s.domain)
    ensures TxSound(cfg, tx.(locks := tx.locks + {cfg.lockKey(e)}), s.rows, s.minted, s.newest, s.domain)
    ensures TxSound(cfg, tx.(writes := tx.writes[e := p]), s.rows, s.minted, s.newest, s.domain)
    ensures cfg.lockKey(e) in tx.locks && e in s.domain ==>
              TxSound(cfg, tx.(loaded := tx.loaded[e := s.domain[e]]), s.rows, s.minted, s.newest, s.domain)
  {}

  lemma LockTxs(cfg: Config, s: State, t: TxId, e: Entity)
    requires TxsSound(cfg, s) && Enabled(cfg, s, Lock(t, e))
    ensures TxsSound(cfg, SetTx(s, t, s.txs[t].(locks := s.txs[t].locks + {cfg.lockKey(e)})))
  {
    LockWriteLoadSound(cfg, s, s.txs[t], e, "");
    SetTxsSound(cfg, s, t, s.txs[t].(locks := s.txs[t].locks + {cfg.lockKey(e)}));
  }

  lemma WriteTxs(cfg: Config, s: State, t: TxId, e: Entity, p: Payload)
    requires TxsSound(cfg, s) && t in s.txs
    ensures TxsSound(cfg, SetTx(s, t, s.txs[t].(writes := s.txs[t].writes[e := p])))
  {
    LockWriteLoadSound(cfg, s, s.txs[t], e, p);
    SetTxsSound(cfg, s, t, s.txs[t].(writes := s.txs[t].writes[e := p]));
  }

  lemma LoadTxs(cfg: Config, s: State, t: TxId, e: Entity)
    requires TxsSound(cfg, s) && Enabled(cfg, s, Load(t, e))
    ensures TxsSound(cfg, SetTx(s, t, s.txs[t].(loaded := s.txs[t].loaded[e := s.domain[e]])))
  {
    LockWriteLoadSound(cfg, s, s.txs[t], e, "");
    SetTxsSound(cfg, s, t, s.txs[t].(loaded := s.txs[t].loaded[e := s.domain[e]]));
  }

  lemma SupersedePendingTxs(cfg: Config, s: State, t: TxId, e: Entity, ids: set<MessageId>)
    requires TxsSound(cfg, s) && Enabled(cfg, s, SupersedePending(t, e, ids))
    ensures TxsSound(cfg, Apply(cfg, s, SupersedePending(t, e, ids)))
  {
    var tx := s.txs[t];
    SupersedePendingSound(cfg, s, tx, e, ids);
    SetTxsSound(cfg, s, t, tx.(superseding := Some(e), updated := tx.updated + ids, inserted := OwnSuperseded(tx, e)));
  }

  lemma TxStepInv(cfg: Config, s: State, step: Step)
    requires Inv(cfg, s) && Enabled(cfg, s, step)
    requires step.Lock? || step.Write? || step.Load? || step.SupersedePending?
    ensures Inv(cfg, Apply(cfg, s, step))
  {
    match step
    case Lock(t, e) => LockTxs(cfg, s, t, e);
    case Write(t, e, p) => WriteTxs(cfg, s, t, e, p);
    case Load(t, e) => LoadTxs(cfg, s, t, e);
    case SupersedePending(t, e, ids) => SupersedePendingTxs(cfg, s, t, e, ids);
    SetTxInv(cfg, s, step.t, Apply(cfg, s, step).txs[step.t]);
  }

  lemma BeginInv(cfg: Config, s: State, t: TxId)
    requires Inv(cfg, s)
    ensures Inv(cfg, SetTx(s, t, Tx({}, None, {}, map[], map[], map[], map[])))
  {
    var tx := Tx({}, None, {}, map[], map[], map[], map[]);
    SetTxsSound(cfg, s, t, tx);
    SetTxInv(cfg, s, t, tx);
  }

  // ----- Drawing an enqueue order ---------------------------------------------

  lemma MintTxSound(cfg: Config, s: State, tx: Tx, m: Message)
    requires Minted(s.minted, s.sequence) && TxSound(cfg, tx, s.rows, s.minted, s.newest, s.domain)
    requires Fresh(s, m.id) && m.order == s.sequence
    ensures TxSound(cfg, tx, s.rows, s.minted + {m}, s.newest, s.domain) && m.id !in tx.inserted
    ensures forall e :: e in tx.latest ==> tx.latest[e].order < m.order
  {
    forall id | id in tx.inserted
      ensures InsertedSound(id, tx.inserted[id], tx.latest, tx.superseding, s.minted + {m})
      ensures id != m.id && tx.inserted[id].msg.order < m.order
    {
      assert InsertedSound(id, tx.inserted[id], tx.latest, tx.superseding, s.minted);
    }
  }

  lemma MintTable(cfg: Config, s: State, m: Message)
    requires Minted(s.minted, s.sequence) && TableSound(cfg, s)
    requires Fresh(s, m.id) && m.order == s.sequence
    ensures RowsSound(s.rows, s.minted + {m}, s.issued) && NewestKept(cfg, s.newest, s.minted + {m}, s.rows, s.log)
    ensures m.id !in s.rows && forall e :: e in s.newest ==> s.newest[e].order < m.order
  {
    forall id | id in s.rows ensures RowSound(id, s.rows[id], s.minted + {m}, s.issued) && id != m.id {
      assert RowSound(id, s.rows[id], s.minted, s.issued);
    }
  }

  lemma MintInv(cfg: Config, s: State, m: Message)
    requires Inv(cfg, s) && Fresh(s, m.id) && (m.key.Some? ==> FreshKey(s, m.key.value)) && m.order == s.sequence
    ensures Inv(cfg, s.(minted := s.minted + {m}, sequence := s.sequence + 1))
    ensures forall t :: t in s.txs ==> m.id !in s.txs[t].inserted
    ensures m.id !in s.rows
    ensures forall e :: e in s.newest ==> s.newest[e].order < m.order
    ensures forall t, e :: t in s.txs && e in s.txs[t].latest ==> s.txs[t].latest[e].order < m.order
  {
    MintTable(cfg, s, m);
    forall t | t in s.txs
      ensures TxSound(cfg, s.txs[t], s.rows, s.minted + {m}, s.newest, s.domain) && m.id !in s.txs[t].inserted
      ensures forall e :: e in s.txs[t].latest ==> s.txs[t].latest[e].order < m.order
    {
      MintTxSound(cfg, s, s.txs[t], m);
    }
    assert LogSound(cfg, s.log, s.minted + {m}, s.newest);
  }

  /** A drawn row: the audit row of a refused enqueue, or the accepted row of the
      entity being superseded. */
  ghost predicate Draws(tx: Tx, row: Row, latest: map<Entity, Message>) {
    || (row.status.Failed? && row.msg.key.None? && tx.superseding.None? && latest == tx.latest)
    || (row.status.Pending? && row.msg.key.Some? && tx.superseding == Some(row.msg.entity)
        && latest == tx.latest[row.msg.entity := row.msg])
  }

  lemma DrawnInserts(tx: Tx, row: Row, latest: map<Entity, Message>, rows: Table, minted: set<Message>)
    requires TxInserts(tx.inserted, tx.latest, tx.superseding, rows, minted) && Draws(tx, row, latest)
    requires row.msg in minted && row.msg.id !in rows && row.claim.None?
    requires forall e :: e in tx.latest ==> tx.latest[e].order < row.msg.order
    ensures TxInserts(tx.inserted[row.msg.id := row], latest, None, rows, minted)
  {
    var inserted := tx.inserted[row.msg.id := row];
    forall id | id in inserted ensures id !in rows && InsertedSound(id, inserted[id], latest, None, minted) {
      assert id != row.msg.id ==> InsertedSound(id, tx.inserted[id], tx.latest, tx.superseding, minted);
    }
  }

  lemma DrawnLatest(cfg: Config, tx: Tx, row: Row, latest: map<Entity, Message>, newest: map<Entity, Message>)
    requires TxLatest(cfg, tx.latest, tx.superseding, tx.locks, tx.inserted, newest) && Draws(tx, row, latest)
    requires row.msg.id !in tx.inserted && forall e :: e in newest ==> newest[e].order < row.msg.order
    ensures TxLatest(cfg, latest, None, tx.locks, tx.inserted[row.msg.id := row], newest)
  {}

  lemma DrawnSound(cfg: Config, s: State, tx: Tx, row: Row, latest: map<Entity, Message>)
    requires TxSound(cfg, tx, s.rows, s.minted, s.newest, s.domain)
    requires row.msg in s.minted && row.msg.id !in s.rows && row.msg.id !in tx.inserted && row.claim.None?
    requires Draws(tx, row, latest)
    requires forall e :: e in s.newest ==> s.newest[e].order < row.msg.order
    requires forall e :: e in tx.latest ==> tx.latest[e].order < row.msg.order
    ensures TxSound(cfg, tx.(inserted := tx.inserted[row.msg.id := row], latest := latest, superseding := None),
                    s.rows, s.minted, s.newest, s.domain)
  {
    DrawnInserts(tx, row, latest, s.rows, s.minted);
    DrawnLatest(cfg, tx, row, latest, s.newest);
  }

  lemma DrawnInv(cfg: Config, s: State, t: TxId, row: Row, latest: map<Entity, Message>)
    requires Inv(cfg, s) && t in s.txs
    requires Fresh(s, row.msg.id) && (row.msg.key.Some? ==> FreshKey(s, row.msg.key.value))
    requires row.msg.order == s.sequence && row.claim.None?
    requires (row.status.Failed? && row.msg.key.None? && s.txs[t].superseding.None? && latest == s.txs[t].latest)
             || (row.status.Pending? && row.msg.key.Some? && s.txs[t].superseding == Some(row.msg.entity)
                 && latest == s.txs[t].latest[row.msg.entity := row.msg])
    ensures Inv(cfg, Drawn(s, t, row, latest))
  {
    MintInv(cfg, s, row.msg);
    var s1 := s.(minted := s.minted + {row.msg}, sequence := s.sequence + 1);
    var tx := s.txs[t];
    var tx' := tx.(inserted := tx.inserted[row.msg.id := row], latest := latest, superseding := None);
    assert TxsSound(cfg, SetTx(s1, t, tx')) by {
      DrawnSound(cfg, s1, tx, row, latest);
      SetTxsSound(cfg, s1, t, tx');
    }
    SetTxInv(cfg, s1, t, tx');
  }

  // ----- Commit ---------------------------------------------------------------

  function CommittedRows(s: State, tx: Tx): Table {
    SupersedeRows(s.rows, tx.updated) + tx.inserted
  }

  lemma CommitRowsSound(cfg: Config, s: State, tx: Tx)
    requires RowsSound(s.rows, s.minted, s.issued) && TxSound(cfg, tx, s.rows, s.minted, s.newest, s.domain)
    ensures RowsSound(CommittedRows(s, tx), s.minted, s.issued)
  {
    var b := CommittedRows(s, tx);
    forall id | id in b ensures RowSound(id, b[id], s.minted, s.issued) {
      if id in tx.inserted {
        assert InsertedSound(id, tx.inserted[id], tx.latest, tx.superseding, s.minted);
      } else {
        assert RowSound(id, s.rows[id], s.minted, s.issued);
      }
    }
  }

  lemma CommitBehindNewest(cfg: Config, s: State, tx: Tx)
    requires BehindNewest(s.rows, s.newest) && TxSound(cfg, tx, s.rows, s.minted, s.newest, s.domain)
    requires tx.superseding.None?
    ensures BehindNewest(CommittedRows(s, tx), s.newest + tx.latest)
  {
    var b := CommittedRows(s, tx);
    var newest := s.newest + tx.latest;
    forall id | id in b && !b[id].status.Failed?
      ensures && b[id].msg.entity in newest && b[id].msg.order <= newest[b[id].msg.entity].order
              && (b[id].status.Superseded? ==> b[id].msg.order < newest[b[id].msg.entity].order)
    {
      if id in tx.inserted {
        assert InsertedSound(id, tx.inserted[id], tx.latest, tx.superseding, s.minted);
      }
    }
  }

  lemma CommitNewestKept(cfg: Config, s: State, tx: Tx)
    requires NewestKept(cfg, s.newest, s.minted, s.rows, s.log)
    requires TxSound(cfg, tx, s.rows, s.minted, s.newest, s.domain)
    ensures NewestKept(cfg, s.newest + tx.latest, s.minted, CommittedRows(s, tx), s.log)
  {
    forall e | e in tx.latest ensures tx.latest[e] in s.minted {
      assert InsertedSound(tx.latest[e].id, tx.inserted[tx.latest[e].id], tx.latest, tx.superseding, s.minted);
    }
  }

  /** A newly visible pending row is newer than anything in flight. */
  lemma CommitOneInFlight(cfg: Config, s: State, tx: Tx)
    requires OneInFlight(s.rows) && BehindNewest(s.rows, s.newest)
    requires TxSound(cfg, tx, s.rows, s.minted, s.newest, s.domain)
    ensures OneInFlight(CommittedRows(s, tx))
  {
    var b := CommittedRows(s, tx);
    forall id | id in tx.inserted ensures !tx.inserted[id].status.Publishing? {
      assert InsertedSound(id, tx.inserted[id], tx.latest, tx.superseding, s.minted);
    }
    forall x, y | x in b && y in b && x != y && b[x].msg.entity == b[y].msg.entity && b[x].status.Publishing?
      ensures !b[y].status.Publishing? && (b[y].status.Pending? ==> b[x].msg.order < b[y].msg.order)
    {
      if y in tx.inserted {
        assert InsertedSound(y, tx.inserted[y], tx.latest, tx.superseding, s.minted);
        assert b[x].msg.entity in s.newest;
      } else {
        assert b[y] == s.rows[y] || b[y] == SupersededRow(s.rows[y]);
      }
    }
  }

  lemma CommitLog(cfg: Config, s: State, tx: Tx)
    requires LogSound(cfg, s.log, s.minted, s.newest)
    requires TxLatest(cfg, tx.latest, tx.superseding, tx.locks, tx.inserted, s.newest)
    ensures LogSound(cfg, s.log, s.minted, s.newest + tx.latest)
  {}

  lemma CommitLogBehindLive(cfg: Config, s: State, tx: Tx)
    requires LogSound(cfg, s.log, s.minted, s.newest) && LogBehindLive(s.log, s.rows)
    requires TxSound(cfg, tx, s.rows, s.minted, s.newest, s.domain)
    ensures LogBehindLive(s.log, CommittedRows(s, tx))
  {
    var b := CommittedRows(s, tx);
    forall p, i, id | p in s.log && 0 <= i < |s.log[p]| && id in b && Live(b[id])
                      && b[id].msg.entity == s.log[p][i].entity
      ensures s.log[p][i].order <= b[id].msg.order
    {
      if id in tx.inserted {
        assert InsertedSound(id, tx.inserted[id], tx.latest, tx.superseding, s.minted);
      }
    }
  }

  lemma CommitPublished(cfg: Config, s: State, tx: Tx)
    requires PublishedLogged(cfg, s.rows, s.log) && TxInserts(tx.inserted, tx.latest, tx.superseding, s.rows, s.minted)
    ensures PublishedLogged(cfg, CommittedRows(s, tx), s.log)
  {
    forall id | id in tx.inserted ensures InsertedSound(id, tx.inserted[id], tx.latest, tx.superseding, s.minted) {}
  }

  /** A commit publishes the state it vouches for: its own writes, or the
      committed state a repair read under the lock. */
  lemma CommitDomain(cfg: Config, s: State, tx: Tx)
    requires DomainMirrored(s.domain, s.newest) && TxLoaded(cfg, tx.loaded, tx.locks, s.domain)
    requires tx.writes.Keys <= tx.latest.Keys && forall e :: e in tx.latest ==> Vouched(tx, e)
    ensures DomainMirrored(s.domain + tx.writes, s.newest + tx.latest)
  {
    assert forall e :: e in tx.latest ==> Vouched(tx, e);
  }

  /** The committing transaction touches no row and no entity another open
      transaction has locked. */
  lemma CommitOtherUpdates(cfg: Config, s: State, tx: Tx, other: Tx)
    requires tx.locks !! other.locks && tx.inserted.Keys !! other.inserted.Keys
    requires TxUpdates(cfg, tx.updated, tx.locks, tx.latest, tx.superseding, s.rows)
    requires TxUpdates(cfg, other.updated, other.locks, other.latest, other.superseding, s.rows)
    requires TxInserts(tx.inserted, tx.latest, tx.superseding, s.rows, s.minted)
    requires TxInserts(other.inserted, other.latest, other.superseding, s.rows, s.minted)
    ensures TxUpdates(cfg, other.updated, other.locks, other.latest, other.superseding, CommittedRows(s, tx))
    ensures TxInserts(other.inserted, other.latest, other.superseding, CommittedRows(s, tx), s.minted)
  {
    var b := CommittedRows(s, tx);
    forall id | id in other.updated ensures id in b && b[id] == s.rows[id] {
      assert cfg.lockKey(s.rows[id].msg.entity) in other.locks;
      assert id !in tx.updated;
      assert id !in tx.inserted;
    }
    forall id | id in other.inserted ensures id !in b {}
  }

  lemma CommitOtherEntities(cfg: Config, tx: Tx, other: Tx, newest: map<Entity, Message>, domain: map<Entity, Payload>)
    requires tx.locks !! other.locks && tx.writes.Keys <= tx.latest.Keys
    requires TxLatest(cfg, tx.latest, tx.superseding, tx.locks, tx.inserted, newest)
    requires TxLatest(cfg, other.latest, other.superseding, other.locks, other.inserted, newest)
    requires TxLoaded(cfg, other.loaded, other.locks, domain)
    ensures TxLatest(cfg, other.latest, other.superseding, other.locks, other.inserted, newest + tx.latest)
    ensures TxLoaded(cfg, other.loaded, other.locks, domain + tx.writes)
  {
    forall e | e in tx.latest ensures e !in other.latest && e !in other.loaded {
      assert cfg.lockKey(e) in tx.locks;
    }
  }

  lemma CommitOthers(cfg: Config, s: State, t: TxId, u: TxId)
    requires TxsSound(cfg, s) && t in s.txs && u in s.txs && t != u
    requires s.txs[t].writes.Keys <= s.txs[t].latest.Keys
    ensures TxSound(cfg, s.txs[u], CommittedRows(s, s.txs[t]), s.minted, s.newest + s.txs[t].latest,
                    s.domain + s.txs[t].writes)
  {
    assert TxSound(cfg, s.txs[t], s.rows, s.minted, s.newest, s.domain);
    assert TxSound(cfg, s.txs[u], s.rows, s.minted, s.newest, s.domain);
    CommitOtherUpdates(cfg, s, s.txs[t], s.txs[u]);
    CommitOtherEntities(cfg, s.txs[t], s.txs[u], s.newest, s.domain);
  }

  lemma CommitInv(cfg: Config, s: State, t: TxId)
    requires Inv(cfg, s) && Enabled(cfg, s, Commit(t))
    ensures Inv(cfg, Apply(cfg, s, Commit(t)))
  {
    var tx := s.txs[t];
    CommitRowsSound(cfg, s, tx);
    CommitBehindNewest(cfg, s, tx);
    CommitNewestKept(cfg, s, tx);
    CommitOneInFlight(cfg, s, tx);
    CommitLog(cfg, s, tx);
    CommitLogBehindLive(cfg, s, tx);
    CommitPublished(cfg, s, tx);
    CommitDomain(cfg, s, tx);
    forall u | u in s.txs && u != t
      ensures TxSound(cfg, s.txs[u], CommittedRows(s, tx), s.minted, s.newest + tx.latest, s.domain + tx.writes)
    {
      CommitOthers(cfg, s, t, u);
    }
    AbortInv(cfg, s, t);
  }

  lemma DrawInv(cfg: Config, s: State, step: Step)
    requires Inv(cfg, s) && Enabled(cfg, s, step) && (step.Insert? || step.Reject?)
    ensures Inv(cfg, Apply(cfg, s, step))
  {
    match step
    case Insert(t, id, key, p, now) =>
      var msg := Message(id, Some(key), s.txs[t].superseding.value, s.sequence, p);
      DrawnInv(cfg, s, t, Row(msg, Pending, 0, now, None, now), s.txs[t].latest[msg.entity := msg]);
    case Reject(t, id, e, p, now) =>
      var msg := Message(id, None, e, s.sequence, p);
      DrawnInv(cfg, s, t, Row(msg, Failed, 0, now, None, now), s.txs[t].latest);
  }

  lemma ClaimStepInv(cfg: Config, s: State, step: Step)
    requires Inv(cfg, s) && Enabled(cfg, s, step) && (step.Collapse? || step.ClaimBatch? || step.Purge?)
    ensures Inv(cfg, Apply(cfg, s, step))
  {
    match step
    case Collapse(over, now) => CollapseInv(cfg, s, over, now);
    case ClaimBatch(chosen, claim, now) => ClaimInv(cfg, s, chosen, claim, now);
    case Purge(victims, before, includeFailed) => PurgeInv(cfg, s, victims, before, includeFailed);
  }

  lemma PublishStepInv(cfg: Config, s: State, step: Step)
    requires Inv(cfg, s) && Enabled(cfg, s, step) && step.Publish?
    ensures Inv(cfg, Apply(cfg, s, step))
  {
    var m := s.rows[step.id].msg;
    PublishInv(cfg, s, step.id, step.c, if step.acknowledged then s.acked + {(m, step.c)} else s.acked);
  }

  lemma MarkStepInv(cfg: Config, s: State, step: Step)
    requires Inv(cfg, s) && Enabled(cfg, s, step) && (step.MarkPublished? || step.MarkFailed?)
    ensures Inv(cfg, Apply(cfg, s, step))
  {
    match step
    case MarkPublished(m, c) => MarkPublishedInv(cfg, s, m, c);
    case MarkFailed(id, c, retryAt) => MarkFailedInv(cfg, s, id, c, retryAt);
  }

  lemma LifetimeInv(cfg: Config, s: State, step: Step)
    requires Inv(cfg, s) && Enabled(cfg, s, step) && (step.Begin? || step.Commit? || step.Abort?)
    ensures Inv(cfg, Apply(cfg, s, step))
  {
    match step
    case Begin(t) => BeginInv(cfg, s, t);
    case Commit(t) => CommitInv(cfg, s, t);
    case Abort(t) => AbortInv(cfg, s, t);
  }

  /** Every step of the send protocol keeps the invariant. */
  lemma StepInv(cfg: Config, s: State, step: Step)
    requires Inv(cfg, s) && Enabled(cfg, s, step)
    ensures Inv(cfg, Apply(cfg, s, step))
  {
    if step.Begin? || step.Commit? || step.Abort? {
      LifetimeInv(cfg, s, step);
    } else if step.Lock? || step.Write? || step.Load? || step.SupersedePending? {
      TxStepInv(cfg, s, step);
    } else if step.Insert? || step.Reject? {
      DrawInv(cfg, s, step);
    } else if step.Publish? {
      PublishStepInv(cfg, s, step);
    } else if step.MarkPublished? || step.MarkFailed? {
      MarkStepInv(cfg, s, step);
    } else {
      ClaimStepInv(cfg, s, step);
    }
  }
}
