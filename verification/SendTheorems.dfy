/**
 What the send protocol guarantees over whole runs, from an empty database and an
 empty broker, for every interleaving of its steps.
 */
module SendTheorems {
  import Wrappers
  import opened OutboxRows
  import opened SendProtocol
  import opened SendInvariant

  ghost predicate Runs(cfg: Config, s: State, steps: seq<Step>)
    decreases |steps|
  {
    |steps| == 0 || (Enabled(cfg, s, steps[0]) && Runs(cfg, Apply(cfg, s, steps[0]), steps[1..]))
  }

  ghost function Exec(cfg: Config, s: State, steps: seq<Step>): State
    requires Runs(cfg, s, steps)
    decreases |steps|
  {
    if |steps| == 0 then s else Exec(cfg, Apply(cfg, s, steps[0]), steps[1..])
  }

  ghost predicate Reachable(cfg: Config, s: State) {
    exists steps :: Runs(cfg, Empty(), steps) && Exec(cfg, Empty(), steps) == s
  }

  lemma {:induction false} RunInv(cfg: Config, s: State, steps: seq<Step>)
    requires Inv(cfg, s) && Runs(cfg, s, steps)
    ensures Inv(cfg, Exec(cfg, s, steps))
    decreases |steps|
  {
    if |steps| > 0 {
      StepInv(cfg, s, steps[0]);
      RunInv(cfg, Apply(cfg, s, steps[0]), steps[1..]);
    }
  }

  lemma ReachableInv(cfg: Config, s: State)
    requires Reachable(cfg, s)
    ensures Inv(cfg, s)
  {
    var steps :| Runs(cfg, Empty(), steps) && Exec(cfg, Empty(), steps) == s;
    InitInv(cfg);
    RunInv(cfg, Empty(), steps);
  }

  // ----- Per-entity log order --------------------------------------------------

  /** One entity's broker records never decrease in enqueue order: failed
      publishes, lost acknowledgements, expired leases and reclaims included. */
  lemma LogNeverDecreases(cfg: Config, s: State, p: int, i: nat, j: nat)
    requires Reachable(cfg, s)
    requires i < j < |LogOf(s.log, p)| && LogOf(s.log, p)[i].entity == LogOf(s.log, p)[j].entity
    ensures LogOf(s.log, p)[i].order <= LogOf(s.log, p)[j].order
  {
    ReachableInv(cfg, s);
  }

  lemma InsertedIsNewer(cfg: Config, s: State, tx: Tx, id: MessageId)
    requires BehindNewest(s.rows, s.newest) && TxSound(cfg, tx, s.rows, s.minted, s.newest, s.domain)
    requires id in tx.inserted && Live(tx.inserted[id])
    ensures var m := tx.inserted[id].msg;
            && (m.entity in s.newest ==> s.newest[m.entity].order < m.order)
            && forall before :: before in s.rows && !s.rows[before].status.Failed? && s.rows[before].msg.entity == m.entity
                 ==> s.rows[before].msg.order < m.order
  {
    assert InsertedSound(id, tx.inserted[id], tx.latest, tx.superseding, s.minted);
  }

  /** One entity's rows become visible in enqueue order: what a commit makes
      claimable is newer than every accepted row that was ever visible. */
  lemma VisibleInOrder(cfg: Config, s: State, t: TxId, id: MessageId)
    requires Reachable(cfg, s) && Enabled(cfg, s, Commit(t))
    requires id in Apply(cfg, s, Commit(t)).rows && id !in s.rows && Live(Apply(cfg, s, Commit(t)).rows[id])
    ensures var m := Apply(cfg, s, Commit(t)).rows[id].msg;
            && (m.entity in s.newest ==> s.newest[m.entity].order < m.order)
            && forall before :: before in s.rows && !s.rows[before].status.Failed? && s.rows[before].msg.entity == m.entity
                 ==> s.rows[before].msg.order < m.order
  {
    ReachableInv(cfg, s);
    InsertedIsNewer(cfg, s, s.txs[t], id);
  }

  // ----- No newest state is lost ------------------------------------------------

  lemma NewestLiveOrLogged(cfg: Config, s: State, e: Entity)
    requires Inv(cfg, s) && e in s.newest
    ensures (s.newest[e].id in s.rows && Live(s.rows[s.newest[e].id])) || InLog(cfg, s.log, s.newest[e])
    ensures s.newest[e].id in s.rows ==> s.rows[s.newest[e].id].msg == s.newest[e]
  {
    var m := s.newest[e];
    if m.id in s.rows {
      assert RowSound(m.id, s.rows[m.id], s.minted, s.issued);
    }
  }

  /** At most one row of an entity is in flight, a Superseded row was overtaken by
      a strictly newer accepted message, and the newest accepted message is never
      Superseded: it is live in the table, or already in the log. */
  lemma NewestNeverLost(cfg: Config, s: State)
    requires Reachable(cfg, s)
    ensures forall a, b ::
              && a in s.rows && b in s.rows && s.rows[a].msg.entity == s.rows[b].msg.entity
              && s.rows[a].status.Publishing? && s.rows[b].status.Publishing?
              ==> a == b
    ensures forall id :: id in s.rows && s.rows[id].status.Superseded? ==>
              && s.rows[id].msg.entity in s.newest
              && s.rows[id].msg.order < s.newest[s.rows[id].msg.entity].order
    ensures forall e :: e in s.newest ==>
              || (s.newest[e].id in s.rows && Live(s.rows[s.newest[e].id]))
              || InLog(cfg, s.log, s.newest[e])
  {
    ReachableInv(cfg, s);
    forall e | e in s.newest
      ensures (s.newest[e].id in s.rows && Live(s.rows[s.newest[e].id])) || InLog(cfg, s.log, s.newest[e])
    {
      NewestLiveOrLogged(cfg, s, e);
    }
  }

  ghost predicate NotLive(rows: Table, id: MessageId) {
    id in rows ==> !Live(rows[id])
  }

  ghost predicate NotInserted(txs: map<TxId, Tx>, id: MessageId) {
    forall t :: t in txs ==> id !in txs[t].inserted
  }

  /** A settled or deleted row: minted, in no open transaction, not live. */
  ghost predicate Settled(s: State, m: Message) {
    m in s.minted && NotLive(s.rows, m.id) && NotInserted(s.txs, m.id)
  }

  lemma NotLiveRows(rows: Table, id: MessageId, ids: set<MessageId>, c: ClaimId, d: MessageId, retryAt: Time)
    requires NotLive(rows, id)
    ensures NotLive(CollapseRows(rows, ids), id)
    ensures NotLive(MarkPublishedRows(rows, d, c), id) && NotLive(MarkFailedRows(rows, d, c, retryAt), id)
    ensures NotLive(PurgeRows(rows, ids), id)
  {}

  lemma NotLiveClaim(rows: Table, id: MessageId, chosen: set<MessageId>, claim: Claim, now: Time)
    requires NotLive(rows, id) && forall c :: c in chosen ==> Claimable(rows, c, now)
    ensures NotLive(ClaimRows(rows, chosen, claim), id)
  {
    if id in chosen { assert Claimable(rows, id, now); }
  }

  lemma NotLiveCommit(rows: Table, id: MessageId, txs: map<TxId, Tx>, t: TxId)
    requires NotLive(rows, id) && NotInserted(txs, id) && t in txs
    ensures NotLive(SupersedeRows(rows, txs[t].updated) + txs[t].inserted, id)
  {}

  lemma NotInsertedSet(txs: map<TxId, Tx>, t: TxId, tx: Tx, id: MessageId)
    requires NotInserted(txs, id) && id !in tx.inserted
    ensures NotInserted(txs[t := tx], id) && NotInserted(txs - {t}, id)
  {}

  lemma NotInsertedStep(cfg: Config, s: State, step: Step, m: Message)
    requires Enabled(cfg, s, step) && m in s.minted && NotInserted(s.txs, m.id)
    ensures NotInserted(Apply(cfg, s, step).txs, m.id)
  {
    if step.Commit? || step.Abort? {
      NotInsertedSet(s.txs, step.t, s.txs[step.t], m.id);
    } else if step.Begin? || step.Lock? || step.Write? || step.Load? || step.SupersedePending? || step.Insert?
              || step.Reject? {
      NotInsertedSet(s.txs, step.t, Apply(cfg, s, step).txs[step.t], m.id);
    }
  }

  lemma NotLiveStep(cfg: Config, s: State, step: Step, id: MessageId)
    requires Enabled(cfg, s, step) && NotLive(s.rows, id) && NotInserted(s.txs, id)
    ensures NotLive(Apply(cfg, s, step).rows, id)
  {
    match step
    case Commit(t) => NotLiveCommit(s.rows, id, s.txs, t);
    case Collapse(over, now) => NotLiveRows(s.rows, id, over, 0, 0, 0);
    case ClaimBatch(chosen, claim, now) => NotLiveClaim(s.rows, id, chosen, claim, now);
    case MarkPublished(m, c) => NotLiveRows(s.rows, id, {}, c, m.id, 0);
    case MarkFailed(d, c, retryAt) => NotLiveRows(s.rows, id, {}, c, d, retryAt);
    case Purge(victims, before, includeFailed) => NotLiveRows(s.rows, id, victims, 0, 0, 0);
    case _ =>
  }

  lemma SettledStep(cfg: Config, s: State, step: Step, m: Message)
    requires Enabled(cfg, s, step) && Settled(s, m)
    ensures Settled(Apply(cfg, s, step), m)
  {
    NotInsertedStep(cfg, s, step, m);
    NotLiveStep(cfg, s, step, m.id);
  }

  lemma {:induction false} SettledRun(cfg: Config, s: State, steps: seq<Step>, m: Message)
    requires Runs(cfg, s, steps) && Settled(s, m)
    ensures Settled(Exec(cfg, s, steps), m)
    decreases |steps|
  {
    if |steps| > 0 {
      SettledStep(cfg, s, steps[0], m);
      SettledRun(cfg, Apply(cfg, s, steps[0]), steps[1..], m);
    }
  }

  /** Retention never removes a row that a future claim could select: whatever a
      sweep may delete is claimable in no continuation of the run. */
  lemma PurgeRemovesNothingClaimable(cfg: Config, s: State, victim: MessageId, before: Time, includeFailed: bool,
                                     future: seq<Step>, now: Time)
    requires Reachable(cfg, s) && Purgeable(s.rows, victim, before, includeFailed) && Runs(cfg, s, future)
    ensures !Claimable(Exec(cfg, s, future).rows, victim, now)
  {
    ReachableInv(cfg, s);
    assert RowSound(victim, s.rows[victim], s.minted, s.issued);
    forall t | t in s.txs ensures victim !in s.txs[t].inserted {
      assert TxSound(cfg, s.txs[t], s.rows, s.minted, s.newest, s.domain);
    }
    SettledRun(cfg, s, future, s.rows[victim].msg);
  }

  // ----- Repair never overwrites live state ----------------------------------------

  ghost predicate Accepted(rows: Table, e: Entity, id: MessageId) {
    id in rows && !rows[id].status.Failed? && rows[id].msg.entity == e
  }

  ghost predicate NewestVisible(rows: Table, e: Entity, id: MessageId) {
    Accepted(rows, e, id) && forall other :: Accepted(rows, e, other) ==> rows[other].msg.order <= rows[id].msg.order
  }

  /** Whichever of a writer and a repair waited on the lock, the newest accepted
      message of an entity carries its committed state, and it is the newest
      visible row exactly as long as retention has not deleted it. */
  lemma NewestCarriesCommitted(cfg: Config, s: State, e: Entity, id: MessageId)
    requires Reachable(cfg, s) && NewestVisible(s.rows, e, id)
    ensures e in s.domain && e in s.newest && s.newest[e].payload == s.domain[e]
    ensures s.rows[id].msg == s.newest[e] <==> s.newest[e].id in s.rows
    ensures s.newest[e].id in s.rows ==> s.rows[id].msg.payload == s.domain[e]
  {
    ReachableInv(cfg, s);
    assert RowSound(id, s.rows[id], s.minted, s.issued);
    NewestLiveOrLogged(cfg, s, e);
  }

  ghost predicate AllKept(s: State) {
    forall e :: e in s.newest ==> s.newest[e].id in s.rows
  }

  lemma {:induction false} KeptWithoutPurge(cfg: Config, s: State, steps: seq<Step>)
    requires Inv(cfg, s) && AllKept(s) && Runs(cfg, s, steps)
    requires forall i :: 0 <= i < |steps| ==> !steps[i].Purge?
    ensures AllKept(Exec(cfg, s, steps))
    decreases |steps|
  {
    if |steps| > 0 {
      StepInv(cfg, s, steps[0]);
      KeptStep(cfg, s, steps[0]);
      KeptWithoutPurge(cfg, Apply(cfg, s, steps[0]), steps[1..]);
    }
  }

  lemma KeptStep(cfg: Config, s: State, step: Step)
    requires TxsSound(cfg, s) && AllKept(s) && Enabled(cfg, s, step) && !step.Purge?
    ensures AllKept(Apply(cfg, s, step))
  {
    if step.Commit? {
      assert TxSound(cfg, s.txs[step.t], s.rows, s.minted, s.newest, s.domain);
    } else {
      KeepsIds(cfg, s, step);
    }
  }

  lemma KeepsIds(cfg: Config, s: State, step: Step)
    requires Enabled(cfg, s, step) && !step.Purge? && !step.Commit?
    ensures s.rows.Keys <= Apply(cfg, s, step).rows.Keys && Apply(cfg, s, step).newest == s.newest
  {}

  /** In every run without retention sweeps, the newest visible accepted row of an
      entity carries its currently committed state. */
  lemma RepairNeverOverwrites(cfg: Config, steps: seq<Step>, e: Entity, id: MessageId)
    requires Runs(cfg, Empty(), steps) && forall i :: 0 <= i < |steps| ==> !steps[i].Purge?
    requires NewestVisible(Exec(cfg, Empty(), steps).rows, e, id)
    ensures var s := Exec(cfg, Empty(), steps); e in s.domain && s.rows[id].msg.payload == s.domain[e]
  {
    InitInv(cfg);
    KeptWithoutPurge(cfg, Empty(), steps);
    NewestCarriesCommitted(cfg, Exec(cfg, Empty(), steps), e, id);
  }

  lemma {:induction false} RunsOn(cfg: Config, s: State, steps: seq<Step>, step: Step)
    requires Runs(cfg, s, steps) && Enabled(cfg, Exec(cfg, s, steps), step)
    ensures Runs(cfg, s, steps + [step])
    ensures Exec(cfg, s, steps + [step]) == Apply(cfg, Exec(cfg, s, steps), step)
    decreases |steps|
  {
    if |steps| == 0 {
      assert steps + [step] == [step];
    } else {
      assert (steps + [step])[1..] == steps[1..] + [step];
      RunsOn(cfg, Apply(cfg, s, steps[0]), steps[1..], step);
    }
  }

  lemma ReachableOn(cfg: Config, s: State, step: Step)
    requires Reachable(cfg, s) && Enabled(cfg, s, step)
    ensures Reachable(cfg, Apply(cfg, s, step))
  {
    var steps :| Runs(cfg, Empty(), steps) && Exec(cfg, Empty(), steps) == s;
    RunsOn(cfg, Empty(), steps, step);
  }

  lemma {:induction false} ReachableAlong(cfg: Config, s: State, steps: seq<Step>)
    requires Reachable(cfg, s) && Runs(cfg, s, steps)
    ensures Reachable(cfg, Exec(cfg, s, steps))
    decreases |steps|
  {
    if |steps| > 0 {
      ReachableOn(cfg, s, steps[0]);
      ReachableAlong(cfg, Apply(cfg, s, steps[0]), steps[1..]);
    }
  }

  /** Partitions are only appended to, and issued claims and acknowledgements are
      not forgotten. */
  ghost predicate Grown(s: State, s': State) {
    s.issued <= s'.issued && s.acked <= s'.acked && forall p :: LogOf(s.log, p) <= LogOf(s'.log, p)
  }

  lemma StepGrows(cfg: Config, s: State, step: Step)
    requires Enabled(cfg, s, step)
    ensures Grown(s, Apply(cfg, s, step))
  {}

  lemma {:induction false} OnlyGrows(cfg: Config, s: State, steps: seq<Step>)
    requires Runs(cfg, s, steps)
    ensures Grown(s, Exec(cfg, s, steps))
    decreases |steps|
  {
    if |steps| > 0 {
      StepGrows(cfg, s, steps[0]);
      OnlyGrows(cfg, Apply(cfg, s, steps[0]), steps[1..]);
    }
  }

  /** What any sweep does to the newest visible row of an entity that is its newest
      message: it stays the newest message if and only if the sweep spares it or
      leaves no accepted row of the entity, and whatever row is newest visible
      afterwards carries the committed state if and only if the row was spared or
      the two carry the same payload. */
  lemma PurgeKeepsNewestExactly(cfg: Config, s: State, e: Entity, id: MessageId, victims: set<MessageId>, before: Time,
                                includeFailed: bool)
    requires Reachable(cfg, s) && Enabled(cfg, s, Purge(victims, before, includeFailed))
    requires NewestVisible(s.rows, e, id) && e in s.newest && s.rows[id].msg == s.newest[e]
    ensures var s' := Apply(cfg, s, Purge(victims, before, includeFailed));
            && e in s'.domain
            && ((forall other :: NewestVisible(s'.rows, e, other) ==> s'.rows[other].msg == s'.newest[e]) <==>
                  id !in victims || forall other :: !Accepted(s'.rows, e, other))
            && (forall other :: NewestVisible(s'.rows, e, other) ==>
                  (s'.rows[other].msg.payload == s'.domain[e] <==>
                     id !in victims || s.rows[other].msg.payload == s.rows[id].msg.payload))
  {
    var step := Purge(victims, before, includeFailed);
    ReachableOn(cfg, s, step);
    var s' := Apply(cfg, s, step);
    NewestCarriesCommitted(cfg, s, e, id);
    forall other | NewestVisible(s'.rows, e, other)
      ensures s'.rows[other].msg == s'.newest[e] <==> id !in victims
      ensures s'.rows[other].msg.payload == s'.domain[e]
              <==> id !in victims || s.rows[other].msg.payload == s.rows[id].msg.payload
    {
      NewestCarriesCommitted(cfg, s', e, other);
      InvKeyed(cfg, s, id);
    }
    if exists other :: Accepted(s'.rows, e, other) {
      var other :| Accepted(s'.rows, e, other);
      var newest := SomeNewest(s'.rows, e, other);
    }
  }

  lemma InvKeyed(cfg: Config, s: State, id: MessageId)
    requires Reachable(cfg, s) && id in s.rows
    ensures s.rows[id].msg.id == id
  {
    ReachableInv(cfg, s);
    assert RowSound(id, s.rows[id], s.minted, s.issued);
  }

  /** An entity with an accepted row has a newest visible one. */
  lemma SomeNewest(rows: Table, e: Entity, some: MessageId) returns (newest: MessageId)
    requires Accepted(rows, e, some)
    ensures NewestVisible(rows, e, newest)
  {
    newest := some;
    var left := rows.Keys;
    while left != {}
      invariant left <= rows.Keys && Accepted(rows, e, newest)
      invariant forall other :: Accepted(rows, e, other) && other !in left ==> rows[other].msg.order <= rows[newest].msg.order
      decreases left
    {
      var id :| id in left;
      left := left - {id};
      if Accepted(rows, e, id) && rows[newest].msg.order < rows[id].msg.order {
        newest := id;
      }
    }
  }

  // ----- Claim fencing ----------------------------------------------------------------

  lemma FenceCommit(cfg: Config, s: State, t: TxId, id: MessageId, c: ClaimId)
    requires TxsSound(cfg, s) && Enabled(cfg, s, Commit(t)) && !HeldBy(s.rows, id, c)
    ensures !HeldBy(Apply(cfg, s, Commit(t)).rows, id, c)
  {
    var tx := s.txs[t];
    assert TxSound(cfg, tx, s.rows, s.minted, s.newest, s.domain);
    if id in tx.inserted {
      assert InsertedSound(id, tx.inserted[id], tx.latest, tx.superseding, s.minted);
    }
  }

  lemma FenceRows(rows: Table, id: MessageId, c: ClaimId, ids: set<MessageId>, claim: Claim, m: MessageId, d: ClaimId,
                  retryAt: Time)
    requires !HeldBy(rows, id, c)
    ensures !HeldBy(CollapseRows(rows, ids), id, c)
    ensures claim.id != c ==> !HeldBy(ClaimRows(rows, ids, claim), id, c)
    ensures !HeldBy(MarkPublishedRows(rows, m, d), id, c) && !HeldBy(MarkFailedRows(rows, m, d, retryAt), id, c)
    ensures !HeldBy(PurgeRows(rows, ids), id, c)
  {}

  lemma FenceStatement(cfg: Config, s: State, step: Step, id: MessageId, c: ClaimId)
    requires Enabled(cfg, s, step) && !step.Commit? && c in s.issued && !HeldBy(s.rows, id, c)
    ensures !HeldBy(Apply(cfg, s, step).rows, id, c)
  {
    var none := Claim(c, "", 0);
    match step
    case Collapse(over, now) => FenceRows(s.rows, id, c, over, none, 0, 0, 0);
    case ClaimBatch(chosen, claim, now) => FenceRows(s.rows, id, c, chosen, claim, 0, 0, 0);
    case MarkPublished(m, d) => FenceRows(s.rows, id, c, {}, none, m.id, d, 0);
    case MarkFailed(m, d, retryAt) => FenceRows(s.rows, id, c, {}, none, m, d, retryAt);
    case Purge(victims, before, includeFailed) => FenceRows(s.rows, id, c, victims, none, 0, 0, 0);
    case _ =>
  }

  lemma IssuedGrows(cfg: Config, s: State, step: Step)
    requires Enabled(cfg, s, step)
    ensures s.issued <= Apply(cfg, s, step).issued
  {}

  lemma FenceStep(cfg: Config, s: State, step: Step, id: MessageId, c: ClaimId)
    requires Inv(cfg, s) && Enabled(cfg, s, step) && c in s.issued && !HeldBy(s.rows, id, c)
    ensures c in Apply(cfg, s, step).issued && !HeldBy(Apply(cfg, s, step).rows, id, c)
  {
    IssuedGrows(cfg, s, step);
    if step.Commit? {
      FenceCommit(cfg, s, step.t, id, c);
    } else {
      FenceStatement(cfg, s, step, id, c);
    }
  }

  /** Once a claim generation has lost a row it never holds it again, so the late
      mark of a worker whose lease expired changes nothing. */
  lemma {:induction false} LostClaimStaysLost(cfg: Config, s: State, steps: seq<Step>, id: MessageId, c: ClaimId,
                                              retryAt: Time)
    requires Inv(cfg, s) && Runs(cfg, s, steps) && c in s.issued && !HeldBy(s.rows, id, c)
    ensures var s' := Exec(cfg, s, steps);
            && !HeldBy(s'.rows, id, c)
            && MarkPublishedRows(s'.rows, id, c) == s'.rows && MarkFailedRows(s'.rows, id, c, retryAt) == s'.rows
    decreases |steps|
  {
    if |steps| > 0 {
      StepInv(cfg, s, steps[0]);
      FenceStep(cfg, s, steps[0], id, c);
      LostClaimStaysLost(cfg, Apply(cfg, s, steps[0]), steps[1..], id, c, retryAt);
    }
  }

  lemma HeldRowsCommit(cfg: Config, s: State, t: TxId, id: MessageId, c: ClaimId)
    requires TxsSound(cfg, s) && Enabled(cfg, s, Commit(t)) && HeldBy(s.rows, id, c)
    ensures Apply(cfg, s, Commit(t)).rows[id] == s.rows[id]
  {
    assert TxSound(cfg, s.txs[t], s.rows, s.minted, s.newest, s.domain);
  }

  lemma HeldRowsStatement(rows: Table, id: MessageId, c: ClaimId, ids: set<MessageId>, claim: Claim, m: MessageId,
                          d: ClaimId, retryAt: Time)
    ensures HeldBy(rows, id, c) && HeldBy(CollapseRows(rows, ids), id, c) ==> CollapseRows(rows, ids)[id] == rows[id]
    ensures HeldBy(rows, id, c) && claim.id != c && HeldBy(ClaimRows(rows, ids, claim), id, c) ==>
              ClaimRows(rows, ids, claim)[id] == rows[id]
    ensures HeldBy(MarkPublishedRows(rows, m, d), id, c) ==> MarkPublishedRows(rows, m, d)[id] == rows[id]
    ensures HeldBy(MarkFailedRows(rows, m, d, retryAt), id, c) ==> MarkFailedRows(rows, m, d, retryAt)[id] == rows[id]
  {}

  lemma HeldRowsStep(cfg: Config, s: State, step: Step, id: MessageId, c: ClaimId)
    requires Enabled(cfg, s, step) && !step.Commit? && c in s.issued
    requires HeldBy(s.rows, id, c) && HeldBy(Apply(cfg, s, step).rows, id, c)
    ensures Apply(cfg, s, step).rows[id] == s.rows[id]
  {
    var none := Claim(c, "", 0);
    match step
    case Collapse(over, now) => HeldRowsStatement(s.rows, id, c, over, none, 0, 0, 0);
    case ClaimBatch(chosen, claim, now) => HeldRowsStatement(s.rows, id, c, chosen, claim, 0, 0, 0);
    case MarkPublished(m, d) => HeldRowsStatement(s.rows, id, c, {}, none, m.id, d, 0);
    case MarkFailed(m, d, retryAt) => HeldRowsStatement(s.rows, id, c, {}, none, m, d, retryAt);
    case _ =>
  }

  /** Whatever step is taken, a row a claim generation holds afterwards it held
      before, and the row is as it was. */
  lemma HeldRowsUntouched(cfg: Config, s: State, step: Step, id: MessageId, c: ClaimId)
    requires Inv(cfg, s) && Enabled(cfg, s, step) && c in s.issued && HeldBy(Apply(cfg, s, step).rows, id, c)
    ensures HeldBy(s.rows, id, c) && Apply(cfg, s, step).rows[id] == s.rows[id]
  {
    if !HeldBy(s.rows, id, c) {
      FenceStep(cfg, s, step, id, c);
    } else if step.Commit? {
      HeldRowsCommit(cfg, s, step.t, id, c);
    } else {
      HeldRowsStep(cfg, s, step, id, c);
    }
  }

  lemma CommitTakesNone(cfg: Config, s: State, t: TxId, id: MessageId)
    requires TxsSound(cfg, s) && Enabled(cfg, s, Commit(t))
    requires id in Apply(cfg, s, Commit(t)).rows && Apply(cfg, s, Commit(t)).rows[id].status.Publishing?
    ensures id in s.rows && Apply(cfg, s, Commit(t)).rows[id] == s.rows[id]
  {
    assert TxSound(cfg, s.txs[t], s.rows, s.minted, s.newest, s.domain);
  }

  /** What is in flight after `b` was in flight, and is as it was, in `a`. */
  ghost predicate TakesNone(a: Table, b: Table) {
    forall id :: id in b && b[id].status.Publishing? ==> id in a && b[id] == a[id]
  }

  lemma StatementsTakeNone(rows: Table, ids: set<MessageId>, m: MessageId, d: ClaimId, retryAt: Time)
    ensures TakesNone(rows, CollapseRows(rows, ids)) && TakesNone(rows, PurgeRows(rows, ids))
    ensures TakesNone(rows, MarkPublishedRows(rows, m, d)) && TakesNone(rows, MarkFailedRows(rows, m, d, retryAt))
  {}

  lemma OnlyClaimsTake(cfg: Config, s: State, step: Step, id: MessageId)
    requires Enabled(cfg, s, step) && !step.ClaimBatch? && (step.Commit? ==> TxsSound(cfg, s))
    requires id in Apply(cfg, s, step).rows && Apply(cfg, s, step).rows[id].status.Publishing?
    ensures id in s.rows && Apply(cfg, s, step).rows[id] == s.rows[id]
  {
    match step
    case Commit(t) => CommitTakesNone(cfg, s, t, id);
    case Collapse(over, now) => StatementsTakeNone(s.rows, over, 0, 0, 0);
    case MarkPublished(m, d) => StatementsTakeNone(s.rows, {}, m.id, d, 0);
    case MarkFailed(m, d, retryAt) => StatementsTakeNone(s.rows, {}, m, d, retryAt);
    case Purge(victims, before, includeFailed) => StatementsTakeNone(s.rows, victims, 0, 0, 0);
    case _ =>
  }

  /** A row goes into flight, or changes hands in flight, only by a claim, and only if
      it was Pending and due or its lease had run out. */
  lemma OnlyDueRowsTaken(cfg: Config, s: State, step: Step, id: MessageId)
    requires Inv(cfg, s) && Enabled(cfg, s, step)
    requires var rows := Apply(cfg, s, step).rows;
             id in rows && rows[id].status.Publishing? && (id in s.rows ==> rows[id] != s.rows[id])
    ensures step.ClaimBatch? && id in s.rows && step.claim.id !in s.issued
    ensures Apply(cfg, s, step).rows[id]
         == s.rows[id].(status := Publishing, attempts := s.rows[id].attempts + 1, claim := Wrappers.Some(step.claim))
    ensures if s.rows[id].status.Pending? then s.rows[id].nextAttemptAt <= step.now
            else s.rows[id].status.Publishing? && s.rows[id].claim.Some? && s.rows[id].claim.value.expiresAt <= step.now
  {
    if !step.ClaimBatch? {
      OnlyClaimsTake(cfg, s, step, id);
    }
  }

  // ----- Quiescence -----------------------------------------------------------------

  /** Once nothing of an entity is pending or in flight, its committed state is in
      the log and nothing of it in the log is newer. */
  lemma QuiescentLog(cfg: Config, s: State, e: Entity)
    requires Inv(cfg, s) && e in s.domain
    requires forall id :: id in s.rows && s.rows[id].msg.entity == e ==> !Live(s.rows[id])
    ensures e in s.newest && s.newest[e].payload == s.domain[e] && InLog(cfg, s.log, s.newest[e])
    ensures var log := LogOf(s.log, cfg.partition(e));
            forall i :: 0 <= i < |log| && log[i].entity == e ==> log[i].order <= s.newest[e].order
  {
    NewestLiveOrLogged(cfg, s, e);
  }
}
