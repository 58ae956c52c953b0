/**
 The receive side as a step-based protocol: one consumer storing, quarantining
 and acknowledging records, any number of dispatchers, and operator redrives.
 */
module ReceiveProtocol {
  import opened Wrappers
  import opened EntityCache
  import opened ReceivedRows

  /** A broker record as ingest decodes it. */
  datatype Wire =
    | Readable(id: MessageId, key: Key, entity: Entity, recordKey: Option<RecordKey>, payload: Payload)
    | Unreadable

  type Log = map<int, seq<Wire>>

  /** A committed handler effect. `skip` is the pre-upsert hook's request to skip
      the post-upsert handler. */
  datatype Effect = Before(id: MessageId, skip: bool) | After(id: MessageId)

  /** A failure waiting to be recorded on a fresh connection because its claim
      transaction was lost. */
  datatype Fallback = Fallback(id: MessageId, seen: nat, d: Disposition, at: Time)

  /** `received`, `quarantine`, `cache` and `effects` are committed tables;
      `committed` is the group's offset per partition. `position`, `inflight` and
      `skips` are the consumer's memory, `tripped` the record its breaker stopped
      on. */
  datatype State = State(received: map<MessageId, Row>, quarantine: set<(int, nat)>, cache: map<Entity, CacheRow>,
                         effects: seq<Effect>, committed: map<int, nat>, position: map<int, nat>,
                         inflight: Option<(int, nat)>, skips: nat, tripped: Option<(int, nat)>,
                         fallbacks: multiset<Fallback>)

  /** Which handler positions are registered, the declared topic, the retry policy
      and the skip breaker's limit. */
  datatype Config = Config(before: bool, after: bool, topic: string, policy: Policy, maxSkips: nat)

  datatype HandlerResult = Done | Faults(error: Error)

  /** How one dispatch attempt goes: what the handlers do, whether kafkaman's own
      statements fail, and whether the savepoint rollback works. */
  datatype Attempt = Attempt(before: HandlerResult, skip: bool, after: HandlerResult, databaseFails: bool,
                             rollbackWorks: bool, retryAt: Time)

  datatype Step =
    | Ingest(p: int, panics: bool, now: Time)
    | Ack
    | AckError(resume: bool)
    | RecvError(p: int, resume: bool)
    | Restart
    | Dispatch(id: MessageId, a: Attempt, now: Time)
    | RecordFallback(f: Fallback, retryAt: Time)
    | DropFallback(f: Fallback)
    | RedriveFailed(ids: set<MessageId>, since: Option<Time>, kind: Option<FailureKind>, clearHistory: bool)

  function Empty(): State {
    State(map[], {}, map[], [], map[], map[], None, 0, None, multiset{})
  }

  function LogOf(log: Log, p: int): seq<Wire> {
    if p in log then log[p] else []
  }

  function At(offsets: map<int, nat>, p: int): nat {
    if p in offsets then offsets[p] else 0
  }

  function KeysOf(received: map<MessageId, Row>): set<Key> {
    set id | id in received :: received[id].key
  }

  datatype InsertOutcome = Inserted | DuplicateIdempotencyKey | MessageIdConflict

  /** `insert_received_with_outcome`: both unique constraints, classified. */
  function InsertOutcomeOf(received: map<MessageId, Row>, w: Wire): InsertOutcome
    requires w.Readable?
  {
    if w.key in KeysOf(received) then DuplicateIdempotencyKey
    else if w.id in received then MessageIdConflict
    else Inserted
  }

  function RowFor(cfg: Config, p: int, o: nat, w: Wire, now: Time): Row
    requires w.Readable?
  {
    NewRow(w.key, Some(w.entity), w.recordKey, Snapshot(cfg.topic, p, o, w.payload), now)
  }

  /** A skip counts against the breaker before the offset is acknowledged. */
  function Skipped(cfg: Config, s: State, p: int, o: nat): State {
    var s1 := s.(quarantine := s.quarantine + {(p, o)}, skips := s.skips + 1, position := s.position[p := o + 1]);
    if s.skips + 1 >= cfg.maxSkips then s1.(tripped := Some((p, o))) else s1.(inflight := Some((p, o)))
  }

  function Ingested(cfg: Config, s: State, p: int, o: nat, w: Wire, panics: bool, now: Time): State {
    if w.Unreadable? || panics then Skipped(cfg, s, p, o)
    else
      match InsertOutcomeOf(s.received, w)
      case Inserted =>
        s.(received := s.received[w.id := RowFor(cfg, p, o, w, now)], skips := 0, inflight := Some((p, o)),
           position := s.position[p := o + 1])
      case DuplicateIdempotencyKey =>
        s.(skips := 0, inflight := Some((p, o)), position := s.position[p := o + 1])
      case MessageIdConflict => Skipped(cfg, s, p, o)
  }

  /** Everything inside the savepoint: both handler positions around the cache
      upsert, then the processed mark. */
  function Converge(cfg: Config, s: State, id: MessageId, a: Attempt, now: Time): Result<State, (Error, FailureStage)>
    requires id in s.received
  {
    var row := s.received[id];
    if cfg.before && a.before.Faults? then Failure((a.before.error, InHandler))
    else
      var effects := if cfg.before then s.effects + [Before(id, a.skip)] else s.effects;
      match EntityKeyOf(row)
      case Failure(error) => Failure((error, Bookkeeping))
      case Success(e) =>
        match Upsert(if e in s.cache then Some(s.cache[e]) else None, row.snapshot, cfg.topic)
        case Failure(_) => Failure((CacheOriginMismatch, Bookkeeping))
        case Success(applied) =>
          var runs := cfg.after && !(cfg.before && a.skip) && !applied.1.Ignored?;
          if runs && a.after.Faults? then Failure((a.after.error, InHandler))
          else if a.databaseFails then Failure((Database, Bookkeeping))
          else
            Success(s.(received := s.received[id := MarkProcessed(row, now)],
                       cache := s.cache[e := applied.0],
                       effects := if runs then effects + [After(id)] else effects))
  }

  /** One dispatch transaction: converge and commit, or roll back to the savepoint
      and record the failure, or lose the transaction. */
  function Dispatched(cfg: Config, s: State, id: MessageId, a: Attempt, now: Time): State
    requires id in s.received
  {
    var row := s.received[id];
    if !cfg.before && !cfg.after then
      Recorded(cfg, s, id, row.attempts, FailureDisposition(NoHandler, Routing), now, a.retryAt)
    else
      match Converge(cfg, s, id, a, now)
      case Success(s') => s'
      case Failure(fault) =>
        var d := FailureDisposition(fault.0, fault.1);
        if a.rollbackWorks then Recorded(cfg, s, id, row.attempts, d, now, a.retryAt)
        else s.(fallbacks := s.fallbacks + multiset{Fallback(id, row.attempts, d, now)})
  }

  function Recorded(cfg: Config, s: State, id: MessageId, seen: nat, d: Disposition, at: Time, retryAt: Time): State {
    if id in s.received
    then s.(received := s.received[id := RecordFailure(cfg.policy, s.received[id], seen, d, at, retryAt)])
    else s
  }

  function RedriveRows(received: map<MessageId, Row>, ids: set<MessageId>, clearHistory: bool): map<MessageId, Row> {
    map id | id in received :: if id in ids then RedriveRow(received[id], clearHistory) else received[id]
  }

  ghost predicate Enabled(cfg: Config, log: Log, s: State, step: Step) {
    match step
    case Ingest(p, panics, now) =>
      s.inflight.None? && s.tripped.None? && At(s.position, p) < |LogOf(log, p)|
    case Ack => s.inflight.Some?
    case AckError(resume) => s.inflight.Some?
    case RecvError(p, resume) => s.inflight.None? && s.tripped.None? && At(s.position, p) < |LogOf(log, p)|
    case Restart => true
    case Dispatch(id, a, now) => id in s.received && Due(s.received[id], now)
    case RecordFallback(f, retryAt) => f in s.fallbacks
    case DropFallback(f) => f in s.fallbacks
    case RedriveFailed(ids, since, kind, clearHistory) =>
      forall id :: id in ids ==> id in s.received && Redrivable(s.received[id], since, kind)
  }

  function Apply(cfg: Config, log: Log, s: State, step: Step): State
    requires Enabled(cfg, log, s, step)
  {
    match step
    case Ingest(p, panics, now) =>
      var o := At(s.position, p);
      Ingested(cfg, s, p, o, LogOf(log, p)[o], panics, now)
    case Ack =>
      var at := s.inflight.value;
      s.(committed := s.committed[at.0 := at.1 + 1], inflight := None)
    case AckError(resume) =>
      s.(inflight := None, position := if resume then s.committed else s.position)
    case RecvError(p, resume) =>
      s.(position := if resume then s.committed else s.position[p := At(s.position, p) + 1])
    case Restart => s.(inflight := None, position := s.committed, skips := 0, tripped := None)
    case Dispatch(id, a, now) => Dispatched(cfg, s, id, a, now)
    case RecordFallback(f, retryAt) =>
      Recorded(cfg, s.(fallbacks := s.fallbacks - multiset{f}), f.id, f.seen, f.d, f.at, retryAt)
    case DropFallback(f) => s.(fallbacks := s.fallbacks - multiset{f})
    case RedriveFailed(ids, since, kind, clearHistory) =>
      s.(received := RedriveRows(s.received, ids, clearHistory))
  }

  /** After an error, consumption resumes from the committed offset. */
  predicate Resumes(step: Step) {
    (step.AckError? ==> step.resume) && (step.RecvError? ==> step.resume)
  }
}
