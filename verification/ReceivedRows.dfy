/**
 One row of a received table: how a failure, a success and a redrive change it,
 and what any history of those leaves on it.
 */
module ReceivedRows {
  import opened Wrappers
  import opened EntityCache

  type MessageId = nat
  type Key = nat
  type Time = int

  datatype ReceiveStatus = Pending | Processed | Retryable | Failed

  datatype FailureKind = MissingHandler | InvalidPayload | Infrastructure | Handler

  datatype FailureStage = Routing | InHandler | Bookkeeping

  /** What can go wrong while a row is dispatched. */
  datatype Error =
    | NoHandler
    | HandlerError
    | HandlerPanicked
    | UndecodablePayload
    | Database
    | CacheOriginMismatch
    | MissingEntityKey
    | InvalidEntityKey

  function KindOf(error: Error): FailureKind {
    match error
    case NoHandler => MissingHandler
    case UndecodablePayload => InvalidPayload
    case HandlerError => Handler
    case HandlerPanicked => Handler
    case _ => Infrastructure
  }

  /** Deterministic against the stored row: another attempt reaches the same
      answer. */
  predicate IsTerminal(error: Error) {
    error.CacheOriginMismatch? || error.MissingEntityKey? || error.InvalidEntityKey?
  }

  datatype Disposition = Disposition(kind: FailureKind, stage: FailureStage, terminal: bool)

  function FailureDisposition(error: Error, stage: FailureStage): Disposition {
    Disposition(KindOf(error), stage, IsTerminal(error))
  }

  datatype ErrorEntry = ErrorEntry(kind: FailureKind, stage: FailureStage, at: Time)

  datatype Policy = Policy(maxAttempts: nat, errorsLimit: nat)

  /** The Kafka record key, which need not be text. */
  datatype RecordKey = Text(text: string) | NotUtf8

  datatype Row = Row(key: Key, entity: Option<Entity>, recordKey: Option<RecordKey>, snapshot: Snapshot,
                     createdAt: Time, status: ReceiveStatus, attempts: nat, nextAttemptAt: Option<Time>,
                     errors: seq<ErrorEntry>, lastFailedAt: Option<Time>, lastFailureKind: Option<FailureKind>,
                     processedAt: Option<Time>)

  /** The row an ingest inserts. */
  function NewRow(key: Key, entity: Option<Entity>, recordKey: Option<RecordKey>, snapshot: Snapshot, now: Time): Row {
    Row(key, entity, recordKey, snapshot, now, Pending, 0, None, [], None, None, None)
  }

  /** Rows a dispatcher may still pick up. */
  predicate Open(r: Row) {
    r.status.Pending? || r.status.Retryable?
  }

  predicate Due(r: Row, now: Time) {
    || (r.status.Pending? && (r.nextAttemptAt.None? || r.nextAttemptAt.value <= now))
    || (r.status.Retryable? && r.nextAttemptAt.Some? && r.nextAttemptAt.value <= now)
  }

  /** `received_entity_key`: the column, else the record key as text. */
  function EntityKeyOf(r: Row): Result<Entity, Error> {
    if r.entity.Some? then Success(r.entity.value)
    else if r.recordKey.None? then Failure(MissingEntityKey)
    else match r.recordKey.value
         case Text(text) => Success(text)
         case NotUtf8 => Failure(InvalidEntityKey)
  }

  function Limit(policy: Policy): nat {
    if policy.errorsLimit == 0 then 1 else policy.errorsLimit
  }

  function Newest(history: seq<ErrorEntry>, limit: nat): seq<ErrorEntry> {
    if |history| <= limit then history else history[|history| - limit..]
  }

  /** `received_retry_outcome`, from the attempts the claim saw. */
  predicate Exhausted(policy: Policy, seen: nat, d: Disposition) {
    d.terminal || seen + 1 >= policy.maxAttempts
  }

  /** `record_received_failure`: the statement's effect on an open row. */
  function RecordFailure(policy: Policy, r: Row, seen: nat, d: Disposition, at: Time, retryAt: Time): Row {
    if !Open(r) then r
    else
      var exhausted := Exhausted(policy, seen, d);
      r.(status := if exhausted then ReceiveStatus.Failed else Retryable,
         attempts := r.attempts + 1,
         nextAttemptAt := if exhausted then None else Some(retryAt),
         errors := Newest(r.errors + [ErrorEntry(d.kind, d.stage, at)], Limit(policy)),
         lastFailedAt := Some(at),
         lastFailureKind := Some(d.kind))
  }

  /** `mark_received_processed`. */
  function MarkProcessed(r: Row, at: Time): Row {
    if Open(r) then r.(status := Processed, processedAt := Some(at)) else r
  }

  /** The redrive statement on one selected row. */
  function RedriveRow(r: Row, clearHistory: bool): Row {
    var pending := r.(status := Pending, nextAttemptAt := None, processedAt := None);
    if clearHistory
    then pending.(attempts := 0, errors := [], lastFailedAt := None, lastFailureKind := None)
    else pending
  }

  /** `replay_received_filter_sql`, over the denormalised columns. */
  predicate Redrivable(r: Row, since: Option<Time>, kind: Option<FailureKind>) {
    && r.status.Failed?
    && (since.Some? ==> r.lastFailedAt.Some? && r.lastFailedAt.value >= since.value)
    && (kind.Some? ==> r.lastFailureKind == kind)
  }

  /** The index-friendly predicate of `received_stuck_rows`. */
  predicate StuckSplit(r: Row, cutoff: Time) {
    || (r.status.Pending? && (r.nextAttemptAt.None? || r.nextAttemptAt.value <= cutoff) && r.createdAt <= cutoff)
    || (r.status.Retryable? && r.nextAttemptAt.Some? && r.nextAttemptAt.value <= cutoff)
  }

  // ----- A row's whole life ---------------------------------------------------------

  datatype Event =
    | Fail(seen: nat, d: Disposition, at: Time, retryAt: Time)
    | Succeed(at: Time)
    | Redrive(clearHistory: bool)

  /** A row beside what happened to it since its history was last cleared: every
      failure, the redrives that kept the history, and the failures recorded with
      an attempt count the row no longer had. */
  datatype Life = Life(row: Row, history: seq<ErrorEntry>, redrives: nat, stale: nat)

  predicate Allowed(l: Life, e: Event) {
    if e.Redrive? then l.row.status.Failed? else Open(l.row)
  }

  function Next(policy: Policy, l: Life, e: Event): Life
    requires Allowed(l, e)
  {
    match e
    case Fail(seen, d, at, retryAt) =>
      Life(RecordFailure(policy, l.row, seen, d, at, retryAt), l.history + [ErrorEntry(d.kind, d.stage, at)],
           l.redrives, if seen == l.row.attempts then l.stale else l.stale + 1)
    case Succeed(at) => l.(row := MarkProcessed(l.row, at))
    case Redrive(clear) =>
      if clear then Life(RedriveRow(l.row, true), [], 0, 0)
      else l.(row := RedriveRow(l.row, false), redrives := l.redrives + 1)
  }

  predicate Lives(policy: Policy, l: Life, events: seq<Event>)
    decreases |events|
  {
    events == [] || (Allowed(l, events[0]) && Lives(policy, Next(policy, l, events[0]), events[1..]))
  }

  function After(policy: Policy, l: Life, events: seq<Event>): Life
    requires Lives(policy, l, events)
    decreases |events|
  {
    if events == [] then l else After(policy, Next(policy, l, events[0]), events[1..])
  }

  ghost predicate Fresh(l: Life) {
    l.history == [] && l.redrives == 0 && l.stale == 0
    && exists key, entity, recordKey, snapshot, now :: l.row == NewRow(key, entity, recordKey, snapshot, now)
  }

  /** The stored history is exactly the newest failures since the last clear, and
      the denormalised columns are its last entry. */
  ghost predicate HistoryExact(policy: Policy, l: Life) {
    && l.row.attempts == |l.history|
    && l.row.errors == Newest(l.history, Limit(policy))
    && (if l.history == [] then l.row.lastFailedAt.None? && l.row.lastFailureKind.None?
        else var last := l.history[|l.history| - 1];
             l.row.lastFailedAt == Some(last.at) && l.row.lastFailureKind == Some(last.kind))
  }

  ghost predicate ScheduleExact(l: Life) {
    && (l.row.status.Pending? || l.row.status.Failed? ==> l.row.nextAttemptAt.None?)
    && (l.row.status.Retryable? ==> l.row.nextAttemptAt.Some?)
  }

  ghost predicate Budgeted(policy: Policy, l: Life) {
    && l.row.attempts <= policy.maxAttempts + l.redrives + l.stale
    && (Open(l.row) ==> l.row.attempts < policy.maxAttempts + l.redrives + l.stale)
  }

  ghost predicate LifeInv(policy: Policy, l: Life) {
    HistoryExact(policy, l) && ScheduleExact(l) && Budgeted(policy, l)
  }

  lemma NewestOfNewest(history: seq<ErrorEntry>, f: ErrorEntry, limit: nat)
    requires limit > 0
    ensures Newest(Newest(history, limit) + [f], limit) == Newest(history + [f], limit)
  {}

  lemma NextInv(policy: Policy, l: Life, e: Event)
    requires LifeInv(policy, l) && Allowed(l, e) && policy.maxAttempts > 0
    ensures LifeInv(policy, Next(policy, l, e))
  {
    if e.Fail? {
      NewestOfNewest(l.history, ErrorEntry(e.d.kind, e.d.stage, e.at), Limit(policy));
    }
  }

  lemma {:induction false} AfterInv(policy: Policy, l: Life, events: seq<Event>)
    requires LifeInv(policy, l) && Lives(policy, l, events) && policy.maxAttempts > 0
    ensures LifeInv(policy, After(policy, l, events))
    decreases |events|
  {
    if events != [] {
      NextInv(policy, l, events[0]);
      AfterInv(policy, Next(policy, l, events[0]), events[1..]);
    }
  }

  /** `kept` of `failures` entries: all of them up to the limit, the limit from there
      on, and one at least when the limit is none. */
  predicate Bounded(policy: Policy, kept: nat, failures: nat) {
    && (failures <= policy.errorsLimit ==> kept == failures)
    && (failures >= policy.errorsLimit > 0 ==> kept == policy.errorsLimit)
    && (failures > 0 == policy.errorsLimit ==> kept == 1)
  }

  /** After any failures, redrives and clears, the stored errors are the newest
      `min(n, errors_limit)` failures since the last clear, in order. */
  lemma HistoryIsNewestFailures(policy: Policy, l: Life, events: seq<Event>)
    requires Fresh(l) && Lives(policy, l, events) && policy.maxAttempts > 0
    ensures var end := After(policy, l, events);
            && Bounded(policy, |end.row.errors|, |end.history|)
            && end.history == end.history[..|end.history| - |end.row.errors|] + end.row.errors
            && (end.row.errors == [] <==> end.row.lastFailedAt.None?)
            && (end.row.lastFailedAt.None? <==> end.row.lastFailureKind.None?)
            && (end.row.errors != [] ==> var last := end.row.errors[|end.row.errors| - 1];
                  end.row.lastFailedAt == Some(last.at) && end.row.lastFailureKind == Some(last.kind))
  {
    AfterInv(policy, l, events);
  }

  /** So a kind- or time-filtered redrive picks rows by their true latest
      failure. */
  lemma RedriveFiltersLatestFailure(policy: Policy, l: Life, events: seq<Event>, since: Option<Time>,
                                    kind: Option<FailureKind>)
    requires Fresh(l) && Lives(policy, l, events) && policy.maxAttempts > 0
    ensures var end := After(policy, l, events);
            Redrivable(end.row, since, kind) <==>
              && end.row.status.Failed?
              && (since.Some? ==> end.history != [] && end.history[|end.history| - 1].at >= since.value)
              && (kind.Some? ==> end.history != [] && end.history[|end.history| - 1].kind == kind.value)
  {
    AfterInv(policy, l, events);
  }

  /** Attempts never exceed the policy's budget plus one per history-preserving
      redrive since the last clear and one per failure recorded, after a lost
      transaction, against an attempt count the row had moved on from. */
  lemma AttemptsBounded(policy: Policy, l: Life, events: seq<Event>)
    requires Fresh(l) && Lives(policy, l, events) && policy.maxAttempts > 0
    ensures var end := After(policy, l, events);
            end.row.attempts <= policy.maxAttempts + end.redrives + end.stale
  {
    AfterInv(policy, l, events);
  }

  /** The split predicate selects exactly the non-terminal rows whose
      COALESCE(next_attempt_at, created_at) is at or before the cutoff. */
  lemma StuckSplitIsCoalesce(policy: Policy, l: Life, events: seq<Event>, cutoff: Time)
    requires Fresh(l) && Lives(policy, l, events) && policy.maxAttempts > 0
    ensures var r := After(policy, l, events).row;
            StuckSplit(r, cutoff) <==>
              Open(r) && (if r.nextAttemptAt.Some? then r.nextAttemptAt.value else r.createdAt) <= cutoff
  {
    AfterInv(policy, l, events);
  }

  /** A row is due exactly when it is open and no next attempt lies ahead, so every
      stuck row is one a dispatcher can claim. */
  lemma DueExactly(policy: Policy, l: Life, events: seq<Event>, now: Time, cutoff: Time)
    requires Fresh(l) && Lives(policy, l, events) && policy.maxAttempts > 0
    ensures var r := After(policy, l, events).row;
            && (Due(r, now) <==> Open(r) && (r.nextAttemptAt.Some? ==> r.nextAttemptAt.value <= now))
            && (StuckSplit(r, cutoff) && cutoff <= now ==> Due(r, now))
  {
    AfterInv(policy, l, events);
  }
}
