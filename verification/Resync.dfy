/**
 State-sourced repair: page through entity keys, and for each take the entity's
 lock, load its current state and enqueue it, one transaction per key.
 */
module Resync {
  import opened Wrappers
  import opened OutboxRows
  import opened OutboxTable
  import opened StringOrder

  datatype Error = Callback | InvalidResync | Rejected(e: EnqueueError) | Interrupted

  datatype Page = Keys(keys: seq<Entity>) | KeysFail

  /** What `load` finds under the lock. */
  datatype Loaded =
    | Gone
    | Current(entity: Entity, id: MessageId, key: Option<Key>, payload: Payload)
    | LoadFails

  datatype Progress = Progress(enqueued: nat, skipped: nat, lastKey: Option<Entity>)

  /** Progress after the first `n` keys. */
  function After(load: Entity -> Loaded, start: Option<Entity>, keys: seq<Entity>, n: nat): Progress
    requires n <= |keys|
  {
    if n == 0 then Progress(0, 0, start)
    else
      var done := After(load, start, keys, n - 1);
      if load(keys[n - 1]).Current?
      then Progress(done.enqueued + 1, done.skipped, Some(keys[n - 1]))
      else Progress(done.enqueued, done.skipped + 1, Some(keys[n - 1]))
  }

  /** The keys a run committed: strictly increasing across all pages, after the
      cursor it started from. */
  ghost predicate Committed(start: Option<Entity>, keys: seq<Entity>) {
    Increasing(keys) && (start.Some? ==> forall i :: 0 <= i < |keys| ==> Less(start.value, keys[i]))
  }

  /** One progress report per committed key, and every key accounted for. */
  ghost predicate Reported(load: Entity -> Loaded, start: Option<Entity>, keys: seq<Entity>, trail: seq<Progress>) {
    |trail| == |keys| && forall i :: 0 <= i < |keys| ==> trail[i] == After(load, start, keys, i + 1)
  }

  /** The loaded state is the entity's only pending row. */
  ghost predicate Repaired(rows: Table, key: Entity, found: Loaded) {
    found.Current? ==>
      && found.entity == key && found.key.Some? && Pendings(rows, key) == {found.id}
      && found.id in rows && rows[found.id].msg.payload == found.payload
  }

  ghost predicate AllRepaired(rows: Table, keys: seq<Entity>, load: Entity -> Loaded) {
    forall i :: 0 <= i < |keys| ==> Repaired(rows, keys[i], load(keys[i])) && !load(keys[i]).LoadFails?
  }

  /** What stops one key's transaction, if anything. */
  function KeyError(rows: Table, key: Entity, found: Loaded): Option<Error> {
    match found
    case LoadFails => Some(Callback)
    case Gone => None
    case Current(entity, id, idempotency, _) =>
      if entity != key then Some(InvalidResync)
      else if id in rows then Some(Rejected(DuplicateMessageId))
      else if idempotency.None? then Some(Rejected(MissingIdempotencyKey))
      else None
  }

  /** A key is repaired when its entity is gone, or is found under that very key with an
      identity and an unused id; anything else has its own error. */
  lemma KeyErrorExactly(rows: Table, key: Entity, found: Loaded)
    ensures KeyError(rows, key, found).None? <==>
              found.Gone? || (found.Current? && found.entity == key && found.key.Some? && found.id !in rows)
    ensures KeyError(rows, key, found) == Some(Callback) <==> found.LoadFails?
    ensures KeyError(rows, key, found) == Some(InvalidResync) <==> found.Current? && found.entity != key
    ensures KeyError(rows, key, found) == Some(Rejected(DuplicateMessageId)) <==>
              found.Current? && found.entity == key && found.id in rows
  {}

  /** The table and the sequence after one key that nothing stopped. */
  function RepairedTable(rows: Table, sequence: nat, key: Entity, found: Loaded, now: Time): (Table, nat) {
    if found.Current?
    then (EnqueuedRows(rows, Message(found.id, found.key, key, sequence, found.payload), now), sequence + 1)
    else (rows, sequence)
  }

  function RepairedTables(rows: Table, sequence: nat, keys: seq<Entity>, load: Entity -> Loaded, now: Time, n: nat): (Table, nat)
    requires n <= |keys|
  {
    if n == 0 then (rows, sequence)
    else
      var before := RepairedTables(rows, sequence, keys, load, now, n - 1);
      RepairedTable(before.0, before.1, keys[n - 1], load(keys[n - 1]), now)
  }

  /** Nothing stopped the `i`-th key when its turn came. */
  ghost predicate Unstopped(was: (Table, nat), keys: seq<Entity>, load: Entity -> Loaded, now: Time, i: nat)
    requires i < |keys|
  {
    KeyError(RepairedTables(was.0, was.1, keys, load, now, i).0, keys[i], load(keys[i])).None?
  }

  /** The last committed key, or the cursor the run started from. */
  function Cursor(start: Option<Entity>, keys: seq<Entity>): Option<Entity> {
    if keys == [] then start else Some(keys[|keys| - 1])
  }

  /** The keys of the first `n` pages. */
  function KeysOf(pages: seq<Page>, n: nat): seq<Entity>
    requires n <= |pages|
  {
    if n == 0 then [] else KeysOf(pages, n - 1) + if pages[n - 1].Keys? then pages[n - 1].keys else []
  }

  /** A page too long, out of order or not after the cursor. */
  ghost predicate Invalid(page: seq<Entity>, batchSize: nat, cursor: Option<Entity>)
    requires page != []
  {
    |page| > batchSize || !Increasing(page) || (cursor.Some? && !Less(cursor.value, page[0]))
  }

  /** A page all of whose keys a run goes through, unless one of them stops it. */
  ghost predicate Good(pages: seq<Page>, n: nat, batchSize: nat, start: Option<Entity>)
    requires n < |pages|
  {
    && pages[n].Keys? && pages[n].keys != []
    && !Invalid(pages[n].keys, batchSize, Cursor(start, KeysOf(pages, n)))
  }

  ghost predicate Through(pages: seq<Page>, n: nat, batchSize: nat, start: Option<Entity>, keys: seq<Entity>) {
    && n <= |pages| && keys == KeysOf(pages, n)
    && forall i :: 0 <= i < n ==> Good(pages, i, batchSize, start)
  }

  /** Where a run ended, and why: `n` pages in and `m` keys into the next one, with
      every key before that committed. */
  ghost predicate EndsAt(r: Result<Progress, Error>, rows: Table, batchSize: nat, start: Option<Entity>, pages: seq<Page>,
                         load: Entity -> Loaded, keys: seq<Entity>, n: nat, m: nat) {
    && n <= |pages| && Through(pages, n, batchSize, start, KeysOf(pages, n))
    && (if n == |pages| then m == 0 && keys == KeysOf(pages, n) && r == Failure(Interrupted)
        else
          match pages[n]
          case KeysFail => m == 0 && keys == KeysOf(pages, n) && r == Failure(Callback)
          case Keys(page) =>
            && m <= |page| && keys == KeysOf(pages, n) + page[..m]
            && (if page == [] then r == Success(After(load, start, keys, |keys|))
                else if Invalid(page, batchSize, Cursor(start, KeysOf(pages, n))) then m == 0 && r == Failure(InvalidResync)
                else
                  && m < |page| && KeyError(rows, page[m], load(page[m])).Some?
                  && r == Failure(KeyError(rows, page[m], load(page[m])).value)))
  }

  lemma {:induction false} AfterCounts(load: Entity -> Loaded, start: Option<Entity>, keys: seq<Entity>, n: nat)
    requires n <= |keys|
    ensures var done := After(load, start, keys, n);
            done.enqueued + done.skipped == n && done.lastKey == if n == 0 then start else Some(keys[n - 1])
  {
    if n > 0 { AfterCounts(load, start, keys, n - 1); }
  }

  lemma {:induction false} AfterPrefix(load: Entity -> Loaded, start: Option<Entity>, keys: seq<Entity>, key: Entity, n: nat)
    requires n <= |keys|
    ensures After(load, start, keys + [key], n) == After(load, start, keys, n)
  {
    if n > 0 { AfterPrefix(load, start, keys, key, n - 1); }
  }

  lemma ReportedOn(load: Entity -> Loaded, start: Option<Entity>, keys: seq<Entity>, trail: seq<Progress>, key: Entity)
    requires Reported(load, start, keys, trail)
    ensures Reported(load, start, keys + [key], trail + [After(load, start, keys + [key], |keys| + 1)])
    ensures After(load, start, keys + [key], |keys|) == After(load, start, keys, |keys|)
  {
    forall i | 0 <= i <= |keys| ensures After(load, start, keys + [key], i) == After(load, start, keys, i) {
      AfterPrefix(load, start, keys, key, i);
    }
  }

  lemma CommittedOn(start: Option<Entity>, keys: seq<Entity>, key: Entity)
    requires Committed(start, keys)
    requires keys == [] && start.Some? ==> Less(start.value, key)
    requires keys != [] ==> Less(keys[|keys| - 1], key)
    ensures Committed(start, keys + [key]) && key !in keys
  {
    forall i | 0 <= i < |keys| ensures Less(keys[i], key) {
      if i < |keys| - 1 {
        LessTransitive(keys[i], keys[|keys| - 1], key);
      }
    }
    if start.Some? && keys != [] {
      LessTransitive(start.value, keys[|keys| - 1], key);
    }
    LessIrreflexive(key);
  }

  /** Repairing one entity leaves the others' pending rows alone. */
  lemma RepairedOn(was: Table, rows: Table, keys: seq<Entity>, load: Entity -> Loaded, id: MessageId, msg: Message, now: Time)
    requires AllRepaired(was, keys, load) && OutboxTable.Accepted(was, rows, id, msg, now) && msg.entity !in keys
    ensures AllRepaired(rows, keys, load)
  {
    forall i | 0 <= i < |keys| ensures Repaired(rows, keys[i], load(keys[i])) {
      assert Repaired(was, keys[i], load(keys[i]));
      assert keys[i] != msg.entity;
      forall j ensures j in Pendings(rows, keys[i]) <==> j in Pendings(was, keys[i]) {}
    }
  }

  /** One key's transaction: it succeeds exactly when nothing stops the key, and an
      error rolls it back. */
  method RepairKey(table: Outbox, key: Entity, found: Loaded, now: Time) returns (r: Result<bool, Error>)
    requires table.Valid()
    modifies table
    ensures table.Valid()
    ensures var error := KeyError(old(table.rows), key, found);
            r == if error.Some? then Failure(error.value) else Success(found.Current?)
    ensures r.Failure? ==> table.rows == old(table.rows)
    ensures r.Success? ==>
              && (table.rows, table.sequence) == RepairedTable(old(table.rows), old(table.sequence), key, found, now)
              && Repaired(table.rows, key, found)
    ensures r == Success(true) ==>
              OutboxTable.Accepted(old(table.rows), table.rows, found.id,
                                   Message(found.id, found.key, key, old(table.sequence), found.payload), now)
  {
    match found
    case LoadFails => return Failure(Callback);
    case Gone => return Success(false);
    case Current(entity, id, idempotency, payload) =>
      if entity != key {
        return Failure(InvalidResync);
      }
      var before := table.rows;
      var enqueued := table.Enqueue(id, idempotency, entity, payload, now);
      if enqueued.Failure? {
        SequenceOn(before, table.sequence - 1);
        table.rows := before;
        return Failure(Rejected(enqueued.error));
      }
      return Success(true);
  }

  /** Everything a run keeps: the committed keys in order, one exact report each,
      every found entity repaired, and no other change to the table. */
  ghost predicate Kept(was: (Table, nat), now: Time, rows: Table, sequence: nat, load: Entity -> Loaded,
                       start: Option<Entity>, keys: seq<Entity>, trail: seq<Progress>, done: Progress) {
    && Committed(start, keys) && Reported(load, start, keys, trail) && AllRepaired(rows, keys, load)
    && done == After(load, start, keys, |keys|)
    && TableKept(was, now, (rows, sequence), load, keys)
  }

  /** The repairs of the committed keys, none of them stopped, and nothing else. */
  ghost predicate TableKept(was: (Table, nat), now: Time, table: (Table, nat), load: Entity -> Loaded, keys: seq<Entity>) {
    && table == RepairedTables(was.0, was.1, keys, load, now, |keys|)
    && forall i :: 0 <= i < |keys| ==> Unstopped(was, keys, load, now, i)
  }

  lemma TableKeptOn(was: (Table, nat), now: Time, before: (Table, nat), after: (Table, nat), load: Entity -> Loaded,
                    keys: seq<Entity>, key: Entity)
    requires TableKept(was, now, before, load, keys) && KeyError(before.0, key, load(key)).None?
    requires after == RepairedTable(before.0, before.1, key, load(key), now)
    ensures TableKept(was, now, after, load, keys + [key])
  {
    TablesPrefix(was, keys, load, now, key, |keys|);
    forall i | 0 <= i <= |keys| ensures Unstopped(was, keys + [key], load, now, i) {
      TablesPrefix(was, keys, load, now, key, i);
      assert i < |keys| ==> Unstopped(was, keys, load, now, i);
    }
  }

  lemma {:induction false} TablesPrefix(was: (Table, nat), keys: seq<Entity>, load: Entity -> Loaded, now: Time, key: Entity,
                                        n: nat)
    requires n <= |keys|
    ensures RepairedTables(was.0, was.1, keys + [key], load, now, n) == RepairedTables(was.0, was.1, keys, load, now, n)
  {
    if n > 0 { TablesPrefix(was, keys, load, now, key, n - 1); }
  }

  lemma KeptOn(was: (Table, nat), now: Time, before: (Table, nat), after: (Table, nat), load: Entity -> Loaded,
               start: Option<Entity>, keys: seq<Entity>, trail: seq<Progress>, done: Progress, key: Entity, done': Progress)
    requires Kept(was, now, before.0, before.1, load, start, keys, trail, done)
    requires Repaired(after.0, key, load(key)) && KeyError(before.0, key, load(key)).None?
    requires after == RepairedTable(before.0, before.1, key, load(key), now)
    requires done.lastKey.Some? ==> Less(done.lastKey.value, key)
    requires key !in keys ==> AllRepaired(after.0, keys, load)
    requires done' == if load(key).Current? then Progress(done.enqueued + 1, done.skipped, Some(key))
                      else Progress(done.enqueued, done.skipped + 1, Some(key))
    ensures Kept(was, now, after.0, after.1, load, start, keys + [key], trail + [done'], done')
  {
    AfterCounts(load, start, keys, |keys|);
    CommittedOn(start, keys, key);
    ReportedOn(load, start, keys, trail, key);
    TableKeptOn(was, now, before, after, load, keys, key);
  }

  /** One key, and its report. */
  method RepairNext(table: Outbox, key: Entity, load: Entity -> Loaded, now: Time, ghost was: (Table, nat),
                    ghost start: Option<Entity>, done: Progress, ghost keys: seq<Entity>, ghost trail: seq<Progress>)
    returns (error: Option<Error>, done': Progress)
    requires table.Valid() && Kept(was, now, table.rows, table.sequence, load, start, keys, trail, done)
    requires done.lastKey.Some? ==> Less(done.lastKey.value, key)
    modifies table
    ensures table.Valid() && error == KeyError(old(table.rows), key, load(key))
    ensures error.Some? ==> table.rows == old(table.rows) && done' == done
    ensures error.None? ==>
              && Kept(was, now, table.rows, table.sequence, load, start, keys + [key], trail + [done'], done')
              && done'.lastKey == Some(key)
  {
    ghost var before := (table.rows, table.sequence);
    var repaired := RepairKey(table, key, load(key), now);
    if repaired.Failure? {
      return Some(repaired.error), done;
    }
    if repaired.value {
      if key !in keys {
        RepairedOn(before.0, table.rows, keys, load, load(key).id,
                   Message(load(key).id, load(key).key, key, before.1, load(key).payload), now);
      }
      done' := Progress(done.enqueued + 1, done.skipped, Some(key));
    } else {
      done' := Progress(done.enqueued, done.skipped + 1, Some(key));
    }
    KeptOn(was, now, before, (table.rows, table.sequence), load, start, keys, trail, done, key, done');
    error := None;
  }

  /** The table as the committed keys leave it, whatever was drawn since. */
  ghost predicate KeptRows(was: (Table, nat), now: Time, rows: Table, load: Entity -> Loaded, start: Option<Entity>,
                           keys: seq<Entity>, trail: seq<Progress>, done: Progress) {
    exists sequence :: Kept(was, now, rows, sequence, load, start, keys, trail, done)
  }

  /** One page, key by key; an error keeps the keys before it. */
  method RepairPage(table: Outbox, page: seq<Entity>, load: Entity -> Loaded, now: Time, ghost was: (Table, nat),
                    ghost start: Option<Entity>, done: Progress, trail: seq<Progress>, ghost keys: seq<Entity>)
    returns (error: Option<Error>, done': Progress, trail': seq<Progress>, ghost m: nat)
    requires table.Valid() && Kept(was, now, table.rows, table.sequence, load, start, keys, trail, done)
    requires Increasing(page) && (page != [] && done.lastKey.Some? ==> Less(done.lastKey.value, page[0]))
    modifies table
    ensures table.Valid() && m <= |page| && (error.None? <==> m == |page|)
    ensures KeptRows(was, now, table.rows, load, start, keys + page[..m], trail', done')
    ensures error.None? ==> Kept(was, now, table.rows, table.sequence, load, start, keys + page, trail', done')
    ensures error.Some? ==> error == KeyError(table.rows, page[m], load(page[m]))
  {
    done', trail', m, error := done, trail, 0, None;
    assert keys + page[..0] == keys;
    for i := 0 to |page|
      invariant table.Valid() && m == i && error.None?
      invariant Kept(was, now, table.rows, table.sequence, load, start, keys + page[..i], trail', done')
      invariant i == 0 ==> done'.lastKey == done.lastKey
      invariant i > 0 ==> done'.lastKey == Some(page[i - 1])
    {
      error, done' := RepairNext(table, page[i], load, now, was, start, done', keys + page[..i], trail');
      if error.Some? {
        return;
      }
      assert keys + page[..i + 1] == keys + page[..i] + [page[i]];
      trail', m := trail' + [done'], i + 1;
    }
    assert keys + page[..|page|] == keys + page;
  }

  /** One answer of `keys`: the page goes through, or the run ends there. */
  method Turn(table: Outbox, batchSize: nat, ghost start: Option<Entity>, pages: seq<Page>, i: nat, load: Entity -> Loaded,
              now: Time, ghost was: (Table, nat), done: Progress, trail: seq<Progress>, ghost keys: seq<Entity>)
    returns (r: Option<Result<Progress, Error>>, done': Progress, trail': seq<Progress>, ghost keys': seq<Entity>, ghost m: nat)
    requires table.Valid() && Kept(was, now, table.rows, table.sequence, load, start, keys, trail, done)
    requires i < |pages| && Through(pages, i, batchSize, start, keys)
    modifies table
    ensures table.Valid()
    ensures r.None? ==>
              && Kept(was, now, table.rows, table.sequence, load, start, keys', trail', done')
              && Through(pages, i + 1, batchSize, start, keys')
    ensures r.Some? ==>
              && KeptRows(was, now, table.rows, load, start, keys', trail', done')
              && EndsAt(r.value, table.rows, batchSize, start, pages, load, keys', i, m)
  {
    done', trail', keys', m := done, trail, keys, 0;
    AfterCounts(load, start, keys, |keys|);
    if pages[i].KeysFail? {
      r := Some(Failure(Callback));
      return;
    }
    var page := pages[i].keys;
    assert keys + page[..0] == keys;
    if page == [] {
      r := Some(Success(done));
      return;
    }
    var increasing := IsIncreasing(page);
    if |page| > batchSize || !increasing || (done.lastKey.Some? && !Less(done.lastKey.value, page[0])) {
      r := Some(Failure(InvalidResync));
      return;
    }
    var error: Option<Error>;
    error, done', trail', m := RepairPage(table, page, load, now, was, start, done, trail, keys);
    keys' := keys + page[..m];
    if error.Some? {
      r := Some(Failure(error.value));
    } else {
      assert page[..m] == page;
      r := None;
    }
  }

  /** `resync` over whatever pages `keys` answers. The committed keys are exactly
      the pages' keys up to where the run ended, and it ended for exactly one
      reason: an empty page, a failed callback, an invalid page, or the first key
      that could not be repaired. The table holds the repairs of the committed
      keys and nothing else; each was reported once with exact counts, and each
      found entity's current state is its only pending row. */
  method Resync(table: Outbox, batchSize: nat, start: Option<Entity>, pages: seq<Page>, load: Entity -> Loaded, now: Time)
    returns (r: Result<Progress, Error>, trail: seq<Progress>, ghost keys: seq<Entity>, ghost n: nat, ghost m: nat)
    requires table.Valid()
    modifies table
    ensures table.Valid() && EndsAt(r, table.rows, batchSize, start, pages, load, keys, n, m)
    ensures Committed(start, keys) && Reported(load, start, keys, trail) && AllRepaired(table.rows, keys, load)
    ensures exists sequence :: TableKept((old(table.rows), old(table.sequence)), now, (table.rows, sequence), load, keys)
    ensures r.Success? ==> r.value.enqueued + r.value.skipped == |keys| == |trail|
  {
    var done := Progress(0, 0, start);
    trail, keys, n, m := [], [], 0, 0;
    ghost var was := (table.rows, table.sequence);
    for i := 0 to |pages|
      invariant table.Valid() && Kept(was, now, table.rows, table.sequence, load, start, keys, trail, done)
      invariant Through(pages, i, batchSize, start, keys)
    {
      var ended: Option<Result<Progress, Error>>;
      ended, done, trail, keys, m := Turn(table, batchSize, start, pages, i, load, now, was, done, trail, keys);
      if ended.Some? {
        AfterCounts(load, start, keys, |keys|);
        return ended.value, trail, keys, i, m;
      }
    }
    return Failure(Interrupted), trail, keys, |pages|, 0;
  }
}
