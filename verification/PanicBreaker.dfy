/**
 The dispatcher's panic breaker: it counts distinct panicking rows since the last
 claim that did not panic.
 */
module PanicBreaker {
  import opened Wrappers

  type MessageId = nat

  /** One dispatch cycle. A panicking cycle names its row; one that cannot is a
      library fault the breaker does not count. */
  datatype Cycle = Idle | Errored | Dispatched | Panicked(row: Option<MessageId>)

  /** Row `id` panicked and nothing was dispatched without panicking since. */
  ghost predicate InStreak(cycles: seq<Cycle>, id: MessageId) {
    exists i :: 0 <= i < |cycles| && cycles[i] == Panicked(Some(id))
                && forall j :: i < j < |cycles| ==> !cycles[j].Dispatched?
  }

  /** The distinct rows that panicked since the last non-panicking claim. */
  ghost function Streak(cycles: seq<Cycle>): (rows: set<MessageId>)
    ensures forall id :: id in rows <==> InStreak(cycles, id)
  {
    var rows := set i | 0 <= i < |cycles| && cycles[i].Panicked? && cycles[i].row.Some?
                        && (forall j :: i < j < |cycles| ==> !cycles[j].Dispatched?) :: cycles[i].row.value;
    assert forall id :: InStreak(cycles, id) ==> id in rows;
    rows
  }

  /** How one more cycle moves the streak: an idle or errored one does not. */
  lemma StreakOn(cycles: seq<Cycle>, c: Cycle)
    ensures Streak(cycles + [c]) ==
              match c
              case Idle => Streak(cycles)
              case Errored => Streak(cycles)
              case Dispatched => {}
              case Panicked(row) => if row.Some? then Streak(cycles) + {row.value} else Streak(cycles)
  {
    var all := cycles + [c];
    forall id | InStreak(all, id)
      ensures !c.Dispatched? && (InStreak(cycles, id) || c == Panicked(Some(id)))
    {
      var i :| 0 <= i < |all| && all[i] == Panicked(Some(id)) && forall j :: i < j < |all| ==> !all[j].Dispatched?;
      assert i < |cycles| ==> !all[|cycles|].Dispatched?;
      if i < |cycles| {
        assert cycles[i] == Panicked(Some(id)) && forall j :: i < j < |cycles| ==> cycles[j] == all[j];
      }
    }
    forall id | InStreak(cycles, id) && !c.Dispatched? ensures InStreak(all, id) {
      var i :| 0 <= i < |cycles| && cycles[i] == Panicked(Some(id))
               && forall j :: i < j < |cycles| ==> !cycles[j].Dispatched?;
      assert all[i] == Panicked(Some(id));
    }
    if c.Panicked? && c.row.Some? {
      assert all[|cycles|] == Panicked(Some(c.row.value));
      assert InStreak(all, c.row.value);
    }
  }

  /** `run_dispatcher`'s breaker over any run of cycles: it stops at the first
      cycle after which the streak holds `limit` distinct rows, and only there. */
  method RunDispatcher(limit: nat, cycles: seq<Cycle>) returns (stopped: Option<nat>)
    requires limit > 0
    ensures stopped.None? ==> forall k :: 0 <= k <= |cycles| ==> |Streak(cycles[..k])| < limit
    ensures stopped.Some? ==>
              && stopped.value < |cycles| && cycles[stopped.value].Panicked?
              && |Streak(cycles[..stopped.value + 1])| >= limit
              && forall k :: 0 <= k <= stopped.value ==> |Streak(cycles[..k])| < limit
  {
    var panickingRows: set<MessageId> := {};
    assert cycles[..0] == [];
    for k := 0 to |cycles|
      invariant panickingRows == Streak(cycles[..k])
      invariant forall j :: 0 <= j <= k ==> |Streak(cycles[..j])| < limit
    {
      StreakOn(cycles[..k], cycles[k]);
      assert cycles[..k + 1] == cycles[..k] + [cycles[k]];
      match cycles[k]
      case Panicked(row) =>
        if row.Some? {
          panickingRows := panickingRows + {row.value};
        }
        if |panickingRows| >= limit {
          return Some(k);
        }
      case Dispatched =>
        panickingRows := {};
      case _ =>
    }
    return None;
  }

  /** A single poison row never trips a limit of two or more, however often it is
      retried and whatever happens in between. */
  lemma OnePoisonRowNeverTrips(cycles: seq<Cycle>, poison: MessageId, k: nat)
    requires forall i :: 0 <= i < |cycles| && cycles[i].Panicked? ==> cycles[i].row in {None, Some(poison)}
    requires k <= |cycles|
    ensures |Streak(cycles[..k])| <= 1
  {
    var seen := cycles[..k];
    forall id | InStreak(seen, id) ensures id == poison {
      var i :| 0 <= i < |seen| && seen[i] == Panicked(Some(id));
      assert cycles[i] == seen[i];
    }
    if poison in Streak(seen) {
      assert Streak(seen) == {poison};
    } else {
      assert Streak(seen) == {};
    }
  }
}
