/**
 The order of changelog versions, and the check every changelog goes through.
 */
module VersionOrder {
  import opened Wrappers

  datatype OrderError = DuplicateVersion(version: int) | DisorderedVersion(previous: int, next: int)

  ghost predicate Ascending(versions: seq<int>) {
    forall i, j :: 0 <= i < j < |versions| ==> versions[i] < versions[j]
  }

  /** The order holds up to `k` and breaks there. */
  ghost predicate FirstBreak(versions: seq<int>, k: nat) {
    k < |versions| && Ascending(versions[..k]) && !Ascending(versions[..k + 1])
  }

  ghost function BreakError(versions: seq<int>, k: nat): OrderError
    requires 0 < k < |versions|
  {
    if versions[k] in versions[..k] then DuplicateVersion(versions[k])
    else DisorderedVersion(versions[k - 1], versions[k])
  }

  /** What is said of versions out of order: where the order first breaks. */
  ghost predicate Names(versions: seq<int>, error: OrderError) {
    exists k :: 0 < k < |versions| && FirstBreak(versions, k) && error == BreakError(versions, k)
  }

  /** `assert_changelog_order`: accepts exactly strictly ascending versions, and
      names the first one that is not, apart if it is a repeat. */
  method AssertOrder(versions: seq<int>) returns (error: Option<OrderError>)
    ensures error.None? <==> Ascending(versions)
    ensures error.Some? ==> Names(versions, error.value)
  {
    var seen: set<int> := {};
    var previous: Option<int> := None;
    for k := 0 to |versions|
      invariant Ascending(versions[..k]) && forall v :: v in seen <==> v in versions[..k]
      invariant previous == if k == 0 then None else Some(versions[k - 1])
    {
      var version := versions[k];
      if version in seen {
        ghost var i :| 0 <= i < k && versions[..k][i] == version;
        assert versions[..k + 1][i] == versions[..k + 1][k] && FirstBreak(versions, k);
        return Some(DuplicateVersion(version));
      }
      if previous.Some? && version <= previous.value {
        assert versions[..k + 1][k - 1] >= versions[..k + 1][k] && FirstBreak(versions, k);
        return Some(DisorderedVersion(previous.value, version));
      }
      AscendingOn(versions, k);
      seen := seen + {version};
      previous := Some(version);
      assert versions[..k + 1] == versions[..k] + [version];
    }
    assert versions[..|versions|] == versions;
    return None;
  }

  lemma AscendingOn(versions: seq<int>, k: nat)
    requires k < |versions| && Ascending(versions[..k]) && (k > 0 ==> versions[k - 1] < versions[k])
    ensures Ascending(versions[..k + 1])
  {
    forall i, j | 0 <= i < j < k + 1 ensures versions[i] < versions[j] {
      if j == k && i < k - 1 {
        assert versions[..k][i] < versions[..k][k - 1];
      } else if j < k {
        assert versions[..k][i] < versions[..k][j];
      }
    }
  }
}
