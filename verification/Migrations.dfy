/**
 Applying a changelog, and previewing what applying it would do.
 */
module Migrations {
  import opened Wrappers
  import VersionOrder

  datatype Changeset = Changeset(version: int, name: string, checksum: string, contexts: seq<string>, builds: bool)

  datatype HistoryRow = HistoryRow(name: string, checksum: string, appliedBy: string)

  type Rows = map<int, HistoryRow>

  datatype Context = Context(contexts: set<string>, appliedBy: string)

  datatype Action =
    | Applied
    | WouldApply
    | SkippedAlreadyApplied
    | SkippedContext
    | ChecksumMismatch(stored: string, current: string)

  datatype Step = Step(version: int, name: string, action: Action)

  datatype Error =
    | Disordered(error: VersionOrder.OrderError)
    | Mismatch(version: int, stored: string, current: string)
    | BuildFailed(version: int)

  /** No required context means every context. */
  predicate Matches(ctx: Context, c: Changeset) {
    c.contexts == [] || exists i :: 0 <= i < |c.contexts| && c.contexts[i] in ctx.contexts
  }

  /** What the preview says of one changeset. */
  function Previewed(rows: Rows, ctx: Context, c: Changeset): Action {
    if !Matches(ctx, c) then SkippedContext
    else if c.version !in rows then WouldApply
    else if rows[c.version].checksum == c.checksum then SkippedAlreadyApplied
    else ChecksumMismatch(rows[c.version].checksum, c.checksum)
  }

  function Performed(a: Action): Action {
    if a.WouldApply? then Applied else a
  }

  /** The history after the first `n` changesets went through. */
  function After(rows: Rows, ctx: Context, log: seq<Changeset>, n: nat): Rows
    requires n <= |log|
  {
    if n == 0 then rows
    else
      var before := After(rows, ctx, log, n - 1);
      var c := log[n - 1];
      if Previewed(before, ctx, c).WouldApply?
      then before[c.version := HistoryRow(c.name, c.checksum, ctx.appliedBy)] else before
  }

  function Versions(log: seq<Changeset>): (versions: seq<int>)
    ensures |versions| == |log|
    ensures forall i :: 0 <= i < |log| ==> versions[i] == log[i].version
  {
    seq(|log|, i requires 0 <= i < |log| => log[i].version)
  }

  ghost predicate Ascending(log: seq<Changeset>) {
    VersionOrder.Ascending(Versions(log))
  }

  /** A changeset no run gets past. */
  predicate Stops(rows: Rows, ctx: Context, c: Changeset) {
    Previewed(rows, ctx, c).ChecksumMismatch? || (Previewed(rows, ctx, c).WouldApply? && !c.builds)
  }

  function StopError(rows: Rows, ctx: Context, c: Changeset): Error
    requires Stops(rows, ctx, c)
  {
    match Previewed(rows, ctx, c)
    case ChecksumMismatch(stored, current) => Mismatch(c.version, stored, current)
    case _ => BuildFailed(c.version)
  }

  ghost predicate NoneStops(rows: Rows, ctx: Context, log: seq<Changeset>, n: nat)
    requires n <= |log|
  {
    forall i :: 0 <= i < n ==> !Stops(rows, ctx, log[i])
  }

  function Fate(rows: Rows, ctx: Context, c: Changeset): Step {
    Step(c.version, c.name, Performed(Previewed(rows, ctx, c)))
  }

  /** The report of the first `n` changesets: the preview, performed. */
  ghost predicate Reports(report: seq<Step>, rows: Rows, ctx: Context, log: seq<Changeset>, n: nat)
    requires n <= |log|
  {
    |report| == n && forall i :: 0 <= i < n ==> report[i] == Fate(rows, ctx, log[i])
  }

  /** How far a run got. */
  ghost predicate Through(report: seq<Step>, rows: Rows, ctx: Context, log: seq<Changeset>, n: nat)
    requires n <= |log|
  {
    NoneStops(rows, ctx, log, n) && Reports(report, rows, ctx, log, n)
  }

  lemma ThroughOn(report: seq<Step>, rows: Rows, ctx: Context, log: seq<Changeset>, n: nat)
    requires n < |log| && Through(report, rows, ctx, log, n) && !Stops(rows, ctx, log[n])
    ensures Through(report + [Fate(rows, ctx, log[n])], rows, ctx, log, n + 1)
  {}

  /** In an ordered changelog, what earlier changesets wrote is nowhere a later one
      looks. */
  lemma {:induction false} EarlierUnseen(rows: Rows, ctx: Context, log: seq<Changeset>, n: nat, version: int)
    requires n <= |log| && forall i :: 0 <= i < n ==> log[i].version != version
    ensures version in After(rows, ctx, log, n) <==> version in rows
    ensures version in rows ==> After(rows, ctx, log, n)[version] == rows[version]
  {
    if n > 0 { EarlierUnseen(rows, ctx, log, n - 1, version); }
  }

  lemma PreviewHolds(rows: Rows, ctx: Context, log: seq<Changeset>, n: nat)
    requires Ascending(log) && n < |log|
    ensures Previewed(After(rows, ctx, log, n), ctx, log[n]) == Previewed(rows, ctx, log[n])
  {
    assert forall i :: 0 <= i < n ==> Versions(log)[i] < Versions(log)[n] && Versions(log)[i] == log[i].version;
    assert forall i :: 0 <= i < n ==> log[i].version != log[n].version;
    EarlierUnseen(rows, ctx, log, n, log[n].version);
  }

  /** Its contexts keep a changeset out exactly when it names some and none is active. */
  ghost predicate Inactive(ctx: Context, c: Changeset) {
    c.contexts != [] && forall k :: 0 <= k < |c.contexts| ==> c.contexts[k] !in ctx.contexts
  }

  /** What a preview tells, read off the changeset and the history: kept out by its
      contexts, pending when the history has no such version, and else by comparing
      checksums. */
  ghost predicate Fated(rows: Rows, ctx: Context, c: Changeset, action: Action) {
    && (action.SkippedContext? <==> Inactive(ctx, c))
    && (action.WouldApply? <==> !Inactive(ctx, c) && c.version !in rows)
    && (action.SkippedAlreadyApplied? <==>
          !Inactive(ctx, c) && c.version in rows && rows[c.version].checksum == c.checksum)
    && (action.ChecksumMismatch? ==>
          c.version in rows && action == ChecksumMismatch(rows[c.version].checksum, c.checksum))
    && !action.Applied?
  }

  /** A run stops at an active changeset that was applied with another checksum, or was
      not applied and does not build, and says which. */
  lemma StopsExactly(rows: Rows, ctx: Context, c: Changeset)
    ensures Stops(rows, ctx, c) <==>
              !Inactive(ctx, c) && (if c.version in rows then rows[c.version].checksum != c.checksum else !c.builds)
    ensures Stops(rows, ctx, c) ==>
              StopError(rows, ctx, c) == if c.version in rows
                                         then Mismatch(c.version, rows[c.version].checksum, c.checksum)
                                         else BuildFailed(c.version)
  {}

  lemma PreviewedExactly(rows: Rows, ctx: Context, c: Changeset)
    ensures Fated(rows, ctx, c, Previewed(rows, ctx, c))
  {}

  /** A run's report: what it would have done it did, and the rest is as previewed. */
  ghost predicate Told(rows: Rows, ctx: Context, c: Changeset, step: Step) {
    && step.version == c.version && step.name == c.name && !step.action.WouldApply?
    && Fated(rows, ctx, c, if step.action.Applied? then WouldApply else step.action)
  }

  lemma ReportTells(report: seq<Step>, rows: Rows, ctx: Context, log: seq<Changeset>, n: nat)
    requires n <= |log| && Reports(report, rows, ctx, log, n)
    ensures forall i :: 0 <= i < n ==> Told(rows, ctx, log[i], report[i])
  {
    forall i | 0 <= i < n ensures Told(rows, ctx, log[i], report[i]) {
      PreviewedExactly(rows, ctx, log[i]);
    }
  }

  class History {
    var rows: Rows

    constructor (rows: Rows)
      ensures this.rows == rows
    {
      this.rows := rows;
    }

    /** `migrate_dry_run`: every changeset's fate, drifted ones included, and no
        change to the history. */
    method DryRun(ctx: Context, log: seq<Changeset>) returns (r: Result<seq<Step>, Error>)
      ensures r.Success? <==> Ascending(log)
      ensures r.Failure? ==> r.error.Disordered? && VersionOrder.Names(Versions(log), r.error.error)
      ensures r.Success? ==> |r.value| == |log| && forall i :: 0 <= i < |log| ==>
                r.value[i] == Step(log[i].version, log[i].name, Previewed(rows, ctx, log[i]))
      ensures r.Success? ==> forall i :: 0 <= i < |log| ==> Fated(rows, ctx, log[i], r.value[i].action)
    {
      var error := VersionOrder.AssertOrder(Versions(log));
      if error.Some? {
        return Failure(Disordered(error.value));
      }
      var report := [];
      for i := 0 to |log|
        invariant |report| == i && forall j :: 0 <= j < i ==>
                    report[j] == Step(log[j].version, log[j].name, Previewed(rows, ctx, log[j]))
      {
        report := report + [Step(log[i].version, log[i].name, Previewed(rows, ctx, log[i]))];
      }
      forall i | 0 <= i < |log| ensures Fated(rows, ctx, log[i], report[i].action) {
        PreviewedExactly(rows, ctx, log[i]);
      }
      return Success(report);
    }

    /** One changeset's transaction: skipped, applied, or the reason it stops. */
    method ApplyOne(ctx: Context, c: Changeset) returns (r: Result<Action, Error>)
      modifies this
      ensures r == if Stops(old(rows), ctx, c) then Failure(StopError(old(rows), ctx, c))
                   else Success(Performed(Previewed(old(rows), ctx, c)))
      ensures rows == if Previewed(old(rows), ctx, c).WouldApply? && c.builds
                      then old(rows)[c.version := HistoryRow(c.name, c.checksum, ctx.appliedBy)] else old(rows)
    {
      if !Matches(ctx, c) {
        return Success(SkippedContext);
      }
      if c.version in rows {
        if rows[c.version].checksum != c.checksum {
          return Failure(Mismatch(c.version, rows[c.version].checksum, c.checksum));
        }
        return Success(SkippedAlreadyApplied);
      }
      if !c.builds {
        return Failure(BuildFailed(c.version));
      }
      rows := rows[c.version := HistoryRow(c.name, c.checksum, ctx.appliedBy)];
      return Success(Applied);
    }

    /** The next changeset of an ordered changelog meets the fate its preview gave it. */
    method ApplyNext(ctx: Context, log: seq<Changeset>, i: nat, ghost start: Rows) returns (r: Result<Step, Error>)
      requires Ascending(log) && i < |log| && rows == After(start, ctx, log, i)
      modifies this
      ensures r == if Stops(start, ctx, log[i]) then Failure(StopError(start, ctx, log[i]))
                   else Success(Fate(start, ctx, log[i]))
      ensures rows == After(start, ctx, log, if r.Success? then i + 1 else i)
    {
      PreviewHolds(start, ctx, log, i);
      var applied := ApplyOne(ctx, log[i]);
      if applied.Failure? {
        return Failure(applied.error);
      }
      return Success(Step(log[i].version, log[i].name, applied.value));
    }

    method ApplyAll(ctx: Context, log: seq<Changeset>) returns (r: Result<seq<Step>, Error>, ghost done: nat)
      requires Ascending(log)
      modifies this
      ensures done <= |log| && rows == After(old(rows), ctx, log, done) && NoneStops(old(rows), ctx, log, done)
      ensures r.Success? ==> done == |log| && Reports(r.value, old(rows), ctx, log, done)
      ensures r.Failure? ==> done < |log| && Stops(old(rows), ctx, log[done]) && r.error == StopError(old(rows), ctx, log[done])
    {
      done := 0;
      var report: seq<Step> := [];
      for i := 0 to |log|
        invariant rows == After(old(rows), ctx, log, i)
        invariant Through(report, old(rows), ctx, log, i)
      {
        var step := ApplyNext(ctx, log, i, old(rows));
        if step.Failure? {
          return Failure(step.error), i;
        }
        ThroughOn(report, old(rows), ctx, log, i);
        report := report + [step.value];
      }
      return Success(report), |log|;
    }

    /** `migrate`: one transaction per changeset. It succeeds exactly when the
        changelog is ordered and the preview lists nothing that stops a run, and
        then its report is the preview with WouldApply read as Applied. Otherwise
        it fails at the first one that does, keeping every step before it. */
    method Migrate(ctx: Context, log: seq<Changeset>) returns (r: Result<seq<Step>, Error>, ghost done: nat)
      modifies this
      ensures done <= |log| && rows == After(old(rows), ctx, log, done) && NoneStops(old(rows), ctx, log, done)
      ensures !Ascending(log) ==>
                r.Failure? && r.error.Disordered? && VersionOrder.Names(Versions(log), r.error.error) && done == 0
      ensures r.Success? <==> Ascending(log) && done == |log|
      ensures Ascending(log) && r.Failure? ==>
                done < |log| && Stops(old(rows), ctx, log[done]) && r.error == StopError(old(rows), ctx, log[done])
      ensures r.Success? ==> Reports(r.value, old(rows), ctx, log, |log|)
      ensures r.Success? ==> forall i :: 0 <= i < |log| ==> Told(old(rows), ctx, log[i], r.value[i])
    {
      var error := VersionOrder.AssertOrder(Versions(log));
      if error.Some? {
        return Failure(Disordered(error.value)), 0;
      }
      r, done := ApplyAll(ctx, log);
      if r.Success? {
        ReportTells(r.value, old(rows), ctx, log, |log|);
      }
    }
  }

  lemma {:induction false} AppliedStays(rows: Rows, ctx: Context, log: seq<Changeset>, n: nat, i: nat)
    requires Ascending(log) && i < n <= |log| && Matches(ctx, log[i]) && !Stops(rows, ctx, log[i])
    ensures log[i].version in After(rows, ctx, log, n)
    ensures After(rows, ctx, log, n)[log[i].version].checksum == log[i].checksum
  {
    if i < n - 1 {
      AppliedStays(rows, ctx, log, n - 1, i);
    } else {
      PreviewHolds(rows, ctx, log, i);
    }
  }

  /** After a run that got through, nothing is left to apply: a second run with the
      same context changes no history row and reports only skips. */
  lemma {:induction false} SecondRunAppliesNothing(rows: Rows, ctx: Context, log: seq<Changeset>, n: nat)
    requires Ascending(log) && n <= |log| && NoneStops(rows, ctx, log, |log|)
    ensures var done := After(rows, ctx, log, |log|);
            && After(done, ctx, log, n) == done
            && forall i :: 0 <= i < n ==>
                 Previewed(done, ctx, log[i]) == (if Matches(ctx, log[i]) then SkippedAlreadyApplied else SkippedContext)
  {
    if n > 0 {
      SecondRunAppliesNothing(rows, ctx, log, n - 1);
      if Matches(ctx, log[n - 1]) {
        AppliedStays(rows, ctx, log, |log|, n - 1);
      }
    }
  }
}
