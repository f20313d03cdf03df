/** Job history retention (internal/repository/jobs.go): delete finished jobs by age,
    then by rank within their kind.
 */
module Jobs {
  import opened Ranking

  type Id = nat

  datatype Job = Job(kind: string, status: string, created: int) {
    /** Finished. Anything else is live work and is never touched. */
    predicate Terminal() { status in {"completed", "done", "failed", "cancelled"} }
  }

  /** An AI run, and whether a proposal made from it still waits for review. */
  datatype AiRun = AiRun(status: string, started: int, pending: bool) {
    predicate Expendable() { status in {"completed", "failed", "skipped"} && !pending }
  }

  /** The limits; zero or less switches one off. */
  datatype PruneOpts = PruneOpts(maxAgeDays: int, maxPerKind: int)

  datatype PruneResult = PruneResult(jobsDeleted: nat, aiRunsDeleted: nat)

  const DAY := 86400

  function Cutoff(now: int, opts: PruneOpts): int { now - opts.maxAgeDays * DAY }

  // ---- the statements ----------------------------------------------------------

  /** The rows the age delete names. */
  function TooOld(jobs: map<Id, Job>, cutoff: int): set<Id> {
    set i | i in jobs && jobs[i].Terminal() && jobs[i].created < cutoff
  }

  /** One partition of the ranking: the finished jobs of a kind. */
  function Finished(jobs: map<Id, Job>, kind: string): set<Id> {
    set i | i in jobs && jobs[i].Terminal() && jobs[i].kind == kind
  }

  /** The rows the rank delete names: finished, and past the first `limit` of their kind. */
  function TooMany(jobs: map<Id, Job>, newer: (Id, Id) -> bool, limit: nat): set<Id> {
    set i | i in jobs && jobs[i].Terminal() && i !in First(Finished(jobs, jobs[i].kind), newer, limit)
  }

  function TooOldRuns(runs: map<Id, AiRun>, cutoff: int): set<Id> {
    set i | i in runs && runs[i].Expendable() && runs[i].started < cutoff
  }

  function PruneRuns(runs: map<Id, AiRun>, now: int, opts: PruneOpts): map<Id, AiRun> {
    if opts.maxAgeDays > 0 then runs - TooOldRuns(runs, Cutoff(now, opts)) else runs
  }

  function Prune(jobs: map<Id, Job>, newer: (Id, Id) -> bool, now: int, opts: PruneOpts): map<Id, Job> {
    var young := if opts.maxAgeDays > 0 then jobs - TooOld(jobs, Cutoff(now, opts)) else jobs;
    if opts.maxPerKind > 0 then young - TooMany(young, newer, opts.maxPerKind) else young
  }

  class JobRepo {
    var jobs: map<Id, Job>
    var runs: map<Id, AiRun>

    /** `newer` is the order ROW_NUMBER uses: created_at descending, ties any way. */
    method PruneHistory(newer: (Id, Id) -> bool, now: int, opts: PruneOpts) returns (res: PruneResult)
      modifies this
      ensures jobs == Prune(old(jobs), newer, now, opts)
      ensures runs == PruneRuns(old(runs), now, opts)
      ensures res.jobsDeleted == |old(jobs)| - |jobs| && res.aiRunsDeleted == |old(runs)| - |runs|
    {
      var jobsDeleted, aiRunsDeleted := 0, 0;
      if opts.maxAgeDays > 0 {
        var old_ := TooOld(jobs, Cutoff(now, opts));
        DeleteCounts(jobs, old_);
        jobs, jobsDeleted := jobs - old_, jobsDeleted + |old_|;
        var oldRuns := TooOldRuns(runs, Cutoff(now, opts));
        DeleteCounts(runs, oldRuns);
        runs, aiRunsDeleted := runs - oldRuns, aiRunsDeleted + |oldRuns|;
      }
      if opts.maxPerKind > 0 {
        var many := TooMany(jobs, newer, opts.maxPerKind);
        DeleteCounts(jobs, many);
        jobs, jobsDeleted := jobs - many, jobsDeleted + |many|;
      }
      res := PruneResult(jobsDeleted, aiRunsDeleted);
    }
  }

  lemma DeleteCounts<T>(rows: map<Id, T>, gone: set<Id>)
    requires gone <= rows.Keys
    ensures |rows - gone| == |rows| - |gone|
  {
    assert (rows - gone).Keys == rows.Keys - gone;
    assert rows.Keys == (rows.Keys - gone) + gone;
  }

  // ---- one rule ----------------------------------------------------------------

  /** A way the server may number the rows: newest first, ties settled somehow. */
  ghost predicate NewestFirst(jobs: map<Id, Job>, newer: (Id, Id) -> bool) {
    && StrictOrder(newer, jobs.Keys)
    && forall a, b :: a in jobs && b in jobs && jobs[a].created > jobs[b].created ==> newer(a, b)
  }

  /** A job stays unless it is finished and outside a limit, both judged on the table
      as it was. */
  ghost predicate Stays(jobs: map<Id, Job>, newer: (Id, Id) -> bool, now: int, opts: PruneOpts, i: Id)
    requires i in jobs
  {
    jobs[i].Terminal() ==>
      && (opts.maxAgeDays > 0 ==> jobs[i].created >= Cutoff(now, opts))
      && (opts.maxPerKind > 0 ==> i in First(Finished(jobs, jobs[i].kind), newer, opts.maxPerKind))
  }

  /** Two deletes in a row are one rule on the original table: what the age delete
      takes away ranks behind everything it leaves, so the second delete's ranks are
      the original ones. In particular no unfinished job is ever removed. */
  lemma PruneIsOneRule(jobs: map<Id, Job>, newer: (Id, Id) -> bool, now: int, opts: PruneOpts, i: Id)
    requires NewestFirst(jobs, newer) && i in jobs
    ensures var after := Prune(jobs, newer, now, opts);
            && (i in after <==> Stays(jobs, newer, now, opts, i))
            && (i in after ==> after[i] == jobs[i])
  {
    if opts.maxAgeDays > 0 && opts.maxPerKind > 0 {
      var young := jobs - TooOld(jobs, Cutoff(now, opts));
      YoungRanks(jobs, newer, Cutoff(now, opts), opts.maxPerKind, jobs[i].kind);
    }
  }

  lemma YoungRanks(jobs: map<Id, Job>, newer: (Id, Id) -> bool, cutoff: int, limit: nat, kind: string)
    requires NewestFirst(jobs, newer)
    ensures var young := Finished(jobs - TooOld(jobs, cutoff), kind);
            && young == Finished(jobs, kind) - TooOld(jobs, cutoff)
            && First(young, newer, limit) == First(Finished(jobs, kind), newer, limit) * young
  {
    var all := Finished(jobs, kind);
    var young := Finished(jobs - TooOld(jobs, cutoff), kind);
    assert young == all - TooOld(jobs, cutoff);
    forall x, y | x in young && y in all - young ensures !newer(y, x) {
      assert jobs[x].created > jobs[y].created && newer(x, y);
      assert newer(y, x) ==> newer(x, x);
    }
    FirstOfStretch(all, newer, limit, young);
  }

  /** At a fixed cutoff a second sweep finds nothing to do. */
  lemma SweepingTwiceIsSweepingOnce(jobs: map<Id, Job>, newer: (Id, Id) -> bool, now: int, opts: PruneOpts)
    requires NewestFirst(jobs, newer)
    ensures var after := Prune(jobs, newer, now, opts);
            Prune(after, newer, now, opts) == after
  {
    var after := Prune(jobs, newer, now, opts);
    assert forall i :: i in after ==> i in jobs && after[i] == jobs[i];
    forall i | i in after ensures Stays(after, newer, now, opts, i) {
      PruneIsOneRule(jobs, newer, now, opts, i);
      if jobs[i].Terminal() && opts.maxPerKind > 0 {
        var mine := Finished(after, jobs[i].kind);
        var all := Finished(jobs, jobs[i].kind);
        assert mine <= all;
        assert Ahead(mine, newer, i) <= Ahead(all, newer, i);
        SubsetIsSmaller(Ahead(mine, newer, i), Ahead(all, newer, i));
      }
    }
    forall i | i in after ensures i in Prune(after, newer, now, opts) {
      PruneIsOneRule(after, newer, now, opts, i);
    }
  }

  /** And no kind is left with more finished jobs than its limit. */
  lemma KindsStayWithinLimit(jobs: map<Id, Job>, newer: (Id, Id) -> bool, now: int, opts: PruneOpts, kind: string)
    requires NewestFirst(jobs, newer) && opts.maxPerKind > 0
    ensures |Finished(Prune(jobs, newer, now, opts), kind)| <= opts.maxPerKind
  {
    var left := Finished(Prune(jobs, newer, now, opts), kind);
    var first := First(Finished(jobs, kind), newer, opts.maxPerKind);
    forall i | i in left ensures i in first {
      PruneIsOneRule(jobs, newer, now, opts, i);
    }
    FirstCount(Finished(jobs, kind), newer, opts.maxPerKind);
    SubsetIsSmaller(left, first);
  }

  // ---- the rule in full --------------------------------------------------------

  /** The jobs of a kind that are finished and newer than job i. */
  function NewerFinished(jobs: map<Id, Job>, newer: (Id, Id) -> bool, i: Id): set<Id>
    requires i in jobs
  {
    set j | j in jobs && jobs[j].status in ["completed", "done", "failed", "cancelled"]
            && jobs[j].kind == jobs[i].kind && newer(j, i)
  }

  /** Which jobs are left: those that have not finished, whatever their age and number; and
      of the finished those not older than the limit in days, when there is one, with
      fewer finished jobs of their kind newer than they are than the limit, when there
      is one. */
  lemma JobStaysIff(jobs: map<Id, Job>, newer: (Id, Id) -> bool, now: int, opts: PruneOpts, i: Id)
    requires NewestFirst(jobs, newer) && i in jobs
    ensures i in Prune(jobs, newer, now, opts)
       <==> jobs[i].status !in ["completed", "done", "failed", "cancelled"]
            || ((opts.maxAgeDays > 0 ==> now - jobs[i].created <= opts.maxAgeDays * 86400)
                && (opts.maxPerKind > 0 ==> |NewerFinished(jobs, newer, i)| < opts.maxPerKind))
  {
    PruneIsOneRule(jobs, newer, now, opts, i);
    if jobs[i].Terminal() {
      assert Ahead(Finished(jobs, jobs[i].kind), newer, i) == NewerFinished(jobs, newer, i);
    }
  }

  /** Which AI runs are left, as they were: those still going, those with a proposal waiting
      for review, and those that are not older than the limit. */
  lemma RunStaysIff(runs: map<Id, AiRun>, now: int, opts: PruneOpts, i: Id)
    requires i in runs
    ensures i in PruneRuns(runs, now, opts)
       <==> runs[i].status !in ["completed", "failed", "skipped"] || runs[i].pending
            || (opts.maxAgeDays > 0 ==> now - runs[i].started <= opts.maxAgeDays * 86400)
    ensures i in PruneRuns(runs, now, opts) ==> PruneRuns(runs, now, opts)[i] == runs[i]
  {
  }

  lemma LaterCutoff(now: int, later: int, opts: PruneOpts)
    requires now <= later
    ensures Cutoff(now, opts) <= Cutoff(later, opts)
  {
  }

  lemma StaysThroughBoth(jobs: map<Id, Job>, newer: (Id, Id) -> bool, now: int, later: int, opts: PruneOpts, i: Id)
    requires NewestFirst(jobs, newer) && now <= later && i in jobs
    ensures var after := Prune(jobs, newer, now, opts);
            i in Prune(after, newer, later, opts) <==> i in Prune(jobs, newer, later, opts)
  {
    var after := Prune(jobs, newer, now, opts);
    PruneIsOneRule(jobs, newer, now, opts, i);
    PruneIsOneRule(jobs, newer, later, opts, i);
    LaterCutoff(now, later, opts);
    if i in after {
      StillNewestFirst(jobs, newer, now, opts);
      PruneIsOneRule(after, newer, later, opts, i);
      if jobs[i].Terminal() && opts.maxPerKind > 0 {
        RanksOnlyImprove(jobs, newer, now, opts, i);
      }
    }
  }

  lemma StillNewestFirst(jobs: map<Id, Job>, newer: (Id, Id) -> bool, now: int, opts: PruneOpts)
    requires NewestFirst(jobs, newer)
    ensures NewestFirst(Prune(jobs, newer, now, opts), newer)
    ensures forall j :: j in Prune(jobs, newer, now, opts) ==> j in jobs && Prune(jobs, newer, now, opts)[j] == jobs[j]
  {
  }

  lemma RanksOnlyImprove(jobs: map<Id, Job>, newer: (Id, Id) -> bool, now: int, opts: PruneOpts, i: Id)
    requires NewestFirst(jobs, newer) && i in Prune(jobs, newer, now, opts) && jobs[i].Terminal() && opts.maxPerKind > 0
    ensures i in First(Finished(Prune(jobs, newer, now, opts), jobs[i].kind), newer, opts.maxPerKind)
    ensures i in First(Finished(jobs, jobs[i].kind), newer, opts.maxPerKind)
  {
    StillNewestFirst(jobs, newer, now, opts);
    PruneIsOneRule(jobs, newer, now, opts, i);
    var mine := Finished(Prune(jobs, newer, now, opts), jobs[i].kind);
    var all := Finished(jobs, jobs[i].kind);
    assert Ahead(mine, newer, i) <= Ahead(all, newer, i);
    SubsetIsSmaller(Ahead(mine, newer, i), Ahead(all, newer, i));
  }

  /** Sweeping now and again later leaves what sweeping only later would have left: a sweep
      that was missed is made good by the next. */
  lemma MissedSweepsAreMadeGood(
    jobs: map<Id, Job>, runs: map<Id, AiRun>, newer: (Id, Id) -> bool, now: int, later: int, opts: PruneOpts)
    requires NewestFirst(jobs, newer) && now <= later
    ensures Prune(Prune(jobs, newer, now, opts), newer, later, opts) == Prune(jobs, newer, later, opts)
    ensures PruneRuns(PruneRuns(runs, now, opts), later, opts) == PruneRuns(runs, later, opts)
  {
    var x, y := Prune(Prune(jobs, newer, now, opts), newer, later, opts), Prune(jobs, newer, later, opts);
    forall i ensures i in x <==> i in y {
      if i in jobs {
        StaysThroughBoth(jobs, newer, now, later, opts, i);
      }
    }
    assert forall i :: i in x ==> x[i] == jobs[i];
    assert forall i :: i in y ==> y[i] == jobs[i];
    assert x == y;
    RunsMadeGood(runs, now, later, opts);
  }

  lemma RunsMadeGood(runs: map<Id, AiRun>, now: int, later: int, opts: PruneOpts)
    requires now <= later
    ensures PruneRuns(PruneRuns(runs, now, opts), later, opts) == PruneRuns(runs, later, opts)
  {
    LaterCutoff(now, later, opts);
  }
}
