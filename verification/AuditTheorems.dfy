/** Guarantees of the audited loop: its stream and outcomes for every environment,
    and conservation of files when it runs an allocated plan. */
module AuditTheorems {
  import opened Strings
  import opened Operations
  import opened Filesystem
  import opened Journal
  import opened Execution
  import opened Allocator
  import opened AllocatorTheorems
  import opened ExecutionTheorems
  import opened JournalTheorems

  /** The operations whose outcome is `applied`, in order. */
  function AppliedOps(ops: seq<MatchOperation>, outcomes: seq<Outcome>): seq<MatchOperation>
    requires |outcomes| <= |ops|
  {
    if outcomes == [] then []
    else
      var n := |outcomes| - 1;
      AppliedOps(ops, outcomes[..n]) + if outcomes[n].applied then [ops[n]] else []
  }

  function FailedOps(ops: seq<MatchOperation>, outcomes: seq<Outcome>): seq<MatchOperation>
    requires |outcomes| <= |ops|
  {
    if outcomes == [] then []
    else
      var n := |outcomes| - 1;
      FailedOps(ops, outcomes[..n]) + if outcomes[n].failed then [ops[n]] else []
  }

  function NamedAdvances(ops: seq<MatchOperation>, k: nat): seq<Event>
    requires k <= |ops|
  {
    seq(k, i requires 0 <= i < k => Advanced(i + 1, |ops|, Some(ops[i].subtitle.path.name)))
  }

  /** What has happened when the loop has produced its outcomes so far. */
  ghost predicate AuditSoFar(env: Env, ops: seq<MatchOperation>, r: AuditRun) {
    var k := |r.outcomes|;
    && k <= |ops|
    && r.events == [Started(|ops|)] + NamedAdvances(ops, k)
    && (forall i | 0 <= i < k :: r.outcomes[i].applied != r.outcomes[i].failed && !env.cancelled(i))
    && (r.stop.Some? ==> k < |ops| && (env.cancelled(k) <==> r.stop == Some(Cancelled)))
    && SourcesMatch(r.core.entries,
                    AppliedOps(ops, r.outcomes) + if r.stop == Some(AuditSaveError) then [ops[k]] else [])
  }

  lemma {:induction false} AuditProgress(env: Env, ops: seq<MatchOperation>, disk: Disk, k: nat)
    requires k <= |ops|
    ensures AuditSoFar(env, ops, AuditUpTo(env, ops, disk, k))
    ensures AuditUpTo(env, ops, disk, k).stop.None? ==> |AuditUpTo(env, ops, disk, k).outcomes| == k
  {
    hide Attempt, AuditStep;
    if k > 0 {
      AuditProgress(env, ops, disk, k - 1);
      var r := AuditUpTo(env, ops, disk, k - 1);
      if r.stop.None? {
        AuditStepProgress(env, ops, r, k - 1);
      }
    }
  }

  lemma AuditStepProgress(env: Env, ops: seq<MatchOperation>, r: AuditRun, k: nat)
    requires k < |ops| && AuditSoFar(env, ops, r) && r.stop.None? && |r.outcomes| == k
    ensures var r' := AuditStep(env, r, ops[k], k, |ops|);
            AuditSoFar(env, ops, r') && (r'.stop.None? ==> |r'.outcomes| == k + 1)
  {
    hide Attempt;
    AttemptEntries(env, r.core, ops[k], k);
    var r' := AuditStep(env, r, ops[k], k, |ops|);
    var n := |ops|;
    assert NamedAdvances(ops, k + 1) == NamedAdvances(ops, k) + [Advanced(k + 1, n, Some(ops[k].subtitle.path.name))];
    assert [Started(n)] + NamedAdvances(ops, k + 1)
        == [Started(n)] + NamedAdvances(ops, k) + [Advanced(k + 1, n, Some(ops[k].subtitle.path.name))];
    if |r'.outcomes| == k + 1 {
      assert r'.outcomes[..k] == r.outcomes;
    }
  }

  lemma {:induction false} PaddingApplies(ops: seq<MatchOperation>, outcomes: seq<Outcome>, n: nat)
    requires |outcomes| + n <= |ops|
    ensures AppliedOps(ops, outcomes + Padding(n)) == AppliedOps(ops, outcomes)
    ensures FailedOps(ops, outcomes + Padding(n)) == FailedOps(ops, outcomes)
  {
    if n == 0 {
      assert outcomes + Padding(0) == outcomes;
    } else {
      PaddingApplies(ops, outcomes, n - 1);
      var all := outcomes + Padding(n);
      assert all[..|all| - 1] == outcomes + Padding(n - 1);
    }
  }

  /** The number of operations the audited loop gets through. */
  ghost function DoneCount(env: Env, ops: seq<MatchOperation>, disk: Disk): nat {
    |AuditUpTo(env, ops, disk, |ops|).outcomes|
  }

  /** For every environment in which the audited loop returns: one Started,
      Advanced 1..k naming the operations, one Finished(k, total). An Ok result has one
      outcome per operation, the first k either applied or failed, the rest neither;
      it falls short exactly when cancellation was requested, at the first request. A
      failed save leaves the outcomes before it. In every case the journal in memory
      names exactly the applied operations, in order, and after a failed save the one it
      was for. */
  lemma AuditContract(env: Env, ops: seq<MatchOperation>, disk: Disk)
    requires Audit(env, ops, disk).stop != Some(AuditNoReturn)
    ensures var r, k := Audit(env, ops, disk), DoneCount(env, ops, disk);
            && k <= |ops|
            && r.events == [Started(|ops|)] + NamedAdvances(ops, k) + [Finished(k, |ops|)]
            && |r.outcomes| == (if r.stop == Some(AuditSaveError) then k else |ops|)
            && (forall i | 0 <= i < k :: r.outcomes[i].applied != r.outcomes[i].failed && !env.cancelled(i))
            && (forall i | k <= i < |r.outcomes| :: r.outcomes[i] == Outcome(false, false))
            && (r.stop == Some(AuditSaveError) ==> k < |ops| && !env.cancelled(k))
            && (r.stop != Some(AuditSaveError) ==>
                  && (k < |ops| <==> exists i: nat :: i < |ops| && env.cancelled(i))
                  && (k < |ops| ==> env.cancelled(k)))
            && SourcesMatch(r.core.entries,
                            AppliedOps(ops, r.outcomes) + if r.stop == Some(AuditSaveError) then [ops[k]] else [])
  {
    hide AuditStep;
    var u := AuditUpTo(env, ops, disk, |ops|);
    AuditProgress(env, ops, disk, |ops|);
    if u.stop.Some? {
      match u.stop.value
      case Cancelled =>
      case AuditSaveError =>
      case AuditNoReturn =>
    }
    PaddingApplies(ops, u.outcomes, |ops| - |u.outcomes|);
    assert AppliedOps(ops, u.outcomes) + [] == AppliedOps(ops, u.outcomes);
  }

  // ----- Conservation -----

  lemma {:induction false} SelectedAmong(ops: seq<MatchOperation>, outcomes: seq<Outcome>)
    requires |outcomes| <= |ops|
    ensures Among(AppliedOps(ops, outcomes), ops, |outcomes|)
    ensures Among(FailedOps(ops, outcomes), ops, |outcomes|)
  {
    if outcomes != [] {
      SelectedAmong(ops, outcomes[..|outcomes| - 1]);
    }
  }

  /** The files are the initial ones with exactly the journalled operations carried
      out: those applied, and after a failed save the one it was for. The journal in
      memory records them in order; only the fresh targets of failed operations may
      hold leftovers. */
  ghost predicate AuditConserved(plan: seq<MatchOperation>, start: Files, r: AuditRun) {
    var k := |r.outcomes|;
    && k <= |plan| && (r.stop == Some(AuditSaveError) ==> k < |plan|)
    && var done := AppliedOps(plan, r.outcomes) + (if r.stop == Some(AuditSaveError) then [plan[k]] else []);
       && CarriedOut(start, r.core.disk.files, done, FailedOps(plan, r.outcomes))
       && EntriesMatch(r.core.entries, done, start)
  }

  /** The disk state with the first `j` outcomes in, and with operation `j` landed as
      well when `more` holds. */
  ghost predicate Stage(plan: seq<MatchOperation>, start: Files, outcomes: seq<Outcome>, h: Snapshot,
                        j: nat, more: bool)
  {
    && j <= |outcomes| <= |plan| && (more ==> j < |plan|)
    && var done := AppliedOps(plan, outcomes[..j]) + if more then [plan[j]] else [];
       && h.applied == |done|
       && CarriedOut(start, h.disk.files, done, FailedOps(plan, outcomes[..j]))
  }

  /** At this instant exactly the operations applied so far are carried out. */
  ghost predicate OnCourse(plan: seq<MatchOperation>, start: Files, outcomes: seq<Outcome>, h: Snapshot) {
    exists j: nat, more: bool :: Stage(plan, start, outcomes, h, j, more)
  }

  ghost predicate AuditFollows(plan: seq<MatchOperation>, start: Files, r: AuditRun) {
    && r.stop != Some(AuditNoReturn) && |r.outcomes| <= |plan|
    && (r.stop.Some? ==> |r.outcomes| < |plan|)
    && AuditConserved(plan, start, r)
    && forall h | h in r.core.history :: OnCourse(plan, start, r.outcomes, h)
  }

  /** Later outcomes do not change which stage a disk state belongs to. */
  lemma StageLasts(plan: seq<MatchOperation>, start: Files, outcomes: seq<Outcome>, later: seq<Outcome>, h: Snapshot)
    requires OnCourse(plan, start, outcomes, h) && outcomes <= later && |later| <= |plan|
    ensures OnCourse(plan, start, later, h)
  {
    hide CarriedOut;
    var j: nat, more: bool :| Stage(plan, start, outcomes, h, j, more);
    assert later[..j] == outcomes[..j];
    assert Stage(plan, start, later, h, j, more);
  }

  lemma AuditStepFollows(env: Env, plan: seq<MatchOperation>, start: Files, r: AuditRun, k: nat)
    requires GoodPlan(plan, start) && k < |plan| && !env.backups
    requires AuditFollows(plan, start, r) && r.stop.None? && |r.outcomes| == k
    ensures AuditFollows(plan, start, AuditStep(env, r, plan[k], k, |plan|))
  {
    hide Attempt, CarriedOut, OnCourse;
    var done, failed := AppliedOps(plan, r.outcomes), FailedOps(plan, r.outcomes);
    assert done + [] == done;
    SelectedAmong(plan, r.outcomes);
    var r' := AuditStep(env, r, plan[k], k, |plan|);
    if env.cancelled(k) {
    } else {
      AttemptCarriesOut(env, plan, start, r.core, done, failed, k);
      if |r'.outcomes| == k + 1 {
        assert r'.outcomes[..k] == r.outcomes;
        assert AppliedOps(plan, r'.outcomes) + [] == AppliedOps(plan, r'.outcomes);
        assert failed + [] == failed;
      }
      HistoryOnCourse(plan, start, r, r');
    }
  }

  /** The new disk states of one operation are the stage it ends in. */
  lemma HistoryOnCourse(plan: seq<MatchOperation>, start: Files, r: AuditRun, r': AuditRun)
    requires r.outcomes <= r'.outcomes && |r'.outcomes| <= |plan| && AuditConserved(plan, start, r')
    requires forall h | h in r.core.history :: OnCourse(plan, start, r.outcomes, h)
    requires Continues(r.core, r'.core, r'.core.disk.files, |r'.core.entries|)
    ensures forall h | h in r'.core.history :: OnCourse(plan, start, r'.outcomes, h)
  {
    hide CarriedOut;
    forall h | h in r'.core.history
      ensures OnCourse(plan, start, r'.outcomes, h)
    {
      var i :| 0 <= i < |r'.core.history| && r'.core.history[i] == h;
      if i < |r.core.history| {
        assert r.core.history[i] == r'.core.history[..|r.core.history|][i] == h;
        StageLasts(plan, start, r.outcomes, r'.outcomes, h);
      } else {
        assert r'.outcomes[..|r'.outcomes|] == r'.outcomes;
        assert Stage(plan, start, r'.outcomes, h, |r'.outcomes|, r'.stop == Some(AuditSaveError));
      }
    }
  }

  lemma AuditStartFollows(env: Env, plan: seq<MatchOperation>, disk: Disk)
    ensures AuditFollows(plan, disk.files, AuditUpTo(env, plan, disk, 0))
  {
    hide CarriedOut;
    StartFollows(plan, disk);
    assert plan[..0] == [] && AppliedOps(plan, []) + [] == [] && FailedOps(plan, []) == [];
    var no: seq<Outcome> := [];
    assert no[..0] == [];
    assert Stage(plan, disk.files, no, Snapshot(disk, 0), 0, false);
  }

  lemma {:induction false} AuditUpToFollows(env: Env, plan: seq<MatchOperation>, disk: Disk, k: nat)
    requires GoodPlan(plan, disk.files) && k <= |plan| && !env.backups
    ensures AuditFollows(plan, disk.files, AuditUpTo(env, plan, disk, k))
  {
    hide Attempt, AuditStep, AuditFollows, AuditSoFar, GoodPlan;
    if k == 0 {
      AuditStartFollows(env, plan, disk);
    } else {
      AuditUpToFollows(env, plan, disk, k - 1);
      AuditProgress(env, plan, disk, k - 1);
      var r := AuditUpTo(env, plan, disk, k - 1);
      if r.stop.None? {
        AuditStepFollows(env, plan, disk.files, r, k - 1);
      }
    }
  }

  lemma AuditConserves(env: Env, plan: seq<MatchOperation>, disk: Disk)
    requires GoodPlan(plan, disk.files) && !env.backups
    ensures var r := Audit(env, plan, disk);
            && r.stop != Some(AuditNoReturn)
            && (r.stop != Some(AuditSaveError) ==> |r.outcomes| == |plan|)
            && AuditConserved(plan, disk.files, r)
            && forall h | h in r.core.history :: OnCourse(plan, disk.files, r.outcomes, h)
  {
    hide AuditStep, CarriedOut, OnCourse;
    var u := AuditUpTo(env, plan, disk, |plan|);
    AuditUpToFollows(env, plan, disk, |plan|);
    AuditContract(env, plan, disk);
    PaddingApplies(plan, u.outcomes, |plan| - |u.outcomes|);
    assert AppliedOps(plan, u.outcomes) + [] == AppliedOps(plan, u.outcomes);
    var r := Audit(env, plan, disk);
    forall h | h in r.core.history
      ensures OnCourse(plan, disk.files, r.outcomes, h)
    {
      StageLasts(plan, disk.files, u.outcomes, r.outcomes, h);
    }
  }

  /** Plan, then execute with audit: failures do not disturb the others, whether the
      loop runs to the end, is cancelled, or stops at a failed save; and every disk state
      on the way is the initial one with the operations applied so far carried out. */
  lemma PlanThenAuditConserves(env: Env, ops: seq<MatchOperation>, plan: seq<MatchOperation>, disk: Disk)
    requires plan == Allocate(ops, disk.files.Keys)
    requires NoExhaustion(ops, disk.files.Keys) && !env.backups
    requires forall op | op in ops :: Consistent(op) && CopyHasTarget(op) && op.subtitle.path in disk.files
    requires forall op | op in plan :: FinalTarget(op) != op.subtitle.path
    ensures var r := Audit(env, plan, disk);
            && r.stop != Some(AuditNoReturn)
            && (r.stop != Some(AuditSaveError) ==> |r.outcomes| == |plan|)
            && AuditConserved(plan, disk.files, r)
            && forall h | h in r.core.history :: OnCourse(plan, disk.files, r.outcomes, h)
  {
    hide Audit, AuditConserved, OnCourse, GoodPlan;
    AllocatedPlanIsGood(ops, disk.files);
    AuditConserves(env, plan, disk);
  }
}
