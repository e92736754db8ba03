/** Replaying a cached plan: the freshness checks establish what execution relies on,
    so the replay conserves files like the original run; and what a replay makes of a
    run that was interrupted. */
module Replay {
  import opened Operations
  import opened Filesystem
  import opened Execution
  import opened Allocator
  import opened AllocatorTheorems
  import opened ExecutionTheorems
  import PlanCache

  /** Rebuilt operations are planned ones whose two files are present. */
  lemma {:induction false} RebuiltShape(items: seq<PlanCache.OpItem>, mode: RelocationMode, disk: PlanCache.Disk)
    ensures forall op | op in PlanCache.Rebuild(items, mode, disk) :: Consistent(op) && op.subtitle.path in disk
  {
    if items != [] {
      RebuiltShape(items[..|items| - 1], mode, disk);
    }
  }

  lemma {:induction false} PresentFrom(plan: seq<MatchOperation>, disk: PlanCache.Disk)
    ensures forall op | op in PlanCache.Present(plan, disk) :: op in plan
  {
    if plan != [] {
      PresentFrom(plan[..|plan| - 1], disk);
    }
  }

  /** A plan saved after an allocation without exhaustion and rebuilt later, if the
      target check comes back empty and no rebuilt operation is a targetless copy or a
      self-target, meets every precondition of execution on the later files. */
  lemma CheckedReplayIsGood(key: string, ops: seq<MatchOperation>, mode: RelocationMode,
                            disk: PlanCache.Disk, later: PlanCache.Disk, files: Files)
    requires forall op | op in ops :: PlanCache.Planned(op, mode)
    requires NoExhaustion(ops, disk.Keys) && files.Keys == later.Keys
    ensures var cache := PlanCache.Saved(key, Allocate(ops, disk.Keys), mode, disk);
            var rebuilt := PlanCache.Rebuild(cache.items, mode, later);
            PlanCache.Conflicts(cache.items, cache.originalMode, later) == []
            && (forall op | op in rebuilt :: CopyHasTarget(op) && FinalTarget(op) != op.subtitle.path)
            ==> GoodPlan(rebuilt, files)
  {
    hide Allocate, PlanCache.Rebuild, PlanCache.Conflicts, PlanCache.Present, PlanCache.Planned, FinalTarget;
    hide PlanCache.Snapshot, PlanCache.FilesOf;
    var plan := Allocate(ops, disk.Keys);
    var cache := PlanCache.Saved(key, plan, mode, disk);
    var rebuilt, kept := PlanCache.Rebuild(cache.items, mode, later), PlanCache.Present(plan, later);
    PlanCache.AllocationKeepsShape(ops, mode, disk.Keys);
    PlanCache.CachedPlanAgrees(key, ops, mode, disk, later);
    PlanCache.ConflictsOfPlan(plan, mode, later);
    RebuiltShape(cache.items, mode, later);
    PresentFrom(plan, later);
    if PlanCache.Conflicts(cache.items, cache.originalMode, later) == [] {
      forall i | 0 <= i < |rebuilt|
        ensures FinalTarget(rebuilt[i]) in files ==> FinalTarget(rebuilt[i]) == rebuilt[i].subtitle.path
      {
        assert kept[i] in plan;
        assert PlanCache.SameOperation(rebuilt[i], kept[i]);
      }
    }
  }

  /** Replaying such a plan always returns, carries out exactly the completed operations
      at their planned paths, at every instant, and journals them in order. */
  lemma CheckedReplayConserves(env: Env, key: string, ops: seq<MatchOperation>, mode: RelocationMode,
                               disk: PlanCache.Disk, later: PlanCache.Disk, now: Journal.Disk)
    requires forall op | op in ops :: PlanCache.Planned(op, mode)
    requires NoExhaustion(ops, disk.Keys) && now.files.Keys == later.Keys && !env.backups
    ensures var cache := PlanCache.Saved(key, Allocate(ops, disk.Keys), mode, disk);
            var rebuilt := PlanCache.Rebuild(cache.items, mode, later);
            PlanCache.Conflicts(cache.items, cache.originalMode, later) == []
            && (forall op | op in rebuilt :: CopyHasTarget(op) && FinalTarget(op) != op.subtitle.path)
            ==> var r := Exec(env, rebuilt, now);
                ExecFollows(rebuilt, now.files, r) && (r.stop.None? ==> |r.core.entries| == |rebuilt|)
  {
    hide GoodPlan, ExecUpTo, CarriedOut, FollowsPlan, EntriesMatch, Allocate;
    hide PlanCache.Rebuild, PlanCache.Conflicts, PlanCache.Saved, PlanCache.Planned;
    CheckedReplayIsGood(key, ops, mode, disk, later, now.files);
    var cache := PlanCache.Saved(key, Allocate(ops, disk.Keys), mode, disk);
    var rebuilt := PlanCache.Rebuild(cache.items, mode, later);
    if GoodPlan(rebuilt, now.files) {
      ExecConserves(env, rebuilt, now, |rebuilt|);
    }
  }

  // ----- Resuming an interrupted run -----

  /** Each subtitle is handled once, and the videos stay where they are. */
  ghost predicate OneOperationEach(plan: seq<MatchOperation>, start: Files) {
    && (forall i, j | 0 <= i < j < |plan| :: plan[i].subtitle.path != plan[j].subtitle.path)
    && (forall op | op in plan :: op.video.path in start)
    && (forall op, other | op in plan && other in plan :: op.video.path != other.subtitle.path)
  }

  function Copies(ops: seq<MatchOperation>): seq<MatchOperation> {
    if ops == [] then []
    else Copies(ops[..|ops| - 1]) + if ops[|ops| - 1].mode == Copy then [ops[|ops| - 1]] else []
  }

  /** After the first `m` operations were carried out, an operation's files are both
      present exactly if it is still to come or was a copy. */
  lemma StillPresent(plan: seq<MatchOperation>, start: Files, now: Files, m: nat, i: nat)
    requires GoodPlan(plan, start) && OneOperationEach(plan, start) && i < |plan|
    requires m <= |plan| && CarriedOut(start, now, plan[..m], [])
    ensures plan[i].video.path in now
    ensures plan[i].subtitle.path in now <==> i >= m || plan[i].mode == Copy
    ensures plan[i].subtitle.path in now ==> now[plan[i].subtitle.path] == start[plan[i].subtitle.path]
  {
    var done, op := plan[..m], plan[i];
    assert op in plan;
    forall d | d in done
      ensures d in plan && FinalTarget(d) !in start
    {
    }
    forall p | p in start
      ensures p !in Candidates(done)
    {
    }
    forall d | d in done && d.subtitle.path == op.subtitle.path
      ensures d == op && i < m
    {
      var j :| 0 <= j < m && plan[j] == d;
      assert j == i;
    }
    if i < m { assert op in done; }
  }

  lemma {:induction false} PresentUpTo(plan: seq<MatchOperation>, disk: PlanCache.Disk, m: nat, k: nat)
    requires k <= |plan| && m <= |plan|
    requires forall i | 0 <= i < |plan| ::
               plan[i].video.path in disk && (plan[i].subtitle.path in disk <==> i >= m || plan[i].mode == Copy)
    ensures var n := if k < m then k else m;
            PlanCache.Present(plan[..k], disk) == Copies(plan[..n]) + plan[n..k]
  {
    hide PlanCache.Present, Copies;
    Steps(plan, disk, k);
    if k > 0 {
      PresentUpTo(plan, disk, m, k - 1);
      if k > m {
        assert plan[m..k] == plan[m..k - 1] + [plan[k - 1]];
        Reassociate(Copies(plan[..m]), plan[m..k - 1], [plan[k - 1]]);
      } else {
        assert plan[k..k] == [] && plan[k - 1..k - 1] == [];
      }
    } else {
      assert plan[..0] == [] && plan[0..0] == [];
    }
  }

  lemma Steps(plan: seq<MatchOperation>, disk: PlanCache.Disk, k: nat)
    requires k <= |plan|
    ensures PlanCache.Present([], disk) == [] && Copies([]) == []
    ensures k > 0 ==>
              var op := plan[k - 1];
              && PlanCache.Present(plan[..k], disk)
                 == PlanCache.Present(plan[..k - 1], disk)
                    + (if op.video.path in disk && op.subtitle.path in disk then [op] else [])
              && Copies(plan[..k]) == Copies(plan[..k - 1]) + if op.mode == Copy then [op] else []
  {
    assert k > 0 ==> plan[..k][..k - 1] == plan[..k - 1];
  }

  lemma Reassociate(a: seq<MatchOperation>, b: seq<MatchOperation>, c: seq<MatchOperation>)
    ensures (a + b) + c == a + (b + c)
  {
  }

  /** What a rebuild finds after an interruption: the operations still to come, preceded
      by the copies already made. So completed operations are skipped exactly if none of
      them was a copy. */
  lemma InterruptedPlan(plan: seq<MatchOperation>, start: Files, now: Files, m: nat, disk: PlanCache.Disk)
    requires GoodPlan(plan, start) && OneOperationEach(plan, start)
    requires m <= |plan| && CarriedOut(start, now, plan[..m], []) && disk.Keys == now.Keys
    ensures PlanCache.Present(plan, disk) == Copies(plan[..m]) + plan[m..]
    ensures PlanCache.Present(plan, disk) == plan[m..] <==> forall op | op in plan[..m] :: op.mode != Copy
  {
    hide CarriedOut, GoodPlan, OneOperationEach, Copies, PlanCache.Present;
    forall i | 0 <= i < |plan|
      ensures plan[i].video.path in disk && (plan[i].subtitle.path in disk <==> i >= m || plan[i].mode == Copy)
    {
      StillPresent(plan, start, now, m, i);
      assert forall p :: p in disk.Keys <==> p in now.Keys;
    }
    PresentUpTo(plan, disk, m, |plan|);
    assert plan[..|plan|] == plan && plan[m..|plan|] == plan[m..];
    NoCopies(plan[..m]);
    assert [] + plan[m..] == plan[m..];
    assert |Copies(plan[..m]) + plan[m..]| == |Copies(plan[..m])| + |plan[m..]|;
  }

  lemma {:induction false} NoCopies(ops: seq<MatchOperation>)
    ensures Copies(ops) == [] <==> forall op | op in ops :: op.mode != Copy
  {
    if ops != [] {
      NoCopies(ops[..|ops| - 1]);
      assert ops == ops[..|ops| - 1] + [ops[|ops| - 1]];
    }
  }

  /** The rest of an interrupted plan is again a good plan for the files as they are. */
  lemma RestIsGood(plan: seq<MatchOperation>, start: Files, now: Files, m: nat)
    requires GoodPlan(plan, start) && OneOperationEach(plan, start)
    requires m <= |plan| && CarriedOut(start, now, plan[..m], [])
    ensures GoodPlan(plan[m..], now)
  {
    var rest := plan[m..];
    forall i | 0 <= i < |rest|
      ensures FinalTarget(rest[i]) !in now && rest[i].subtitle.path in now
      ensures Consistent(rest[i]) && CopyHasTarget(rest[i]) && FinalTarget(rest[i]) != rest[i].subtitle.path
    {
      assert rest[i] == plan[m + i] && plan[m + i] in plan;
      StillPresent(plan, start, now, m, m + i);
      forall d | d in plan[..m]
        ensures FinalTarget(d) != FinalTarget(rest[i])
      {
        var j :| 0 <= j < m && plan[j] == d;
      }
    }
  }

  /** Carrying out the beginning of a plan and then the rest carries out the plan. */
  lemma RunsCompose(plan: seq<MatchOperation>, start: Files, now: Files, end: Files, m: nat)
    requires GoodPlan(plan, start) && OneOperationEach(plan, start)
    requires m <= |plan| && CarriedOut(start, now, plan[..m], []) && CarriedOut(now, end, plan[m..], [])
    ensures CarriedOut(start, end, plan, [])
  {
    hide CarriedOut, GoodPlan, OneOperationEach;
    OthersCompose(plan, start, now, end, m);
    forall op | op in plan
      ensures FinalTarget(op) in end && op.subtitle.path in start
      ensures end[FinalTarget(op)] == start[op.subtitle.path]
    {
      var i :| 0 <= i < |plan| && plan[i] == op;
      TargetComposes(plan, start, now, end, m, i);
    }
    Assemble(plan, start, end);
  }

  ghost predicate OthersUntouched(start: Files, end: Files, plan: seq<MatchOperation>) {
    forall p | p !in Candidates(plan) ::
      && (p in end <==> p in start && p !in Vacated(plan))
      && (p in end ==> end[p] == start[p])
  }

  lemma Assemble(plan: seq<MatchOperation>, start: Files, end: Files)
    requires OthersUntouched(start, end, plan)
    requires forall op | op in plan ::
               FinalTarget(op) in end && op.subtitle.path in start && end[FinalTarget(op)] == start[op.subtitle.path]
    ensures CarriedOut(start, end, plan, [])
  {
    assert Candidates([]) == {};
  }

  lemma OthersCompose(plan: seq<MatchOperation>, start: Files, now: Files, end: Files, m: nat)
    requires m <= |plan| && CarriedOut(start, now, plan[..m], []) && CarriedOut(now, end, plan[m..], [])
    ensures OthersUntouched(start, end, plan)
  {
    hide FinalTarget;
    var first, rest := plan[..m], plan[m..];
    assert plan == first + rest && Candidates([]) == {};
    assert Candidates(plan) == Candidates(first) + Candidates(rest);
    assert Vacated(plan) == Vacated(first) + Vacated(rest);
  }

  lemma TargetComposes(plan: seq<MatchOperation>, start: Files, now: Files, end: Files, m: nat, i: nat)
    requires GoodPlan(plan, start) && OneOperationEach(plan, start) && i < |plan|
    requires m <= |plan| && CarriedOut(start, now, plan[..m], []) && CarriedOut(now, end, plan[m..], [])
    ensures var op := plan[i];
            FinalTarget(op) in end && op.subtitle.path in start && end[FinalTarget(op)] == start[op.subtitle.path]
  {
    hide GoodPlan, OneOperationEach, FinalTarget, Vacated, Candidates;
    if i < m {
      assert plan[i] in plan[..m];
      FirstTargetStays(plan, start, m, i);
      NoneFailed();
    } else {
      assert plan[i] in plan[m..] by { assert plan[m..][i - m] == plan[i]; }
      StillPresent(plan, start, now, m, i);
      InStart(plan, start, i);
    }
  }

  lemma NoneFailed()
    ensures Candidates([]) == {}
  {
  }

  lemma InStart(plan: seq<MatchOperation>, start: Files, i: nat)
    requires GoodPlan(plan, start) && i < |plan|
    ensures plan[i].subtitle.path in start
  {
    assert plan[i] in plan;
  }

  lemma FirstTargetStays(plan: seq<MatchOperation>, start: Files, m: nat, i: nat)
    requires GoodPlan(plan, start) && i < m <= |plan|
    ensures FinalTarget(plan[i]) !in Candidates(plan[m..]) && FinalTarget(plan[i]) !in Vacated(plan[m..])
  {
    forall op | op in plan[m..]
      ensures FinalTarget(op) != FinalTarget(plan[i]) && op.subtitle.path != FinalTarget(plan[i])
    {
      var k :| m <= k < |plan| && plan[k] == op;
      assert plan[i] in plan && op in plan;
    }
  }

  ghost predicate SameOperations(a: seq<MatchOperation>, b: seq<MatchOperation>) {
    |a| == |b| && forall i | 0 <= i < |a| :: PlanCache.SameOperation(a[i], b[i])
  }

  lemma SameGood(a: seq<MatchOperation>, b: seq<MatchOperation>, files: Files)
    requires SameOperations(a, b) && GoodPlan(b, files)
    ensures GoodPlan(a, files)
  {
    forall i | 0 <= i < |a|
      ensures FinalTarget(a[i]) == FinalTarget(b[i]) && b[i] in b
    {
      assert PlanCache.SameOperation(a[i], b[i]);
    }
    forall op | op in a
      ensures Consistent(op) && CopyHasTarget(op) && op.subtitle.path in files && FinalTarget(op) != op.subtitle.path
    {
      var i :| 0 <= i < |a| && a[i] == op;
      assert PlanCache.SameOperation(a[i], b[i]);
    }
  }

  lemma SameCarriedOut(a: seq<MatchOperation>, b: seq<MatchOperation>, start: Files, end: Files)
    requires SameOperations(a, b) && CarriedOut(start, end, a, [])
    ensures CarriedOut(start, end, b, [])
  {
    forall i | 0 <= i < |a|
      ensures FinalTarget(a[i]) == FinalTarget(b[i]) && a[i].subtitle.path == b[i].subtitle.path
      ensures a[i].mode == b[i].mode && a[i] in a && b[i] in b
    {
      assert PlanCache.SameOperation(a[i], b[i]);
    }
    SamePaths(a, b);
    NoneFailed();
    forall op | op in b
      ensures FinalTarget(op) in end && op.subtitle.path in start && end[FinalTarget(op)] == start[op.subtitle.path]
    {
      var i :| 0 <= i < |b| && b[i] == op;
      assert a[i] in a;
    }
  }

  lemma SamePaths(a: seq<MatchOperation>, b: seq<MatchOperation>)
    requires |a| == |b|
    requires forall i | 0 <= i < |a| ::
               && FinalTarget(a[i]) == FinalTarget(b[i])
               && a[i].subtitle.path == b[i].subtitle.path && a[i].mode == b[i].mode
    ensures Candidates(a) == Candidates(b) && Vacated(a) == Vacated(b)
  {
    hide FinalTarget;
    PathsWithin(a, b);
    PathsWithin(b, a);
  }

  lemma PathsWithin(a: seq<MatchOperation>, b: seq<MatchOperation>)
    requires |a| == |b|
    requires forall i | 0 <= i < |a| ::
               && FinalTarget(a[i]) == FinalTarget(b[i])
               && a[i].subtitle.path == b[i].subtitle.path && a[i].mode == b[i].mode
    ensures Candidates(a) <= Candidates(b) && Vacated(a) <= Vacated(b)
  {
    hide FinalTarget;
    forall op | op in a
      ensures FinalTarget(op) in Candidates(b)
      ensures op.mode != Copy ==> op.subtitle.path in Vacated(b)
    {
      var i :| 0 <= i < |a| && a[i] == op;
      assert b[i] in b;
    }
  }

  /** Replaying a plan without copies after an interruption at any point: what is rebuilt
      is exactly the operations still to come, and a replay that completes leaves the
      files as if the plan had been executed without interruption. */
  lemma ResumeCompletes(env: Env, key: string, ops: seq<MatchOperation>, plan: seq<MatchOperation>,
                        mode: RelocationMode, disk: PlanCache.Disk, later: PlanCache.Disk,
                        start: Files, now: Journal.Disk, m: nat)
    requires mode != Copy && !env.backups && forall op | op in ops :: PlanCache.Planned(op, mode)
    requires plan == Allocate(ops, disk.Keys)
    requires GoodPlan(plan, start) && OneOperationEach(plan, start)
    requires m <= |plan| && CarriedOut(start, now.files, plan[..m], []) && later.Keys == now.files.Keys
    ensures var rebuilt := PlanCache.Rebuild(PlanCache.Saved(key, plan, mode, disk).items, mode, later);
            var r := Exec(env, rebuilt, now);
            && SameOperations(rebuilt, plan[m..])
            && ExecFollows(rebuilt, now.files, r)
            && (r.stop.None? ==> CarriedOut(start, r.core.disk.files, plan, []))
  {
    hide GoodPlan, OneOperationEach, ExecUpTo, CarriedOut, FollowsPlan, EntriesMatch, Allocate, SameOperations;
    hide PlanCache.Rebuild, PlanCache.Saved, PlanCache.Present;
    var rebuilt := PlanCache.Rebuild(PlanCache.Saved(key, plan, mode, disk).items, mode, later);
    PlanCache.AllocationKeepsShape(ops, mode, disk.Keys);
    InterruptedPlan(plan, start, now.files, m, later);
    assert forall op | op in plan[..m] :: op in plan;
    RebuiltSame(key, ops, mode, disk, later);
    RestIsGood(plan, start, now.files, m);
    SameGood(rebuilt, plan[m..], now.files);
    ExecConserves(env, rebuilt, now, |rebuilt|);
    var r := Exec(env, rebuilt, now);
    if r.stop.None? {
      assert rebuilt[..|rebuilt|] == rebuilt;
      SameCarriedOut(rebuilt, plan[m..], now.files, r.core.disk.files);
      RunsCompose(plan, start, now.files, r.core.disk.files, m);
    }
  }

  lemma RebuiltSame(key: string, ops: seq<MatchOperation>, mode: RelocationMode,
                    disk: PlanCache.Disk, later: PlanCache.Disk)
    requires forall op | op in ops :: PlanCache.Planned(op, mode)
    ensures var plan := Allocate(ops, disk.Keys);
            SameOperations(PlanCache.Rebuild(PlanCache.Saved(key, plan, mode, disk).items, mode, later),
                           PlanCache.Present(plan, later))
  {
    hide Allocate, PlanCache.Rebuild, PlanCache.Present, PlanCache.Planned;
    PlanCache.CachedPlanAgrees(key, ops, mode, disk, later);
  }
}
