/** Guarantees of whole execution runs: the progress-stream contract, and the
    conservation of files when an allocated plan is executed. */
module ExecutionTheorems {
  import opened Strings
  import opened Paths
  import opened Operations
  import opened Filesystem
  import opened Journal
  import opened Execution
  import opened Allocator
  import opened AllocatorTheorems

  // ----- When a loop does not return -----

  /** Task construction fails to return a task exactly in these cases: a Copy
      operation without a target, or a relocation onto an existing path under the
      prompt policy, or under auto-rename with every conflict name in use. */
  lemma StuckExactly(op: MatchOperation, files: Files, policy: Policy)
    ensures var task := Build(op, files, policy);
            var relocates := op.target.Some? && (op.mode == Copy || op.requiresRelocation);
            && (task.Hangs? <==> relocates && op.target.value in files && policy == Prompt)
            && (task.Panics? <==>
                 || (op.mode == Copy && op.target.None?)
                 || (relocates && op.target.value in files && policy == AutoRename
                     && forall j | 1 <= j < 1000 :: ConflictPath(op.target.value, j) in files))
  {
  }

  /** An attempt gets stuck exactly when its backup, if any, succeeds and its task cannot
      be built; then the loop it is in does not return, and emits nothing more. */
  lemma StuckStops(env: Env, op: MatchOperation, r: Run, a: AuditRun, i: nat, total: nat)
    requires r.core == a.core && r.stop.None? && a.stop.None?
    ensures var (c, backedUp) := AfterBackup(env, r.core, op, i);
            var task := Build(op, c.disk.files, env.policy);
            var stuck := backedUp && (task.Panics? || task.Hangs?);
            var r', a' := ExecStep(env, r, op, i, total), AuditStep(env, a, op, i, total);
            && (r'.stop == Some(NoReturn) <==> stuck)
            && (a'.stop == Some(AuditNoReturn) <==> stuck && !env.cancelled(i))
            && (stuck ==> r'.core.entries == r.core.entries && r'.events == r.events && a'.events == a.events)
  {
    hide Build, RunTask, RunBackup, EntryOf, SaveTrace;
  }

  // ----- What one success records -----

  /** For every plan, policy and fault: the entry of a successful operation names the
      path its task was built for. A relocation that does not skip is recorded at a path
      that was absent, and its content is there afterwards; the planned target is
      recorded when it was absent or the policy skips, and an in-place rename at the new
      name beside its source. Kind, size and backup follow the operation. */
  lemma RecordedExactly(env: Env, op: MatchOperation, c: Core, i: nat)
    requires Attempt(env, c, op, i).1 in {Applied, SaveFailed}
    ensures var files, after := AfterBackup(env, c, op, i).0.disk.files, Attempt(env, c, op, i).0.disk.files;
            var src, entries := op.subtitle.path, Attempt(env, c, op, i).0.entries;
            var relocates := op.target.Some? && (op.mode == Copy || op.requiresRelocation);
            && |entries| == |c.entries| + 1
            && var e := entries[|c.entries|];
               && e.source == src
               && (relocates && env.policy != Skip ==>
                     && e.destination !in files
                     && (src in files ==> e.destination in after && after[e.destination] == files[src]))
               && (relocates && (op.target.value !in files || env.policy == Skip) ==> e.destination == op.target.value)
               && (!relocates ==> e.destination == Path(src.dir, op.newName))
               && e.kind == (match op.mode case Copy => Copied case Move => Moved case InPlace => Renamed)
               && e.backup == (if op.mode == Move && env.backups then Some(BackupPath(op.subtitle)) else None)
               && e.size == (if e.destination in after then |after[e.destination]|
                             else if src in files then |files[src]| else 0)
  {
    hide Attempt, RunTask, FreeName, BackupPath;
    BuiltPath(op, AfterBackup(env, c, op, i).0.disk.files, env.policy);
    AttemptRecords(env, c, op, i);
    var files := AfterBackup(env, c, op, i).0.disk.files;
    var task := Build(op, files, env.policy);
    hide Build;
    LandsAbsent(task, files, env.taskFate(i));
  }

  lemma BuiltPath(op: MatchOperation, files: Files, policy: Policy)
    ensures var task := Build(op, files, policy);
            var relocates := op.target.Some? && (op.mode == Copy || op.requiresRelocation);
            task.RenameTask? || task.CopyTask? ==>
              && task.src == op.subtitle.path && (task.CopyTask? <==> op.mode == Copy)
              && (relocates && policy != Skip ==> task.dst !in files)
              && (relocates && (op.target.value !in files || policy == Skip) ==> task.dst == op.target.value)
              && (!relocates ==> task.dst == Path(op.subtitle.path.dir, op.newName))
  {
    hide FreeFrom;
  }

  /** A successful task lands at its destination when that was absent. */
  lemma LandsAbsent(task: Construction, files: Files, fate: Fate)
    requires task.RenameTask? || task.CopyTask?
    ensures var run := RunTask(task, files, fate);
            run.ok && task.dst !in files && task.src in files ==>
              task.dst in run.files && run.files[task.dst] == files[task.src]
  {
    hide FreeFrom;
  }

  lemma AttemptRecords(env: Env, c: Core, op: MatchOperation, i: nat)
    requires Attempt(env, c, op, i).1 in {Applied, SaveFailed}
    ensures var c1, c' := AfterBackup(env, c, op, i).0, Attempt(env, c, op, i).0;
            var task := Build(op, c1.disk.files, env.policy);
            && (task.RenameTask? || task.CopyTask?)
            && var run := RunTask(task, c1.disk.files, env.taskFate(i));
               var backup := if WantsBackup(env, op) then Some(BackupPath(op.subtitle)) else None;
               && run.ok && c'.disk.files == run.files
               && c'.entries == c.entries + [EntryOf(op, task, backup, c1.disk.files, run.files)]
  {
    hide Build, RunTask, RunBackup, EntryOf, BackupPath, SaveEntries;
    var c1 := AfterBackup(env, c, op, i).0;
    var run := RunTask(Build(op, c1.disk.files, env.policy), c1.disk.files, env.taskFate(i));
    SaveKeeps(env, SetFiles(c1, run.files, |c1.entries| + 1), i);
  }

  // ----- Progress stream of the aborting loop -----

  function Advances(n: nat, total: nat): seq<Event> {
    seq(n, i requires 0 <= i < n => Advanced(i + 1, total, None))
  }

  lemma {:induction false} ExecProgress(env: Env, ops: seq<MatchOperation>, disk: Disk, k: nat)
    requires k <= |ops|
    ensures var r := ExecUpTo(env, ops, disk, k);
            && r.events == [Started(|ops|)] + Advances(r.completed, |ops|)
            && (if r.stop.None? then r.completed == k else r.completed < k)
  {
    hide Attempt;
    if k > 0 {
      ExecProgress(env, ops, disk, k - 1);
      var r := ExecUpTo(env, ops, disk, k - 1);
      var n := |ops|;
      assert Advances(r.completed + 1, n) == Advances(r.completed, n) + [Advanced(r.completed + 1, n, None)];
      assert [Started(n)] + Advances(r.completed + 1, n)
          == [Started(n)] + Advances(r.completed, n) + [Advanced(r.completed + 1, n, None)];
    }
  }

  /** Whenever the aborting loop returns, its stream is one Started, Advanced with
      1..k, then one Finished(k, total), and k < total exactly when it stopped on
      an error. */
  lemma ExecStreamContract(env: Env, ops: seq<MatchOperation>, disk: Disk)
    ensures var r := Exec(env, ops, disk);
            r.stop != Some(NoReturn) ==>
              && r.events == [Started(|ops|)] + Advances(r.completed, |ops|) + [Finished(r.completed, |ops|)]
              && r.completed <= |ops|
              && (r.completed < |ops| <==> r.stop.Some?)
  {
    ExecProgress(env, ops, disk, |ops|);
  }

  // ----- Conservation of an allocated plan -----

  /** What planning and a run of the allocator without exhaustion establish about
      the files present, plus: no operation targets its own source. */
  ghost predicate GoodPlan(plan: seq<MatchOperation>, files: Files) {
    && UniqueAndFresh(plan, files.Keys)
    && forall op | op in plan ::
         && Consistent(op) && CopyHasTarget(op)
         && op.subtitle.path in files && FinalTarget(op) != op.subtitle.path
  }

  function Vacated(ops: seq<MatchOperation>): set<Path> {
    set op | op in ops && op.mode != Copy :: op.subtitle.path
  }

  /** `now` is `start` with the done operations carried out at once: their sources
      are gone if they moved, their targets hold the initial source contents, and
      every other path is as it was. Only the targets of failed operations, fresh
      paths all, are left open. */
  ghost predicate CarriedOut(start: Files, now: Files, done: seq<MatchOperation>, failed: seq<MatchOperation>) {
    && (forall p | p !in Candidates(done) && p !in Candidates(failed) ::
          && (p in now <==> p in start && p !in Vacated(done))
          && (p in now ==> now[p] == start[p]))
    && (forall op | op in done ::
          && FinalTarget(op) in now && op.subtitle.path in start
          && now[FinalTarget(op)] == start[op.subtitle.path])
  }

  ghost predicate Among(ops: seq<MatchOperation>, plan: seq<MatchOperation>, k: nat) {
    k <= |plan| && forall op | op in ops :: op in plan[..k]
  }

  lemma FreshTarget(plan: seq<MatchOperation>, start: Files, now: Files,
                    done: seq<MatchOperation>, failed: seq<MatchOperation>, k: nat)
    requires GoodPlan(plan, start) && k < |plan|
    requires Among(done, plan, k) && Among(failed, plan, k) && CarriedOut(start, now, done, failed)
    ensures FinalTarget(plan[k]) !in start && FinalTarget(plan[k]) !in now
    ensures FinalTarget(plan[k]) !in Candidates(done) && FinalTarget(plan[k]) !in Candidates(failed)
    ensures plan[k].subtitle.path !in Candidates(done) && plan[k].subtitle.path !in Candidates(failed)
    ensures plan[k].subtitle.path in now ==> now[plan[k].subtitle.path] == start[plan[k].subtitle.path]
  {
  }

  lemma DoneStep(start: Files, now: Files,
                 done: seq<MatchOperation>, failed: seq<MatchOperation>, op: MatchOperation)
    requires CarriedOut(start, now, done, failed)
    requires op.subtitle.path in now && op.subtitle.path in start && now[op.subtitle.path] == start[op.subtitle.path]
    requires FinalTarget(op) !in now
    requires op.subtitle.path !in Candidates(done) && op.subtitle.path !in Candidates(failed)
    requires FinalTarget(op) !in Candidates(done)
    ensures CarriedOut(start, Landed(op, now), done + [op], failed)
  {
  }

  /** The files once the operation has landed at its planned path. */
  function Landed(op: MatchOperation, files: Files): Files
    requires op.subtitle.path in files
  {
    if op.mode == Copy then files[FinalTarget(op) := files[op.subtitle.path]]
    else MoveTo(files, op.subtitle.path, FinalTarget(op))
  }

  lemma FailedStep(start: Files, now: Files, done: seq<MatchOperation>, failed: seq<MatchOperation>,
                   op: MatchOperation, after: Files)
    requires CarriedOut(start, now, done, failed)
    requires FinalTarget(op) !in Candidates(done)
    requires after - {FinalTarget(op)} == now - {FinalTarget(op)}
    ensures CarriedOut(start, after, done, failed + [op])
  {
    var dst := FinalTarget(op);
    assert Candidates(failed + [op]) == Candidates(failed) + {dst};
    forall p | p != dst
      ensures p in after <==> p in now
      ensures p in now ==> after[p] == now[p]
    {
      assert p in after - {dst} <==> p in after;
      assert p in now - {dst} <==> p in now;
      assert p in now ==> (after - {dst})[p] == (now - {dst})[p];
    }
    forall d | d in done ensures FinalTarget(d) != dst { assert FinalTarget(d) in Candidates(done); }
  }

  /** A task built for an absent target: success lands the file exactly there,
      failure touches at most that path. */
  lemma PlannedTask(env: Env, op: MatchOperation, files: Files, i: nat)
    requires Consistent(op) && CopyHasTarget(op) && FinalTarget(op) !in files && op.subtitle.path in files
    ensures var task := Build(op, files, env.policy);
            && (if op.mode == Copy then task.CopyTask? else task.RenameTask?)
            && task.src == op.subtitle.path && task.dst == FinalTarget(op)
    ensures var run := RunTask(Build(op, files, env.policy), files, env.taskFate(i));
            if run.ok then run.files == Landed(op, files)
            else run.files - {FinalTarget(op)} == files - {FinalTarget(op)}
  {
  }

  /** Same, for a source that has gone missing: the task fails. */
  lemma MissingSourceTask(env: Env, op: MatchOperation, files: Files, i: nat)
    requires Consistent(op) && CopyHasTarget(op) && FinalTarget(op) != op.subtitle.path
    requires FinalTarget(op) !in files && op.subtitle.path !in files
    ensures var task := Build(op, files, env.policy);
            && (if op.mode == Copy then task.CopyTask? else task.RenameTask?)
            && task.src == op.subtitle.path && task.dst == FinalTarget(op)
    ensures var run := RunTask(Build(op, files, env.policy), files, env.taskFate(i));
            !run.ok && run.files - {FinalTarget(op)} == files - {FinalTarget(op)}
  {
  }

  /** The core `c'` continues `c`: its later disk states hold the given files. */
  ghost predicate Continues(c: Core, c': Core, files: Files, applied: nat) {
    && c'.disk.files == files
    && |c.history| <= |c'.history| && c'.history[..|c.history|] == c.history
    && forall j | |c.history| <= j < |c'.history| ::
         c'.history[j].disk.files == files && c'.history[j].applied == applied
  }

  lemma SaveContinues(env: Env, c: Core, files: Files, entries: seq<JournalEntry>, i: nat)
    ensures var c2 := SetFiles(c, files, |entries|).(entries := entries);
            var (c', v) := SaveEntries(env, c2, i);
            Continues(c, c', files, |entries|) && c'.entries == entries && v in {Applied, SaveFailed}
  {
    var c2 := SetFiles(c, files, |entries|).(entries := entries);
    var blob := Whole(env.header, entries);
    SaveIsAtomic(c2.disk, blob, env.saveFate(i));
    var c' := SaveEntries(env, c2, i).0;
    if env.journalResolves {
      var trace := SaveTrace(c2.disk, blob, env.saveFate(i));
      assert c'.history == c2.history + Snapshots(trace, |entries|);
      forall j | |c2.history| <= j < |c'.history|
        ensures c'.history[j].disk.files == files && c'.history[j].applied == |entries|
      {
        assert c'.history[j] == Snapshots(trace, |entries|)[j - |c2.history|];
        assert trace[j - |c2.history|] in trace;
      }
    }
  }

  /** One planned operation: it never meets an existing target, is built for
      exactly its planned path, and either lands there or leaves at most a leftover
      on that fresh path. */
  lemma AttemptCarriesOut(env: Env, plan: seq<MatchOperation>, start: Files, c: Core,
                          done: seq<MatchOperation>, failed: seq<MatchOperation>, k: nat)
    requires GoodPlan(plan, start) && k < |plan| && !env.backups
    requires Among(done, plan, k) && Among(failed, plan, k) && CarriedOut(start, c.disk.files, done, failed)
    ensures FinalTarget(plan[k]) !in c.disk.files
    ensures var (c', v) := Attempt(env, c, plan[k], k);
            v in {Applied, TaskFailed, SaveFailed} && Continues(c, c', c'.disk.files, |c'.entries|)
    ensures var (c', v) := Attempt(env, c, plan[k], k);
            if v == TaskFailed then
              c'.entries == c.entries && CarriedOut(start, c'.disk.files, done, failed + [plan[k]])
            else
              && |c'.entries| == |c.entries| + 1 && c'.entries[..|c.entries|] == c.entries
              && EntryMatches(c'.entries[|c.entries|], plan[k], start)
              && CarriedOut(start, c'.disk.files, done + [plan[k]], failed)
  {
    hide Attempt, RunTask, Build, SaveEntries, CarriedOut, Continues;
    var op, files := plan[k], c.disk.files;
    assert op in plan;
    FreshTarget(plan, start, files, done, failed, k);
    if op.subtitle.path in files { PlannedTask(env, op, files, k); } else { MissingSourceTask(env, op, files, k); }
    var task := Build(op, files, env.policy);
    var run := RunTask(task, files, env.taskFate(k));
    AttemptShape(env, c, op, k);
    if run.ok {
      DoneStep(start, files, done, failed, op);
      SaveContinues(env, c, run.files, c.entries + [EntryOf(op, task, None, files, run.files)], k);
    } else {
      FailedStep(start, files, done, failed, op, run.files);
      SetFilesContinues(c, run.files);
    }
  }

  lemma SetFilesContinues(c: Core, files: Files)
    ensures Continues(c, SetFiles(c, files, |c.entries|), files, |c.entries|)
  {
  }

  lemma AttemptShape(env: Env, c: Core, op: MatchOperation, k: nat)
    requires !env.backups
    requires Build(op, c.disk.files, env.policy).RenameTask? || Build(op, c.disk.files, env.policy).CopyTask?
    ensures var task := Build(op, c.disk.files, env.policy);
            var run := RunTask(task, c.disk.files, env.taskFate(k));
            var entries := c.entries + [EntryOf(op, task, None, c.disk.files, run.files)];
            Attempt(env, c, op, k) ==
              if !run.ok then (SetFiles(c, run.files, |c.entries|), TaskFailed)
              else SaveEntries(env, SetFiles(c, run.files, |entries|).(entries := entries), k)
  {
  }

  /** The entry names the operation's source, planned target and kind, and the size
      the file had to begin with. */
  predicate EntryMatches(e: JournalEntry, op: MatchOperation, start: Files) {
    && e.kind == (match op.mode case InPlace => Renamed case Copy => Copied case Move => Moved)
    && e.source == op.subtitle.path && e.destination == FinalTarget(op) && e.backup == None
    && op.subtitle.path in start && e.size == |start[op.subtitle.path]|
  }

  /** The disk state is the one the plan prescribes after the successes so far, but for
      a leftover of the operation that failed next. */
  ghost predicate FollowsPlan(plan: seq<MatchOperation>, start: Files, h: Snapshot) {
    && h.applied <= |plan|
    && (|| CarriedOut(start, h.disk.files, plan[..h.applied], [])
        || (h.applied < |plan| && CarriedOut(start, h.disk.files, plan[..h.applied], [plan[h.applied]])))
  }

  ghost predicate EntriesMatch(entries: seq<JournalEntry>, ops: seq<MatchOperation>, start: Files) {
    && |entries| == |ops|
    && forall i | 0 <= i < |ops| :: EntryMatches(entries[i], ops[i], start)
  }

  ghost predicate ExecFollows(plan: seq<MatchOperation>, start: Files, r: Run) {
    var m := |r.core.entries|;
    && r.stop != Some(NoReturn) && m <= |plan|
    && r.completed == (if r.stop == Some(SaveError) then m - 1 else m)
    && (r.stop == Some(TaskError) ==> m < |plan|)
    && CarriedOut(start, r.core.disk.files, plan[..m], if r.stop == Some(TaskError) then [plan[m]] else [])
    && EntriesMatch(r.core.entries, plan[..m], start)
    && forall h | h in r.core.history :: FollowsPlan(plan, start, h)
  }

  lemma ExecStepFollows(env: Env, plan: seq<MatchOperation>, start: Files, r: Run, k: nat)
    requires GoodPlan(plan, start) && k < |plan| && !env.backups
    requires ExecFollows(plan, start, r) && r.stop.None? && |r.core.entries| == k
    ensures ExecFollows(plan, start, ExecStep(env, r, plan[k], k, |plan|))
    ensures var r' := ExecStep(env, r, plan[k], k, |plan|);
            r'.stop.None? ==> |r'.core.entries| == k + 1
  {
    hide Attempt, CarriedOut;
    AttemptCarriesOut(env, plan, start, r.core, plan[..k], [], k);
    var (c, v) := Attempt(env, r.core, plan[k], k);
    assert plan[..k + 1] == plan[..k] + [plan[k]];
    assert [] + [plan[k]] == [plan[k]];
    forall h | h in c.history
      ensures FollowsPlan(plan, start, h)
    {
      var j :| 0 <= j < |c.history| && c.history[j] == h;
      if j < |r.core.history| {
        assert r.core.history[j] == c.history[..|r.core.history|][j] == h;
      }
    }
  }

  lemma StartFollows(plan: seq<MatchOperation>, disk: Disk)
    ensures CarriedOut(disk.files, disk.files, plan[..0], [])
    ensures EntriesMatch([], plan[..0], disk.files)
  {
  }

  lemma {:induction false} ExecConserves(env: Env, plan: seq<MatchOperation>, disk: Disk, k: nat)
    requires GoodPlan(plan, disk.files) && k <= |plan| && !env.backups
    ensures ExecFollows(plan, disk.files, ExecUpTo(env, plan, disk, k))
    ensures ExecUpTo(env, plan, disk, k).stop.None? ==> |ExecUpTo(env, plan, disk, k).core.entries| == k
  {
    hide Attempt, ExecStep, CarriedOut;
    if k == 0 {
      StartFollows(plan, disk);
    } else {
      ExecConserves(env, plan, disk, k - 1);
      var r := ExecUpTo(env, plan, disk, k - 1);
      if r.stop.None? {
        ExecStepFollows(env, plan, disk.files, r, k - 1);
      }
    }
  }

  /** Plan, then execute. For every batch, environment and policy, with backups
      off: the run always returns; every target is absent when its task runs; and at every
      instant the files are the initial ones with exactly the operations applied
      so far carried out at their planned paths, save for a leftover on the fresh
      target of the operation that failed. The journal names those operations in
      order. */
  lemma PlanThenExecuteConserves(env: Env, ops: seq<MatchOperation>, disk: Disk)
    requires NoExhaustion(ops, disk.files.Keys) && !env.backups
    requires forall op | op in ops :: Consistent(op) && CopyHasTarget(op) && op.subtitle.path in disk.files
    requires forall op | op in Allocate(ops, disk.files.Keys) :: FinalTarget(op) != op.subtitle.path
    ensures var plan := Allocate(ops, disk.files.Keys);
            var r := Exec(env, plan, disk);
            var m := |r.core.entries|;
            && r.stop != Some(NoReturn) && m <= |plan|
            && r.completed == (if r.stop == Some(SaveError) then m - 1 else m)
            && (r.stop.None? ==> m == |plan|) && (r.stop == Some(TaskError) ==> m < |plan|)
            && CarriedOut(disk.files, r.core.disk.files, plan[..m], if r.stop == Some(TaskError) then [plan[m]] else [])
            && EntriesMatch(r.core.entries, plan[..m], disk.files)
            && forall h | h in r.core.history :: FollowsPlan(plan, disk.files, h)
  {
    AllocatedPlanIsGood(ops, disk.files);
    ExecConserves(env, Allocate(ops, disk.files.Keys), disk, |ops|);
  }

  lemma AllocatedPlanIsGood(ops: seq<MatchOperation>, files: Files)
    requires NoExhaustion(ops, files.Keys)
    requires forall op | op in ops :: Consistent(op) && CopyHasTarget(op) && op.subtitle.path in files
    requires forall op | op in Allocate(ops, files.Keys) :: FinalTarget(op) != op.subtitle.path
    ensures GoodPlan(Allocate(ops, files.Keys), files)
  {
    var plan := Allocate(ops, files.Keys);
    UniqueExactlyWithoutExhaustion(ops, files.Keys);
    forall op | op in plan
      ensures Consistent(op) && CopyHasTarget(op) && op.subtitle.path in files
    {
      var i :| 0 <= i < |plan| && plan[i] == op;
      AllocatedAt(ops, files.Keys, Rank(ops, i));
      assert ops[i] in ops;
    }
  }

  /** The exclusion of self-targets is needed, and exact: when every call succeeds,
      an operation whose target is absent or its own source lands as planned if and
      only if the target is not its own source, but for an empty file copied onto
      itself. */
  lemma LandsExactly(env: Env, op: MatchOperation, c: Core, i: nat)
    requires Consistent(op) && CopyHasTarget(op) && op.subtitle.path in c.disk.files
    requires FinalTarget(op) in c.disk.files ==> FinalTarget(op) == op.subtitle.path
    requires !env.backups && env.taskFate(i) == Succeeds && env.saveFate(i).SaveOk?
    ensures var src := op.subtitle.path;
            var (c', v) := Attempt(env, c, op, i);
            (v == Applied && c'.disk.files == Landed(op, c.disk.files))
            <==> (FinalTarget(op) != src || (op.mode == Copy && env.policy == Skip && c.disk.files[src] == []))
  {
    hide Attempt, SaveEntries, FreeName, AfterSave, SaveTrace;
    var files, src := c.disk.files, op.subtitle.path;
    var task := Build(op, files, env.policy);
    if task.RenameTask? || task.CopyTask? {
      var run := RunTask(task, files, env.taskFate(i));
      AttemptShape(env, c, op, i);
      var entries := c.entries + [EntryOf(op, task, None, files, run.files)];
      SaveContinues(env, c, run.files, entries, i);
      SaveSucceeds(env, SetFiles(c, run.files, |entries|).(entries := entries), i);
      SelfLanding(op, files);
    } else {
      AttemptStuck(env, c, op, i);
    }
  }

  lemma AttemptStuck(env: Env, c: Core, op: MatchOperation, i: nat)
    requires !env.backups
    requires Build(op, c.disk.files, env.policy).Panics? || Build(op, c.disk.files, env.policy).Hangs?
    ensures Attempt(env, c, op, i).1 == Stuck
  {
    hide Build, RunTask, SaveEntries;
  }

  lemma SaveSucceeds(env: Env, c: Core, i: nat)
    requires env.saveFate(i).SaveOk?
    ensures SaveEntries(env, c, i).1 == Applied
  {
  }

  /** On a self-target, staying put is the only planned result. */
  lemma SelfLanding(op: MatchOperation, files: Files)
    requires op.subtitle.path in files
    ensures FinalTarget(op) == op.subtitle.path ==> Landed(op, files) == files
  {
  }

  /** Where a self-target goes instead: an in-place operation moves the file to a
      numbered name, and the journal records the planned path. */
  lemma SelfTargetLeavesPlan(env: Env, op: MatchOperation, c: Core, i: nat)
    requires op.mode == InPlace && Consistent(op) && !op.requiresRelocation
    requires FinalTarget(op) == op.subtitle.path && op.subtitle.path in c.disk.files
    requires env.taskFate(i) == Succeeds && FreeName(c.disk.files, op.subtitle.path).Some?
    ensures var (c', v) := Attempt(env, c, op, i);
            && v in {Applied, SaveFailed}
            && op.subtitle.path !in c'.disk.files
            && c'.entries[|c'.entries| - 1].destination == op.subtitle.path
  {
  }

  // ----- Backups -----

  /** What the journal records as the backup of a moved file. The backup never
      overwrites: when its planned path is taken it goes to a numbered name, yet the
      journal still names the planned path. So after a successful move that path
      holds the file's content exactly if it was free, or held that content already. */
  lemma BackupRecordedExactly(env: Env, op: MatchOperation, c: Core, i: nat)
    requires op.mode == Move && env.backups && op.subtitle.path in c.disk.files
    requires Attempt(env, c, op, i).1 in {Applied, SaveFailed}
    ensures var src, backup := op.subtitle.path, BackupPath(op.subtitle);
            var before, c' := c.disk.files, Attempt(env, c, op, i).0;
            && |c'.entries| == |c.entries| + 1
            && c'.entries[|c.entries|].backup == Some(backup)
            && ((backup in c'.disk.files && c'.disk.files[backup] == before[src])
                <==> (backup !in before || (backup != src && before[backup] == before[src])))
  {
    hide BackupPath, FreeName, Attempt, RunRename, Build;
    BackedUpMove(env, op, c, i);
    var src, backup, before := op.subtitle.path, BackupPath(op.subtitle), c.disk.files;
    var made := RunBackup(before, src, backup, env.backupFate(i)).files;
    var dst := Build(op, made, env.policy).dst;
    RenameTouches(made, src, dst, env.taskFate(i), backup);
    RenameTouches(made, src, dst, env.taskFate(i), src);
  }

  /** A successful move with backup: the files after the backup, then after the
      rename, and the entry appended. */
  lemma BackedUpMove(env: Env, op: MatchOperation, c: Core, i: nat)
    requires op.mode == Move && env.backups && Attempt(env, c, op, i).1 in {Applied, SaveFailed}
    ensures var src, backup := op.subtitle.path, BackupPath(op.subtitle);
            var made := RunBackup(c.disk.files, src, backup, env.backupFate(i));
            var task := Build(op, made.files, env.policy);
            && made.ok && task.RenameTask? && task.src == src
            && var run := RunRename(made.files, src, task.dst, env.taskFate(i));
               var c' := Attempt(env, c, op, i).0;
               && run.ok && c'.disk.files == run.files
               && |c'.entries| == |c.entries| + 1 && c'.entries[|c.entries|].backup == Some(backup)
  {
    hide RunBackup, RunRename, BackupPath, SaveEntries, ResolveConflict;
    var made := RunBackup(c.disk.files, op.subtitle.path, BackupPath(op.subtitle), env.backupFate(i));
    var run := RunTask(Build(op, made.files, env.policy), made.files, env.taskFate(i));
    SaveKeeps(env, SetFiles(SetFiles(c, made.files, |c.entries|), run.files, |c.entries| + 1), i);
  }

  lemma SaveKeeps(env: Env, c: Core, i: nat)
    ensures forall entries :: var c' := SaveEntries(env, c.(entries := entries), i).0;
              c'.disk.files == c.disk.files && c'.entries == entries
  {
    forall entries
      ensures var c' := SaveEntries(env, c.(entries := entries), i).0;
              c'.disk.files == c.disk.files && c'.entries == entries
    {
      SaveIsAtomic(c.disk, Whole(env.header, entries), env.saveFate(i));
    }
  }

  // ----- Contents survive -----

  /** A copy task is built onto an existing path only under the skip policy. */
  lemma CopyTargetIsFresh(op: MatchOperation, files: Files, policy: Policy)
    ensures var task := Build(op, files, policy);
            task.CopyTask? ==> op.mode == Copy && (policy == Skip || task.dst !in files)
  {
  }

  lemma AttemptKeeps(env: Env, c: Core, op: MatchOperation, i: nat)
    requires op.mode != Copy || env.policy != Skip
    ensures Keeps(c.disk.files, Attempt(env, c, op, i).0.disk.files)
  {
    hide Build, RunRename, RunCopy, RunBackup, BackupPath, SaveEntries;
    var (c1, backedUp) := AfterBackup(env, c, op, i);
    BackupKeeps(c.disk.files, op.subtitle.path, BackupPath(op.subtitle), env.backupFate(i));
    var files1 := c1.disk.files;
    assert Keeps(c.disk.files, files1);
    var task := Build(op, files1, env.policy);
    CopyTargetIsFresh(op, files1, env.policy);
    if backedUp && (task.RenameTask? || task.CopyTask?) {
      if task.RenameTask? {
        RenameKeeps(files1, task.src, task.dst, env.taskFate(i));
      } else {
        CopyKeepsExactly(files1, task.src, task.dst, env.taskFate(i));
      }
      var run := RunTask(task, files1, env.taskFate(i));
      SaveKeeps(env, SetFiles(c1, run.files, |c1.entries| + 1), i);
    }
  }

  /** Neither loop ever loses a content, unless a batch copies under the skip policy:
      no allocation and no fault is assumed, and backups may be on. */
  lemma {:induction false} BatchKeepsContents(env: Env, ops: seq<MatchOperation>, disk: Disk, k: nat)
    requires k <= |ops| && forall op | op in ops :: op.mode != Copy || env.policy != Skip
    ensures Keeps(disk.files, ExecUpTo(env, ops, disk, k).core.disk.files)
    ensures Keeps(disk.files, AuditUpTo(env, ops, disk, k).core.disk.files)
  {
    hide Attempt;
    if k > 0 {
      BatchKeepsContents(env, ops, disk, k - 1);
      var r, a := ExecUpTo(env, ops, disk, k - 1), AuditUpTo(env, ops, disk, k - 1);
      AttemptKeeps(env, r.core, ops[k - 1], k - 1);
      AttemptKeeps(env, a.core, ops[k - 1], k - 1);
    }
  }

  /** The skip policy announces that it skips and overwrites instead: a copy, failed or
      not, keeps every content exactly if its target was absent or untouched, or holds
      what it held, or another file does. */
  lemma SkipKeepsExactly(env: Env, op: MatchOperation, c: Core, i: nat)
    requires op.mode == Copy && op.target.Some? && env.policy == Skip
    ensures var files, t := c.disk.files, op.target.value;
            var w := CopiedBytes(files, op.subtitle.path, t, env.taskFate(i));
            Keeps(files, Attempt(env, c, op, i).0.disk.files)
            <==> (t !in files || w.None? || w.value == files[t]
                  || exists p | p in files :: p != t && files[p] == files[t])
  {
    hide SaveEntries, RunRename, RunCopy, CopiedBytes;
    CopyKeepsExactly(c.disk.files, op.subtitle.path, op.target.value, env.taskFate(i));
    var run := RunCopy(c.disk.files, op.subtitle.path, op.target.value, env.taskFate(i));
    SaveKeeps(env, SetFiles(c, run.files, |c.entries| + 1), i);
  }
}
