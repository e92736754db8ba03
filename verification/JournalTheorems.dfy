/** What the journal is worth after a crash, at every instant of both execution loops:
    which operations it lists, and how far behind the disk it may be. */
module JournalTheorems {
  import opened Strings
  import opened Operations
  import opened Filesystem
  import opened Journal
  import opened Execution

  // ----- Which operations are listed -----

  predicate SourcesMatch(entries: seq<JournalEntry>, ops: seq<MatchOperation>) {
    && |entries| == |ops|
    && forall i | 0 <= i < |ops| :: entries[i].source == ops[i].subtitle.path
  }

  /** The journal grows by one entry, naming the operation's subtitle, exactly when
      the primary task succeeds. */
  lemma AttemptEntries(env: Env, c: Core, op: MatchOperation, i: nat)
    ensures var (c', v) := Attempt(env, c, op, i);
            if v in {Applied, SaveFailed} then
              && |c'.entries| == |c.entries| + 1 && c'.entries[..|c.entries|] == c.entries
              && c'.entries[|c.entries|].source == op.subtitle.path
            else c'.entries == c.entries
  {
    var (c1, backedUp) := AfterBackup(env, c, op, i);
    var task := Build(op, c1.disk.files, env.policy);
    BuildSource(op, c1.disk.files, env.policy);
    hide Build, RunTask, RunBackup;
  }

  lemma BuildSource(op: MatchOperation, files: Files, policy: Policy)
    ensures var task := Build(op, files, policy);
            task.RenameTask? || task.CopyTask? ==> task.src == op.subtitle.path
  {
  }

  /** In the aborting loop the entries are those of the leading operations, in order. */
  lemma {:induction false} ExecSources(env: Env, ops: seq<MatchOperation>, disk: Disk, k: nat)
    requires k <= |ops|
    ensures var r := ExecUpTo(env, ops, disk, k);
            && |r.core.entries| <= k && SourcesMatch(r.core.entries, ops[..|r.core.entries|])
            && (r.stop.None? ==> |r.core.entries| == k)
  {
    hide Attempt, ExecStep;
    if k > 0 {
      ExecSources(env, ops, disk, k - 1);
      var r := ExecUpTo(env, ops, disk, k - 1);
      if r.stop.None? {
        ExecStepSources(env, r, ops, k - 1);
      }
    }
  }

  lemma ExecStepSources(env: Env, r: Run, ops: seq<MatchOperation>, k: nat)
    requires k < |ops| && |r.core.entries| == k && SourcesMatch(r.core.entries, ops[..k])
    ensures var r' := ExecStep(env, r, ops[k], k, |ops|);
            && |r'.core.entries| <= k + 1 && SourcesMatch(r'.core.entries, ops[..|r'.core.entries|])
            && (r'.stop.None? ==> |r'.core.entries| == k + 1)
  {
    hide Attempt;
    AttemptEntries(env, r.core, ops[k], k);
  }

  // ----- What a crash may find -----

  /** `j` is a complete, synced record of the first `m` entries of the batch; with
      `m == 0` it is a journal from before the batch. */
  ghost predicate Holds(j: Option<JournalFile>, before: Disk, header: Header, entries: seq<JournalEntry>, m: nat) {
    && m <= |entries|
    && if m == 0 then j in AfterPowerLoss(before) else j == Some(JournalFile(Whole(header, entries[..m]), true))
  }

  ghost predicate HoldsAtMost(j: Option<JournalFile>, before: Disk, header: Header, entries: seq<JournalEntry>,
                              n: nat)
  {
    exists m: nat :: m <= n && Holds(j, before, header, entries, m)
  }

  /** The journal in place holds `n` entries, and no journal a power loss may bring back
      holds more. */
  ghost predicate UpTo(d: Disk, before: Disk, header: Header, entries: seq<JournalEntry>, n: nat) {
    && Holds(d.journal, before, header, entries, n) && (n == 0 ==> d.journal == before.journal)
    && forall j | j in AfterPowerLoss(d) :: HoldsAtMost(j, before, header, entries, n)
  }

  /** The journal in place is at most one successful task behind the disk, and after a
      power loss it is a record of some of the first successes. */
  ghost predicate CrashSafe(h: Snapshot, before: Disk, header: Header, entries: seq<JournalEntry>) {
    exists n: nat :: UpTo(h.disk, before, header, entries, n) && n <= h.applied <= n + 1
  }

  ghost predicate HistorySafe(c: Core, before: Disk, header: Header) {
    forall h | h in c.history :: CrashSafe(h, before, header, c.entries)
  }

  lemma UpToGrows(d: Disk, before: Disk, header: Header, entries: seq<JournalEntry>, e: JournalEntry, n: nat)
    requires UpTo(d, before, header, entries, n)
    ensures UpTo(d, before, header, entries + [e], n)
  {
    forall m: nat | m <= |entries|
      ensures (entries + [e])[..m] == entries[..m]
    {
    }
    forall j | j in AfterPowerLoss(d)
      ensures HoldsAtMost(j, before, header, entries + [e], n)
    {
      var m: nat :| m <= n && Holds(j, before, header, entries, m);
      assert Holds(j, before, header, entries + [e], m);
    }
  }

  lemma SetFilesSafe(c: Core, files: Files, applied: nat, before: Disk, header: Header)
    requires HistorySafe(c, before, header) && UpTo(c.disk, before, header, c.entries, |c.entries|)
    requires |c.entries| <= applied <= |c.entries| + 1
    ensures var c' := SetFiles(c, files, applied);
            HistorySafe(c', before, header) && UpTo(c'.disk, before, header, c'.entries, |c'.entries|)
  {
    var c' := SetFiles(c, files, applied);
    assert AfterPowerLoss(c'.disk) == AfterPowerLoss(c.disk);
    assert UpTo(c'.disk, before, header, c.entries, |c.entries|);
  }

  lemma AppendEntrySafe(c: Core, e: JournalEntry, before: Disk, header: Header)
    requires HistorySafe(c, before, header) && UpTo(c.disk, before, header, c.entries, |c.entries|)
    ensures HistorySafe(c.(entries := c.entries + [e]), before, header)
    ensures UpTo(c.disk, before, header, c.entries + [e], |c.entries|)
  {
    hide UpTo;
    forall h | h in c.history
      ensures CrashSafe(h, before, header, c.entries + [e])
    {
      var n: nat :| UpTo(h.disk, before, header, c.entries, n) && n <= h.applied <= n + 1;
      UpToGrows(h.disk, before, header, c.entries, e, n);
    }
    UpToGrows(c.disk, before, header, c.entries, e, |c.entries|);
  }

  /** Every state of a save, from a journal one entry behind. */
  lemma SaveStateSafe(d: Disk, header: Header, entries: seq<JournalEntry>, fate: SaveFate, before: Disk, s: Disk)
    requires entries != [] && UpTo(d, before, header, entries, |entries| - 1)
    requires s in SaveTrace(d, Whole(header, entries), fate)
    ensures var saved := Some(JournalFile(Whole(header, entries), true));
            UpTo(s, before, header, entries, if s.journal == saved then |entries| else |entries| - 1)
  {
    hide SaveTrace;
    var blob, n := Whole(header, entries), |entries|;
    SaveIsAtomic(d, blob, fate);
    assert entries[..n] == entries;
    var saved := Some(JournalFile(blob, true));
    assert Holds(saved, before, header, entries, n);
  }

  lemma SaveSafe(env: Env, c: Core, i: nat, before: Disk)
    requires env.journalResolves && c.entries != [] && HistorySafe(c, before, env.header)
    requires UpTo(c.disk, before, env.header, c.entries, |c.entries| - 1)
    ensures var (c', v) := SaveEntries(env, c, i);
            && HistorySafe(c', before, env.header) && c'.entries == c.entries
            && (v != SaveFailed ==> UpTo(c'.disk, before, env.header, c'.entries, |c'.entries|))
  {
    hide UpTo, SaveTrace;
    var blob, fate := Whole(env.header, c.entries), env.saveFate(i);
    var (c', v) := SaveEntries(env, c, i);
    var trace := SaveTrace(c.disk, blob, fate);
    SavedLast(c.disk, blob, fate);
    forall s | s in trace
      ensures UpTo(s, before, env.header, c.entries,
                   if s.journal == Some(JournalFile(blob, true)) then |c.entries| else |c.entries| - 1)
    {
      SaveStateSafe(c.disk, env.header, c.entries, fate, before, s);
    }
    forall h | h in c'.history
      ensures CrashSafe(h, before, env.header, c.entries)
    {
      if h !in c.history {
        assert h in Snapshots(trace, |c.entries|);
        assert h.disk in trace && h.applied == |c.entries|;
      }
    }
  }

  lemma SavedLast(d: Disk, blob: Blob, fate: SaveFate)
    ensures fate.SaveOk? ==> AfterSave(d, blob, fate) in SaveTrace(d, blob, fate)
    ensures fate.SaveOk? ==> AfterSave(d, blob, fate).journal == Some(JournalFile(blob, true))
  {
  }

  /** One operation keeps every past and new disk state crash-safe, and leaves the
      journal up to date unless its save failed. */
  lemma AttemptSafe(env: Env, c: Core, op: MatchOperation, i: nat, before: Disk)
    requires env.journalResolves && HistorySafe(c, before, env.header)
    requires UpTo(c.disk, before, env.header, c.entries, |c.entries|)
    ensures var (c', v) := Attempt(env, c, op, i);
            && HistorySafe(c', before, env.header)
            && (v != SaveFailed ==> UpTo(c'.disk, before, env.header, c'.entries, |c'.entries|))
  {
    hide HistorySafe, UpTo, Build, RunTask, RunBackup, EntryOf, BackupPath, SaveEntries;
    var (c1, backedUp) := AfterBackup(env, c, op, i);
    if WantsBackup(env, op) {
      SetFilesSafe(c, c1.disk.files, |c.entries|, before, env.header);
    }
    var task := Build(op, c1.disk.files, env.policy);
    if backedUp && (task.RenameTask? || task.CopyTask?) {
      var run := RunTask(task, c1.disk.files, env.taskFate(i));
      SetFilesSafe(c1, run.files, |c1.entries| + if run.ok then 1 else 0, before, env.header);
      if run.ok {
        var backup := if WantsBackup(env, op) then Some(BackupPath(op.subtitle)) else None;
        var entry := EntryOf(op, task, backup, c1.disk.files, run.files);
        var c2 := SetFiles(c1, run.files, |c1.entries| + 1);
        AppendEntrySafe(c2, entry, before, env.header);
        SaveSafe(env, c2.(entries := c1.entries + [entry]), i, before);
      }
    }
  }

  lemma StartSafe(disk: Disk, header: Header)
    ensures HistorySafe(StartCore(disk), disk, header) && UpTo(disk, disk, header, [], 0)
  {
    forall j | j in AfterPowerLoss(disk)
      ensures HoldsAtMost(j, disk, header, [], 0)
    {
      assert Holds(j, disk, header, [], 0);
    }
    assert UpTo(disk, disk, header, [], 0);
  }

  lemma {:induction false} ExecSafe(env: Env, ops: seq<MatchOperation>, disk: Disk, k: nat)
    requires env.journalResolves && k <= |ops|
    ensures var r := ExecUpTo(env, ops, disk, k);
            && HistorySafe(r.core, disk, env.header)
            && (r.stop.None? ==> UpTo(r.core.disk, disk, env.header, r.core.entries, |r.core.entries|))
  {
    hide Attempt, HistorySafe, UpTo;
    if k == 0 {
      StartSafe(disk, env.header);
    } else {
      ExecSafe(env, ops, disk, k - 1);
      var r := ExecUpTo(env, ops, disk, k - 1);
      if r.stop.None? {
        AttemptSafe(env, r.core, ops[k - 1], k - 1, disk);
      }
    }
  }

  lemma {:induction false} AuditSafe(env: Env, ops: seq<MatchOperation>, disk: Disk, k: nat)
    requires env.journalResolves && k <= |ops|
    ensures var r := AuditUpTo(env, ops, disk, k);
            && HistorySafe(r.core, disk, env.header)
            && (r.stop.None? ==> UpTo(r.core.disk, disk, env.header, r.core.entries, |r.core.entries|))
  {
    hide Attempt, HistorySafe, UpTo;
    if k == 0 {
      StartSafe(disk, env.header);
    } else {
      AuditSafe(env, ops, disk, k - 1);
      var r := AuditUpTo(env, ops, disk, k - 1);
      if r.stop.None? {
        AttemptSafe(env, r.core, ops[k - 1], k - 1, disk);
      }
    }
  }

  /** Reading `j` after a crash gives the complete record of the first `m` entries, or,
      with `m == 0`, a journal from before the batch. */
  ghost predicate Recovers(j: Option<JournalFile>, before: Disk, header: Header, entries: seq<JournalEntry>, m: nat) {
    && m <= |entries|
    && (m == 0 ==> j in AfterPowerLoss(before))
    && (m > 0 ==> j.Some? && forall seen | ReadableAfterCrash(j.value, seen) :: seen == Whole(header, entries[..m]))
  }

  /** A crash of the process leaves the journal in place, at most one success behind;
      a power loss leaves it or an older one, still a record of leading successes. */
  ghost predicate Recoverable(h: Snapshot, before: Disk, header: Header, entries: seq<JournalEntry>) {
    && (exists n: nat :: n <= h.applied <= n + 1 && Recovers(h.disk.journal, before, header, entries, n)
                         && (n == 0 ==> h.disk.journal == before.journal))
    && (forall j | j in AfterPowerLoss(h.disk) ::
          exists m: nat :: m <= h.applied && Recovers(j, before, header, entries, m))
  }

  lemma CrashSafeRecovers(h: Snapshot, before: Disk, header: Header, entries: seq<JournalEntry>)
    requires CrashSafe(h, before, header, entries)
    ensures Recoverable(h, before, header, entries)
  {
    var n: nat :| UpTo(h.disk, before, header, entries, n) && n <= h.applied <= n + 1;
    assert Recovers(h.disk.journal, before, header, entries, n);
    forall j | j in AfterPowerLoss(h.disk)
      ensures exists m: nat :: m <= h.applied && Recovers(j, before, header, entries, m)
    {
      var m: nat :| m <= n && Holds(j, before, header, entries, m);
      assert Recovers(j, before, header, entries, m);
    }
  }

  /** Journal crash consistency of both loops, for every batch, every environment and
      every disk state on the way, those inside a save included; the entries of the
      aborting loop are those of the leading operations. */
  lemma JournalCrashConsistency(env: Env, ops: seq<MatchOperation>, disk: Disk)
    requires env.journalResolves
    ensures var c := Exec(env, ops, disk).core;
            && |c.entries| <= |ops| && SourcesMatch(c.entries, ops[..|c.entries|])
            && forall h | h in c.history :: Recoverable(h, disk, env.header, c.entries)
    ensures var c := Audit(env, ops, disk).core;
            forall h | h in c.history :: Recoverable(h, disk, env.header, c.entries)
  {
    hide Recoverable, CrashSafe, ExecUpTo, AuditUpTo;
    ExecSafe(env, ops, disk, |ops|);
    AuditSafe(env, ops, disk, |ops|);
    ExecSources(env, ops, disk, |ops|);
    forall h, entries | CrashSafe(h, disk, env.header, entries)
      ensures Recoverable(h, disk, env.header, entries)
    {
      CrashSafeRecovers(h, disk, env.header, entries);
    }
  }

  // ----- How far behind a power loss may fall -----

  /** The number of entries of this batch a journal holds. */
  function Held(j: Option<JournalFile>, header: Header): nat {
    if j.Some? && j.value.blob.Whole? && j.value.blob.header == header then |j.value.blob.entries| else 0
  }

  /** Whatever journal a power loss leaves here, it misses at most the last success. */
  ghost predicate AtMostOneBehind(h: Snapshot, header: Header) {
    forall j | j in AfterPowerLoss(h.disk) :: h.applied <= Held(j, header) + 1
  }

  ghost predicate AllWithin(c: Core, header: Header) {
    forall h | h in c.history :: AtMostOneBehind(h, header)
  }

  predicate DirSynced(env: Env, i: nat) {
    env.saveFate(i) == SaveOk(true)
  }

  /** `at` lists the operations journalled so far: some save before the last one was not
      followed by a successful directory sync. */
  predicate Late(env: Env, at: seq<nat>) {
    exists k | 0 <= k < |at| - 1 :: !DirSynced(env, at[k])
  }

  predicate LastSynced(env: Env, at: seq<nat>) {
    at == [] || DirSynced(env, at[|at| - 1])
  }

  /** What the journals on disk hold between two operations. */
  ghost predicate Lag(env: Env, c: Core, at: seq<nat>) {
    var header := env.header;
    && |c.entries| == |at| == Held(c.disk.journal, header)
    && (LastSynced(env, at) ==> forall j | j in AfterPowerLoss(c.disk) :: Held(j, header) >= |at|)
    && (!LastSynced(env, at) ==> exists j | j in AfterPowerLoss(c.disk) :: Held(j, header) + 1 == |at|)
    && (!Late(env, at) ==> forall j | j in AfterPowerLoss(c.disk) :: Held(j, header) + 1 >= |at|)
  }

  lemma LateAppend(env: Env, at: seq<nat>, i: nat)
    ensures Late(env, at + [i]) <==> Late(env, at) || !LastSynced(env, at)
    ensures LastSynced(env, at + [i]) <==> DirSynced(env, i)
  {
    hide DirSynced;
    var all := at + [i];
    forall k | 0 <= k < |at|
      ensures all[k] == at[k]
    {
    }
    if !LastSynced(env, at) {
      assert !DirSynced(env, all[|at| - 1]);
    }
    if Late(env, at) {
      var k :| 0 <= k < |at| - 1 && !DirSynced(env, at[k]);
      assert !DirSynced(env, all[k]);
    }
  }

  lemma LagSetFiles(env: Env, c: Core, at: seq<nat>, files: Files)
    requires Lag(env, c, at) && (AllWithin(c, env.header) <==> !Late(env, at))
    ensures var c' := SetFiles(c, files, |at|);
            Lag(env, c', at) && (AllWithin(c', env.header) <==> !Late(env, at))
  {
    hide Late, LastSynced, Held;
    var c' := SetFiles(c, files, |at|);
    assert AfterPowerLoss(c'.disk) == AfterPowerLoss(c.disk);
    WithinMore(c, c', env.header, [Snapshot(c'.disk, |at|)]);
  }

  lemma WithinMore(c: Core, c': Core, header: Header, more: seq<Snapshot>)
    requires c'.history == c.history + more
    ensures AllWithin(c', header) <==> AllWithin(c, header) && forall h | h in more :: AtMostOneBehind(h, header)
  {
    hide AtMostOneBehind;
  }

  /** The next success is within the bound exactly if the last save was settled. */
  lemma LagApplied(env: Env, c: Core, at: seq<nat>, files: Files, i: nat)
    requires Lag(env, c, at) && (AllWithin(c, env.header) <==> !Late(env, at))
    ensures AllWithin(SetFiles(c, files, |at| + 1), env.header) <==> !Late(env, at + [i])
  {
    hide Late, LastSynced, Held;
    var c' := SetFiles(c, files, |at| + 1);
    assert AfterPowerLoss(c'.disk) == AfterPowerLoss(c.disk);
    var snapshot := Snapshot(c'.disk, |at| + 1);
    WithinMore(c, c', env.header, [snapshot]);
    LateAppend(env, at, i);
    assert AtMostOneBehind(snapshot, env.header) <==> LastSynced(env, at);
    assert snapshot in [snapshot];
  }

  lemma LagSave(env: Env, c: Core, at: seq<nat>, i: nat)
    requires env.journalResolves && |c.entries| == |at| + 1
    requires Lag(env, c.(entries := c.entries[..|at|]), at)
    requires AllWithin(c, env.header) <==> !Late(env, at + [i])
    ensures var (c', v) := SaveEntries(env, c, i);
            && (AllWithin(c', env.header) <==> !Late(env, at + [i]))
            && (v != SaveFailed ==> Lag(env, c', at + [i]))
  {
    hide Late, LastSynced, SaveTrace, AfterSave;
    var blob, fate, header := Whole(env.header, c.entries), env.saveFate(i), env.header;
    var saved := Some(JournalFile(blob, true));
    var (c', v) := SaveEntries(env, c, i);
    var trace := SaveTrace(c.disk, blob, fate);
    LateAppend(env, at, i);
    SaveIsAtomic(c.disk, blob, fate);
    assert Held(saved, header) == |at| + 1;
    WithinMore(c, c', header, Snapshots(trace, |at| + 1));
    if !Late(env, at + [i]) {
      forall h | h in Snapshots(trace, |at| + 1)
        ensures AtMostOneBehind(h, header)
      {
        assert h.disk in trace && h.applied == |at| + 1;
      }
    }
    if v != SaveFailed && !DirSynced(env, i) {
      assert c.disk.journal in AfterPowerLoss(c'.disk);
    }
  }

  /** One operation: the entries it adds are journalled at `i`. */
  lemma AttemptLag(env: Env, c: Core, op: MatchOperation, i: nat, at: seq<nat>)
    requires env.journalResolves && Lag(env, c, at) && (AllWithin(c, env.header) <==> !Late(env, at))
    ensures var (c', v) := Attempt(env, c, op, i);
            var at' := if v in {Applied, SaveFailed} then at + [i] else at;
            && (AllWithin(c', env.header) <==> !Late(env, at'))
            && (v != SaveFailed ==> Lag(env, c', at'))
  {
    hide Lag, AllWithin, Late, Build, RunTask, RunBackup, EntryOf, BackupPath;
    var (c1, backedUp) := AfterBackup(env, c, op, i);
    LagLength(env, c, at);
    if WantsBackup(env, op) {
      LagSetFiles(env, c, at, c1.disk.files);
    }
    var task := Build(op, c1.disk.files, env.policy);
    if backedUp && (task.RenameTask? || task.CopyTask?) {
      var run := RunTask(task, c1.disk.files, env.taskFate(i));
      if run.ok {
        var backup := if WantsBackup(env, op) then Some(BackupPath(op.subtitle)) else None;
        var entry := EntryOf(op, task, backup, c1.disk.files, run.files);
        LagApplied(env, c1, at, run.files, i);
        var c2 := SetFiles(c1, run.files, |at| + 1).(entries := c1.entries + [entry]);
        LagCarries(env, c1, c2, at);
        WithinMore(SetFiles(c1, run.files, |at| + 1), c2, env.header, []);
        LagSave(env, c2, at, i);
      } else {
        LagSetFiles(env, c1, at, run.files);
      }
    }
  }

  lemma LagLength(env: Env, c: Core, at: seq<nat>)
    requires Lag(env, c, at)
    ensures |c.entries| == |at|
  {
  }

  lemma LagCarries(env: Env, c: Core, c': Core, at: seq<nat>)
    requires Lag(env, c, at) && c'.disk.journal == c.disk.journal && c'.disk.older == c.disk.older
    requires |c'.entries| == |c.entries| + 1 && c'.entries[..|at|] == c.entries
    ensures Lag(env, c'.(entries := c'.entries[..|at|]), at)
  {
    hide Late, LastSynced;
    assert AfterPowerLoss(c'.disk) == AfterPowerLoss(c.disk);
  }

  // ----- Whole runs -----

  function FirstIndices(n: nat): (r: seq<nat>)
    ensures |r| == n && forall k | 0 <= k < n :: r[k] == k
  {
    seq(n, k => k)
  }

  /** The positions of the applied outcomes, in order. */
  function AppliedIndices(outcomes: seq<Outcome>): seq<nat> {
    if outcomes == [] then []
    else
      var n := |outcomes| - 1;
      AppliedIndices(outcomes[..n]) + if outcomes[n].applied then [n] else []
  }

  /** The operations the audited loop has journalled: those applied, and the one whose
      journal save failed. */
  function JournalledAt(r: AuditRun): seq<nat> {
    AppliedIndices(r.outcomes) + if r.stop == Some(AuditSaveError) then [|r.outcomes|] else []
  }

  /** No journal of this batch existed before it. */
  ghost predicate NewBatch(disk: Disk, header: Header) {
    forall j | j in AfterPowerLoss(disk) :: Held(j, header) == 0
  }

  lemma LateFirst(env: Env, n: nat)
    ensures Late(env, FirstIndices(n)) <==> exists k: nat | k + 1 < n :: !DirSynced(env, k)
  {
    hide DirSynced;
    var at := FirstIndices(n);
    if Late(env, at) {
      var k :| 0 <= k < |at| - 1 && !DirSynced(env, at[k]);
      assert at[k] == k;
    }
    if k: nat :| k + 1 < n && !DirSynced(env, k) {
      assert at[k] == k;
    }
  }

  lemma StartLag(env: Env, disk: Disk)
    requires NewBatch(disk, env.header)
    ensures Lag(env, StartCore(disk), []) && AllWithin(StartCore(disk), env.header) && !Late(env, [])
  {
  }

  lemma {:induction false} ExecLag(env: Env, ops: seq<MatchOperation>, disk: Disk, k: nat)
    requires env.journalResolves && NewBatch(disk, env.header) && k <= |ops|
    ensures var r := ExecUpTo(env, ops, disk, k);
            var at := FirstIndices(|r.core.entries|);
            && (AllWithin(r.core, env.header) <==> !Late(env, at))
            && (r.stop.None? ==> Lag(env, r.core, at))
  {
    hide Attempt, Lag, AllWithin, Late, NewBatch;
    if k == 0 {
      StartLag(env, disk);
      assert FirstIndices(0) == [];
    } else {
      ExecLag(env, ops, disk, k - 1);
      ExecSources(env, ops, disk, k - 1);
      var r := ExecUpTo(env, ops, disk, k - 1);
      if r.stop.None? {
        var at := FirstIndices(|r.core.entries|);
        AttemptLag(env, r.core, ops[k - 1], k - 1, at);
        AttemptEntries(env, r.core, ops[k - 1], k - 1);
        assert FirstIndices(|at| + 1) == at + [k - 1];
      }
    }
  }

  lemma {:induction false} AuditLag(env: Env, ops: seq<MatchOperation>, disk: Disk, k: nat)
    requires env.journalResolves && NewBatch(disk, env.header) && k <= |ops|
    ensures var r := AuditUpTo(env, ops, disk, k);
            && (AllWithin(r.core, env.header) <==> !Late(env, JournalledAt(r)))
            && (r.stop.None? ==> Lag(env, r.core, JournalledAt(r)) && |r.outcomes| == k)
  {
    hide Attempt, AuditStep, Lag, AllWithin, Late, NewBatch;
    if k == 0 {
      StartLag(env, disk);
      assert JournalledAt(AuditUpTo(env, ops, disk, 0)) == [];
    } else {
      AuditLag(env, ops, disk, k - 1);
      if AuditUpTo(env, ops, disk, k - 1).stop.None? {
        AuditStepLag(env, AuditUpTo(env, ops, disk, k - 1), ops[k - 1], k - 1, |ops|);
      }
    }
  }

  lemma AuditStepLag(env: Env, r: AuditRun, op: MatchOperation, k: nat, total: nat)
    requires env.journalResolves && r.stop.None? && |r.outcomes| == k
    requires Lag(env, r.core, JournalledAt(r)) && (AllWithin(r.core, env.header) <==> !Late(env, JournalledAt(r)))
    ensures var r' := AuditStep(env, r, op, k, total);
            && (AllWithin(r'.core, env.header) <==> !Late(env, JournalledAt(r')))
            && (r'.stop.None? ==> Lag(env, r'.core, JournalledAt(r')) && |r'.outcomes| == k + 1)
  {
    hide Attempt, Lag, AllWithin, Late;
    var at := AppliedIndices(r.outcomes);
    assert at + [] == at && JournalledAt(r) == at;
    AttemptLag(env, r.core, op, k, at);
    var r' := AuditStep(env, r, op, k, total);
    if |r'.outcomes| == k + 1 {
      assert r'.outcomes[..k] == r.outcomes;
      assert JournalledAt(r') == AppliedIndices(r'.outcomes);
    }
  }

  lemma {:induction false} PaddingNotApplied(outcomes: seq<Outcome>, n: nat)
    ensures AppliedIndices(outcomes + Padding(n)) == AppliedIndices(outcomes)
  {
    if n == 0 {
      assert outcomes + Padding(0) == outcomes;
    } else {
      PaddingNotApplied(outcomes, n - 1);
      var all := outcomes + Padding(n);
      assert all[..|all| - 1] == outcomes + Padding(n - 1);
    }
  }

  /** After a power loss at any instant the journal misses at most the last success, if
      and only if every save but the last was followed by a successful directory sync.
      A failed sync goes unreported, so the next success is the second one missed. */
  lemma PowerLossBoundExactly(env: Env, ops: seq<MatchOperation>, disk: Disk)
    requires env.journalResolves && NewBatch(disk, env.header)
    ensures var c := Exec(env, ops, disk).core;
            AllWithin(c, env.header) <==> forall k: nat | k + 1 < |c.entries| :: DirSynced(env, k)
    ensures var r := Audit(env, ops, disk);
            var at := JournalledAt(r);
            AllWithin(r.core, env.header) <==> forall k: nat | k + 1 < |at| :: DirSynced(env, at[k])
  {
    hide AllWithin, NewBatch, DirSynced, ExecUpTo, AuditUpTo;
    ExecLag(env, ops, disk, |ops|);
    LateFirst(env, |ExecUpTo(env, ops, disk, |ops|).core.entries|);
    AuditLag(env, ops, disk, |ops|);
    var u := AuditUpTo(env, ops, disk, |ops|);
    if |u.outcomes| <= |ops| {
      PaddingNotApplied(u.outcomes, |ops| - |u.outcomes|);
    }
    assert JournalledAt(Audit(env, ops, disk)) == JournalledAt(u);
  }
}
