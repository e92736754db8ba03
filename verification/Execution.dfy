/** The two execution loops, `execute_operations` and `execute_operations_audit`,
    as state transformers over disk, journal and progress stream, and as the
    imperative engine that performs them. */
module Execution {
  import opened Strings
  import opened Paths
  import opened Operations
  import opened Filesystem
  import opened Journal

  datatype Event =
    | Started(total: nat)
    | Advanced(done: nat, total: nat, item: Option<string>)
    | Finished(done: nat, total: nat)

  /** Configuration, and the environment's answers for the operation at each index. */
  datatype Env = Env(
    policy: Policy,
    backups: bool,
    journalResolves: bool,
    header: Header,
    backupFate: nat -> Fate,
    taskFate: nat -> Fate,
    saveFate: nat -> SaveFate,
    cancelled: nat -> bool)

  /** A disk state together with the number of primary tasks that had succeeded. */
  datatype Snapshot = Snapshot(disk: Disk, applied: nat)

  /** What the loops share: the disk, the journal in memory, and every disk state
      the run has gone through. */
  datatype Core = Core(disk: Disk, entries: seq<JournalEntry>, history: seq<Snapshot>)

  datatype Verdict = Applied | BackupFailed | TaskFailed | SaveFailed | Stuck

  // ----- One operation -----

  function KindOf(op: MatchOperation, task: Construction): Kind {
    if task.CopyTask? then Copied else if op.mode == Move then Moved else Renamed
  }

  function SizeOf(files: Files, p: Path): nat {
    if p in files then |files[p]| else 0
  }

  /** Destination size after the task, else the source size before it. */
  function RecordedSize(before: Files, after: Files, src: Path, dst: Path): nat {
    if dst in after then |after[dst]| else SizeOf(before, src)
  }

  function EntryOf(op: MatchOperation, task: Construction, backup: Option<Path>, before: Files, after: Files)
    : JournalEntry
    requires task.RenameTask? || task.CopyTask?
  {
    JournalEntry(KindOf(op, task), task.src, task.dst, backup, RecordedSize(before, after, task.src, task.dst))
  }

  function SetFiles(c: Core, files: Files, applied: nat): Core {
    var d := c.disk.(files := files);
    c.(disk := d, history := c.history + [Snapshot(d, applied)])
  }

  function Snapshots(trace: seq<Disk>, applied: nat): (r: seq<Snapshot>)
    ensures |r| == |trace|
  {
    seq(|trace|, i requires 0 <= i < |trace| => Snapshot(trace[i], applied))
  }

  function SaveEntries(env: Env, c: Core, i: nat): (Core, Verdict) {
    if !env.journalResolves then (c, Applied)
    else
      var blob := Whole(env.header, c.entries);
      var c' := c.(disk := AfterSave(c.disk, blob, env.saveFate(i)),
                   history := c.history + Snapshots(SaveTrace(c.disk, blob, env.saveFate(i)), |c.entries|));
      (c', if env.saveFate(i).SaveOk? then Applied else SaveFailed)
  }

  function WantsBackup(env: Env, op: MatchOperation): bool {
    op.mode == Move && env.backups
  }

  function AfterBackup(env: Env, c: Core, op: MatchOperation, i: nat): (Core, bool) {
    if !WantsBackup(env, op) then (c, true)
    else
      var run := RunBackup(c.disk.files, op.subtitle.path, BackupPath(op.subtitle), env.backupFate(i));
      (SetFiles(c, run.files, |c.entries|), run.ok)
  }

  /** Everything one operation does: optional backup, primary task, journal entry,
      journal save. */
  function Attempt(env: Env, c: Core, op: MatchOperation, i: nat): (Core, Verdict) {
    var (c1, backedUp) := AfterBackup(env, c, op, i);
    if !backedUp then (c1, BackupFailed)
    else
      var task := Build(op, c1.disk.files, env.policy);
      if !task.RenameTask? && !task.CopyTask? then (c1, Stuck)
      else
        var run := RunTask(task, c1.disk.files, env.taskFate(i));
        if !run.ok then (SetFiles(c1, run.files, |c1.entries|), TaskFailed)
        else
          var backup := if WantsBackup(env, op) then Some(BackupPath(op.subtitle)) else None;
          var entry := EntryOf(op, task, backup, c1.disk.files, run.files);
          var c2 := SetFiles(c1, run.files, |c1.entries| + 1).(entries := c1.entries + [entry]);
          SaveEntries(env, c2, i)
  }

  // ----- The aborting loop -----

  datatype Stop = TaskError | SaveError | NoReturn

  datatype Run = Run(core: Core, completed: nat, events: seq<Event>, stop: Option<Stop>)

  function StartCore(disk: Disk): Core {
    Core(disk, [], [Snapshot(disk, 0)])
  }

  function ExecStep(env: Env, r: Run, op: MatchOperation, i: nat, total: nat): Run {
    var (c, v) := Attempt(env, r.core, op, i);
    match v
    case Applied => Run(c, r.completed + 1, r.events + [Advanced(r.completed + 1, total, None)], None)
    case BackupFailed => r.(core := c, stop := Some(TaskError))
    case TaskFailed => r.(core := c, stop := Some(TaskError))
    case SaveFailed => r.(core := c, stop := Some(SaveError))
    case Stuck => r.(core := c, stop := Some(NoReturn))
  }

  /** State after the first `k` iterations; a stopped run stays as it is. */
  function ExecUpTo(env: Env, ops: seq<MatchOperation>, disk: Disk, k: nat): Run
    requires k <= |ops|
  {
    if k == 0 then Run(StartCore(disk), 0, [Started(|ops|)], None)
    else
      var r := ExecUpTo(env, ops, disk, k - 1);
      if r.stop.Some? then r else ExecStep(env, r, ops[k - 1], k - 1, |ops|)
  }

  function Exec(env: Env, ops: seq<MatchOperation>, disk: Disk): Run {
    var r := ExecUpTo(env, ops, disk, |ops|);
    if r.stop == Some(NoReturn) then r else r.(events := r.events + [Finished(r.completed, |ops|)])
  }

  // ----- The audited loop -----

  datatype Outcome = Outcome(applied: bool, failed: bool)

  datatype AuditStop = Cancelled | AuditSaveError | AuditNoReturn

  datatype AuditRun = AuditRun(core: Core, outcomes: seq<Outcome>, events: seq<Event>, stop: Option<AuditStop>)

  function Record(r: AuditRun, c: Core, outcome: Outcome, op: MatchOperation, total: nat): AuditRun {
    AuditRun(c, r.outcomes + [outcome],
             r.events + [Advanced(|r.outcomes| + 1, total, Some(op.subtitle.path.name))], None)
  }

  function AuditStep(env: Env, r: AuditRun, op: MatchOperation, i: nat, total: nat): AuditRun {
    if env.cancelled(i) then r.(stop := Some(Cancelled))
    else
      var (c, v) := Attempt(env, r.core, op, i);
      match v
      case Applied => Record(r, c, Outcome(true, false), op, total)
      case BackupFailed => Record(r, c, Outcome(false, true), op, total)
      case TaskFailed => Record(r, c, Outcome(false, true), op, total)
      case SaveFailed => r.(core := c, stop := Some(AuditSaveError))
      case Stuck => r.(core := c, stop := Some(AuditNoReturn))
  }

  function AuditUpTo(env: Env, ops: seq<MatchOperation>, disk: Disk, k: nat): AuditRun
    requires k <= |ops|
  {
    if k == 0 then AuditRun(StartCore(disk), [], [Started(|ops|)], None)
    else
      var r := AuditUpTo(env, ops, disk, k - 1);
      if r.stop.Some? then r else AuditStep(env, r, ops[k - 1], k - 1, |ops|)
  }

  function Padding(n: nat): seq<Outcome> {
    seq(n, i => Outcome(false, false))
  }

  /** The finished audit: a cancelled run is padded to one outcome per operation,
      and `Finished` carries the count from before the padding. */
  function Audit(env: Env, ops: seq<MatchOperation>, disk: Disk): AuditRun {
    var r := AuditUpTo(env, ops, disk, |ops|);
    if r.stop == Some(AuditNoReturn) then r
    else
      var events := r.events + [Finished(|r.outcomes|, |ops|)];
      if r.stop == Some(Cancelled) && |r.outcomes| <= |ops|
      then r.(events := events, outcomes := r.outcomes + Padding(|ops| - |r.outcomes|))
      else r.(events := events)
  }

  // ----- The engine -----

  class Engine {
    var disk: Disk
    var entries: seq<JournalEntry>
    var events: seq<Event>
    ghost var history: seq<Snapshot>

    constructor (d: Disk)
      ensures disk == d && entries == [] && events == [] && Now() == StartCore(d)
    {
      disk, entries, events, history := d, [], [], [Snapshot(d, 0)];
    }

    ghost function Now(): Core
      reads this
    {
      Core(disk, entries, history)
    }

    method Touch(d: Disk, ghost applied: nat)
      modifies this`disk, this`history
      ensures disk == d && history == old(history) + [Snapshot(d, applied)]
    {
      disk := d;
      history := history + [Snapshot(d, applied)];
    }

    /** `JournalData::save`: create, write, sync and rename a sibling temporary. */
    method Save(header: Header, fate: SaveFate) returns (ok: bool)
      modifies this`disk, this`history
      ensures ok == fate.SaveOk?
      ensures disk == AfterSave(old(disk), Whole(header, entries), fate)
      ensures history == old(history) + Snapshots(SaveTrace(old(disk), Whole(header, entries), fate), |entries|)
    {
      var blob := Whole(header, entries);
      if fate.DirFails? || fate.CreateFails? {
        return false;
      }
      Touch(disk.(temp := Some(JournalFile(Torn, false))), |entries|);
      if fate.WriteFails? {
        return false;
      }
      Touch(disk.(temp := Some(JournalFile(blob, false))), |entries|);
      if fate.SyncFails? {
        return false;
      }
      Touch(disk.(temp := Some(disk.temp.value.(synced := true))), |entries|);
      if fate.RenameFails? {
        return false;
      }
      Touch(disk.(journal := disk.temp, temp := None, older := disk.older + {disk.journal}), |entries|);
      if fate.dirSynced {
        Touch(disk.(older := {}), |entries|);
      }
      return true;
    }

    method Perform(env: Env, op: MatchOperation, i: nat) returns (v: Verdict)
      modifies this`disk, this`entries, this`history
      ensures (Now(), v) == Attempt(env, old(Now()), op, i)
    {
      hide Build, RunTask, RunBackup, EntryOf, BackupPath, AfterSave, SaveTrace;
      var backup := None;
      if op.mode == Move && env.backups {
        backup := Some(BackupPath(op.subtitle));
        var made := RunBackup(disk.files, op.subtitle.path, BackupPath(op.subtitle), env.backupFate(i));
        Touch(disk.(files := made.files), |entries|);
        if !made.ok {
          return BackupFailed;
        }
      }
      var task := Build(op, disk.files, env.policy);
      if !task.RenameTask? && !task.CopyTask? {
        return Stuck;
      }
      var before := disk.files;
      var run := RunTask(task, before, env.taskFate(i));
      Touch(disk.(files := run.files), |entries| + if run.ok then 1 else 0);
      if !run.ok {
        return TaskFailed;
      }
      entries := entries + [EntryOf(op, task, backup, before, run.files)];
      if env.journalResolves {
        var saved := Save(env.header, env.saveFate(i));
        if !saved {
          return SaveFailed;
        }
      }
      return Applied;
    }

    method ExecuteOperations(env: Env, ops: seq<MatchOperation>, dryRun: bool)
      returns (completed: nat, stop: Option<Stop>)
      requires entries == [] && events == [] && history == [Snapshot(disk, 0)]
      modifies this
      ensures dryRun ==> Now() == old(Now()) && events == [] && stop == None
      ensures !dryRun ==> Run(Now(), completed, events, stop) == Exec(env, ops, old(disk))
    {
      hide Attempt;
      completed, stop := 0, None;
      if dryRun {
        return;
      }
      ghost var d := disk;
      events := events + [Started(|ops|)];
      var k := 0;
      while k < |ops|
        invariant k <= |ops| && stop == None
        invariant Run(Now(), completed, events, None) == ExecUpTo(env, ops, d, k)
      {
        var v := Perform(env, ops[k], k);
        if v != Applied {
          stop := Some(if v == SaveFailed then SaveError else if v == Stuck then NoReturn else TaskError);
          ExecStays(env, ops, d, k + 1, |ops|);
          if v != Stuck {
            events := events + [Finished(completed, |ops|)];
          }
          return;
        }
        completed := completed + 1;
        events := events + [Advanced(completed, |ops|, None)];
        k := k + 1;
      }
      events := events + [Finished(completed, |ops|)];
    }

    method ExecuteOperationsAudit(env: Env, ops: seq<MatchOperation>, dryRun: bool)
      returns (outcomes: seq<Outcome>, stop: Option<AuditStop>)
      requires entries == [] && events == [] && history == [Snapshot(disk, 0)]
      modifies this
      ensures dryRun ==> Now() == old(Now()) && events == [] && outcomes == Padding(|ops|) && stop == None
      ensures !dryRun ==> AuditRun(Now(), outcomes, events, stop) == Audit(env, ops, old(disk))
    {
      hide Attempt, AuditUpTo, AuditStep;
      outcomes, stop := [], None;
      if dryRun {
        outcomes := Padding(|ops|);
        return;
      }
      ghost var d := disk;
      events := events + [Started(|ops|)];
      AuditBegins(env, ops, d);
      var k := 0;
      while k < |ops|
        invariant k <= |ops| && stop == None && |outcomes| == k
        invariant AuditRun(Now(), outcomes, events, None) == AuditUpTo(env, ops, d, k)
      {
        AuditNext(env, ops, d, k);
        if env.cancelled(k) {
          AuditStays(env, ops, d, k + 1, |ops|);
          events := events + [Finished(|outcomes|, |ops|)];
          outcomes := outcomes + Padding(|ops| - |outcomes|);
          stop := Some(Cancelled);
          return;
        }
        var v := Perform(env, ops[k], k);
        if v == SaveFailed || v == Stuck {
          stop := Some(if v == SaveFailed then AuditSaveError else AuditNoReturn);
          AuditStays(env, ops, d, k + 1, |ops|);
          if v == SaveFailed {
            events := events + [Finished(|outcomes|, |ops|)];
          }
          return;
        }
        outcomes := outcomes + [Outcome(v == Applied, v != Applied)];
        events := events + [Advanced(|outcomes|, |ops|, Some(ops[k].subtitle.path.name))];
        k := k + 1;
      }
      events := events + [Finished(|outcomes|, |ops|)];
    }
  }

  lemma AuditBegins(env: Env, ops: seq<MatchOperation>, disk: Disk)
    ensures AuditUpTo(env, ops, disk, 0) == AuditRun(StartCore(disk), [], [Started(|ops|)], None)
  {
  }

  /** One turn of the audited loop from a run that has not stopped. */
  lemma AuditNext(env: Env, ops: seq<MatchOperation>, disk: Disk, k: nat)
    requires k < |ops| && AuditUpTo(env, ops, disk, k).stop.None?
    ensures var r, r' := AuditUpTo(env, ops, disk, k), AuditUpTo(env, ops, disk, k + 1);
            var (c, v) := Attempt(env, r.core, ops[k], k);
            if env.cancelled(k) then r' == r.(stop := Some(Cancelled))
            else if v == SaveFailed then r' == r.(core := c, stop := Some(AuditSaveError))
            else if v == Stuck then r' == r.(core := c, stop := Some(AuditNoReturn))
            else r' == Record(r, c, Outcome(v == Applied, v != Applied), ops[k], |ops|)
  {
    hide Attempt, Record;
  }

  lemma {:induction false} ExecStays(env: Env, ops: seq<MatchOperation>, disk: Disk, k: nat, m: nat)
    requires k <= m <= |ops| && ExecUpTo(env, ops, disk, k).stop.Some?
    ensures ExecUpTo(env, ops, disk, m) == ExecUpTo(env, ops, disk, k)
    decreases m
  {
    hide ExecStep;
    if k < m {
      ExecStays(env, ops, disk, k, m - 1);
    }
  }

  lemma {:induction false} AuditStays(env: Env, ops: seq<MatchOperation>, disk: Disk, k: nat, m: nat)
    requires k <= m <= |ops| && AuditUpTo(env, ops, disk, k).stop.Some?
    ensures AuditUpTo(env, ops, disk, m) == AuditUpTo(env, ops, disk, k)
    decreases m
  {
    hide AuditStep;
    if k < m {
      AuditStays(env, ops, disk, k, m - 1);
    }
  }
}
