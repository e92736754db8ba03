/** The file system as a map from path to content, and the rename, copy and backup
    tasks that act on it. Each task takes a fate: every system call succeeds, the
    direct rename is refused (another device), or the task fails and may leave a
    partly written file behind. */
module Filesystem {
  import opened Strings
  import opened Paths
  import opened Operations

  type Content = seq<bv8>
  type Files = map<Path, Content>

  datatype Fate = Succeeds | NoDirectRename | Fails(leftover: Option<Content>)

  datatype TaskRun = TaskRun(files: Files, ok: bool)

  // ----- Conflict names -----

  const CONFLICT_LIMIT: nat := 1000

  /** `<stem>.<i>.<ext>`, or `<stem>.<i>` when the extension is empty or absent. */
  function ConflictPath(target: Path, i: nat): Path {
    var (stem, ext) := SplitFilename(target.name);
    Path(target.dir, Numbered(stem, i, if ext == "." then "" else ext))
  }

  function FreeFrom(files: Files, target: Path, i: nat): (r: Option<Path>)
    ensures match r
            case None => forall j | i <= j < CONFLICT_LIMIT :: ConflictPath(target, j) in files
            case Some(p) => p !in files && exists j | i <= j < CONFLICT_LIMIT ::
                              p == ConflictPath(target, j) && forall k | i <= k < j :: ConflictPath(target, k) in files
    decreases CONFLICT_LIMIT - i
  {
    if i >= CONFLICT_LIMIT then None
    else if ConflictPath(target, i) !in files then Some(ConflictPath(target, i))
    else FreeFrom(files, target, i + 1)
  }

  /** The path an exclusive create ends up with: the target itself when absent,
      else the first free conflict name. */
  function FreeName(files: Files, target: Path): (r: Option<Path>)
    ensures r.Some? ==> r.value !in files
    ensures target !in files ==> r == Some(target)
    ensures target in files ==>
              match r
              case None => forall j | 1 <= j < 1000 :: ConflictPath(target, j) in files
              case Some(p) => exists j | 1 <= j < 1000 ::
                                && p == ConflictPath(target, j)
                                && forall k | 1 <= k < j :: ConflictPath(target, k) in files
  {
    if target !in files then Some(target) else FreeFrom(files, target, 1)
  }

  // ----- Tasks -----

  function MoveTo(files: Files, src: Path, dst: Path): Files
    requires src in files
  {
    (files - {src})[dst := files[src]]
  }

  /** A task that fails after its exclusive create leaves whatever it wrote. */
  function Abandon(files: Files, target: Path, leftover: Option<Content>): TaskRun {
    match leftover
    case None => TaskRun(files, false)
    case Some(c) =>
      match FreeName(files, target)
      case None => TaskRun(files, false)
      case Some(p) => TaskRun(files[p := c], false)
  }

  /** Rename: direct when the target is absent; otherwise, or when the direct
      rename is refused, an exclusive create, a copy and a removal of the source. A
      missing source fails the task, unless the file just created stands in for it. */
  function RunRename(files: Files, src: Path, dst: Path, fate: Fate): TaskRun {
    if fate.Fails? then Abandon(files, dst, fate.leftover)
    else if src !in files then
      if FreeName(files, dst) == Some(src) then TaskRun(files, true) else Abandon(files, dst, Some([]))
    else if fate.Succeeds? && dst !in files then TaskRun(MoveTo(files, src, dst), true)
    else match FreeName(files, dst)
         case None => TaskRun(files, false)
         case Some(p) => TaskRun(MoveTo(files, src, p), true)
  }

  /** What a copy puts at its destination, if it gets that far. */
  function CopiedBytes(files: Files, src: Path, dst: Path, fate: Fate): Option<Content> {
    if src !in files then None
    else match fate
         case Fails(leftover) => leftover
         case _ => Some(if src == dst then [] else files[src])
  }

  /** Copy: opens the source, then creates or truncates the destination. */
  function RunCopy(files: Files, src: Path, dst: Path, fate: Fate): TaskRun {
    var w := CopiedBytes(files, src, dst, fate);
    TaskRun(if w.Some? then files[dst := w.value] else files, src in files && !fate.Fails?)
  }

  function BackupPath(f: MediaFile): Path {
    Path(f.path.dir, SplitFilename(f.path.name).0 + "." + f.extension + ".backup")
  }

  function RunBackup(files: Files, src: Path, backup: Path, fate: Fate): TaskRun {
    if fate.Fails? then Abandon(files, backup, fate.leftover)
    else if src !in files then
      if FreeName(files, backup) == Some(src) then TaskRun(files[src := []], true)
      else Abandon(files, backup, Some([]))
    else match FreeName(files, backup)
         case None => TaskRun(files, false)
         case Some(p) => TaskRun(files[p := files[src]], true)
  }

  // ----- Task construction -----

  datatype Policy = Skip | AutoRename | Prompt

  datatype Resolution = At(path: Path) | Refused | Never

  /** The engine's own conflict step. The prompt policy calls itself unchanged on
      an existing target, so it never returns. */
  function ResolveConflict(files: Files, target: Path, policy: Policy): Resolution {
    if target !in files then At(target)
    else match policy
         case Skip => At(target)
         case AutoRename => (match FreeName(files, target) case None => Refused case Some(p) => At(p))
         case Prompt => Never
  }

  datatype Construction = RenameTask(src: Path, dst: Path) | CopyTask(src: Path, dst: Path) | Panics | Hangs

  function Build(op: MatchOperation, files: Files, policy: Policy): Construction {
    var src := op.subtitle.path;
    if op.mode == Copy then
      match op.target
      case None => Panics
      case Some(t) =>
        match ResolveConflict(files, t, policy)
        case At(p) => CopyTask(src, p)
        case Refused => Panics
        case Never => Hangs
    else if op.requiresRelocation && op.target.Some? then
      match ResolveConflict(files, op.target.value, policy)
      case At(p) => RenameTask(src, p)
      case Refused => Panics
      case Never => Hangs
    else RenameTask(src, Path(src.dir, op.newName))
  }

  function RunTask(task: Construction, files: Files, fate: Fate): TaskRun
    requires task.RenameTask? || task.CopyTask?
  {
    if task.RenameTask? then RunRename(files, task.src, task.dst, fate)
    else RunCopy(files, task.src, task.dst, fate)
  }

  // ----- Names the tasks make up -----

  /** Backups and conflict names of a file with an extension: `movie.srt` gives
      `movie.srt.backup` and `movie.1.srt`. */
  lemma MadeUpNames(dir: Dir, stem: string, ext: string, relative: string, i: nat)
    requires stem != "" && ext != "" && '.' !in ext
    ensures var path := Path(dir, stem + "." + ext);
            && BackupPath(MediaFile(path, relative, ext)) == Path(dir, stem + "." + ext + ".backup")
            && ConflictPath(path, i) == Path(dir, stem + "." + Decimal(i) + "." + ext)
  {
    hide SplitFilename, Decimal;
    var name := stem + "." + ext;
    assert name == stem + ("." + ext) && ("." + ext)[1..] == ext;
    SplitsAtExtension(name, stem, "." + ext);
    assert stem + "." + Decimal(i) + ("." + ext) == stem + "." + Decimal(i) + "." + ext;
  }

  /** Without an extension, or with an empty one, the number comes last. */
  lemma MadeUpNamesPlain(dir: Dir, stem: string, i: nat)
    requires stem != "" && '.' !in stem
    ensures ConflictPath(Path(dir, stem), i) == Path(dir, stem + "." + Decimal(i))
    ensures ConflictPath(Path(dir, stem + "."), i) == Path(dir, stem + "." + Decimal(i))
  {
    hide SplitFilename, Decimal;
    NoExtension(stem);
    WholeName(stem);
    SplitsAtExtension(stem + ".", stem, ".");
    assert stem + "." + Decimal(i) + "" == stem + "." + Decimal(i);
  }

  lemma NoExtension(name: string)
    requires '.' !in name
    ensures Extension(name) == ""
  {
  }

  // ----- All outcomes of a task -----

  ghost predicate Renames(files: Files, src: Path, dst: Path, run: TaskRun) {
    exists fate :: RunRename(files, src, dst, fate) == run
  }

  ghost predicate BacksUp(files: Files, src: Path, backup: Path, run: TaskRun) {
    exists fate :: RunBackup(files, src, backup, fate) == run
  }

  ghost predicate Copies(files: Files, src: Path, dst: Path, run: TaskRun) {
    exists fate :: RunCopy(files, src, dst, fate) == run
  }

  /** Nothing has changed, or one path holds something new. */
  predicate SameBut(files: Files, after: Files, p: Option<Path>) {
    after == files || (p.Some? && p.value in after && after == files[p.value := after[p.value]])
  }

  /** Every outcome of a rename, over all fates. It succeeds by putting the content of
      the source on the first free name for the target, or, without a source, by creating
      and removing the very file it was to rename. It fails changing nothing, or leaving
      any part of a copy on the first free name. */
  lemma RenameOutcomes(files: Files, src: Path, dst: Path, after: Files)
    ensures Renames(files, src, dst, TaskRun(after, true))
            <==> && FreeName(files, dst).Some?
                 && if src in files then after == (files - {src})[FreeName(files, dst).value := files[src]]
                    else FreeName(files, dst).value == src && after == files
    ensures Renames(files, src, dst, TaskRun(after, false)) <==> SameBut(files, after, FreeName(files, dst))
  {
    FreeIsFree(files, dst);
    hide FreeName;
    var p := FreeName(files, dst);
    assert RunRename(files, src, dst, Fails(None)) == TaskRun(files, false);
    if p.Some? && p.value in after {
      assert RunRename(files, src, dst, Fails(Some(after[p.value])))
          == TaskRun(files[p.value := after[p.value]], false);
    }
    assert Renames(files, src, dst, RunRename(files, src, dst, NoDirectRename));
  }

  /** Every outcome of a backup: the same, but the source stays, and without a source the
      file it was to save, if that name is the free one, is created empty. */
  lemma BackupOutcomes(files: Files, src: Path, backup: Path, after: Files)
    ensures BacksUp(files, src, backup, TaskRun(after, true))
            <==> && FreeName(files, backup).Some?
                 && if src in files then after == files[FreeName(files, backup).value := files[src]]
                    else FreeName(files, backup).value == src && after == files[src := []]
    ensures BacksUp(files, src, backup, TaskRun(after, false)) <==> SameBut(files, after, FreeName(files, backup))
  {
    hide FreeName;
    var p := FreeName(files, backup);
    assert RunBackup(files, src, backup, Fails(None)) == TaskRun(files, false);
    if p.Some? && p.value in after {
      assert RunBackup(files, src, backup, Fails(Some(after[p.value])))
          == TaskRun(files[p.value := after[p.value]], false);
    }
    assert BacksUp(files, src, backup, RunBackup(files, src, backup, Succeeds));
  }

  /** Every outcome of a copy: it needs its source, overwrites its target, emptying a
      file copied onto itself, and when it fails leaves anything there. */
  lemma CopyOutcomes(files: Files, src: Path, dst: Path, after: Files)
    ensures Copies(files, src, dst, TaskRun(after, true))
            <==> src in files && after == files[dst := if src == dst then [] else files[src]]
    ensures Copies(files, src, dst, TaskRun(after, false))
            <==> after == files || (src in files && SameBut(files, after, Some(dst)))
  {
    assert RunCopy(files, src, dst, Fails(None)) == TaskRun(files, false);
    if src in files && dst in after {
      assert RunCopy(files, src, dst, Fails(Some(after[dst]))) == TaskRun(files[dst := after[dst]], false);
    }
    assert Copies(files, src, dst, RunCopy(files, src, dst, Succeeds));
  }

  lemma FreeIsFree(files: Files, target: Path)
    ensures target !in files ==> FreeName(files, target) == Some(target)
  {
  }

  // ----- What the tasks keep -----

  /** Every content is still stored somewhere. */
  predicate Keeps(before: Files, after: Files) {
    before.Values <= after.Values
  }

  /** A rename task never loses a content, whatever exists at its target and
      however it fails. */
  lemma RenameKeeps(files: Files, src: Path, dst: Path, fate: Fate)
    ensures Keeps(files, RunRename(files, src, dst, fate).files)
  {
    hide FreeName;
    var after := RunRename(files, src, dst, fate).files;
    forall v | v in files.Values
      ensures v in after.Values
    {
      var p :| p in files && files[p] == v;
      if p != src || src in after {
        assert p in after && after[p] == v;
      } else {
        var q := FreeName(files, dst).value;
        assert q in after && after[q] == v;
      }
    }
  }

  /** A rename overwrites no existing file, and a successful one removes its source. */
  lemma RenameTouches(files: Files, src: Path, dst: Path, fate: Fate, p: Path)
    requires p in files
    ensures var run := RunRename(files, src, dst, fate);
            && (p != src ==> p in run.files && run.files[p] == files[p])
            && (p == src ==> (p !in run.files <==> run.ok))
  {
  }

  lemma BackupKeeps(files: Files, src: Path, backup: Path, fate: Fate)
    ensures Keeps(files, RunBackup(files, src, backup, fate).files)
  {
    var after := RunBackup(files, src, backup, fate).files;
    forall v | v in files.Values
      ensures v in after.Values
    {
      var p :| p in files && files[p] == v;
      assert p in after && after[p] == v;
    }
  }

  /** A copy, failed or not, keeps every content exactly if its target was absent or
      untouched, or the target holds what it held, or another file does. */
  lemma CopyKeepsExactly(files: Files, src: Path, dst: Path, fate: Fate)
    ensures var w := CopiedBytes(files, src, dst, fate);
            Keeps(files, RunCopy(files, src, dst, fate).files)
            <==> (dst !in files || w.None? || w.value == files[dst]
                  || exists p | p in files :: p != dst && files[p] == files[dst])
  {
    hide CopiedBytes;
    var after := RunCopy(files, src, dst, fate).files;
    forall p | p in files && (p != dst || after == files)
      ensures files[p] in after.Values
    {
      assert p in after && after[p] == files[p];
    }
    if dst in files {
      assert files[dst] in files.Values;
      assert after[dst] in after.Values;
    }
  }

  /** Renaming a file to its own name is not a no-op: the target exists, so the
      content moves to a numbered name and the original name disappears. */
  lemma SelfRenameMovesAway(files: Files, p: Path)
    requires p in files && FreeName(files, p).Some?
    ensures var r, q := RunRename(files, p, p, Succeeds), FreeName(files, p).value;
            && r.ok && q != p
            && p !in r.files && q in r.files && r.files[q] == files[p]
  {
  }
}
