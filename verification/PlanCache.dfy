/** The match cache: saving an allocated plan, rebuilding it, and the two freshness
    checks. Paths are taken as canonical. */
module PlanCache {
  import opened Strings
  import opened Paths
  import opened Operations
  import Filesystem
  import opened Allocator
  import opened AllocatorTheorems

  datatype Meta = Meta(size: nat, mtime: nat)

  type Disk = map<Path, Meta>

  datatype OpItem = OpItem(video: Path, subtitle: Path, newName: string)

  /** Older caches carry no path. */
  datatype SnapshotItem = SnapshotItem(path: Option<Path>, meta: Meta)

  datatype CacheData = CacheData(
    version: string,
    key: string,
    snapshot: seq<SnapshotItem>,
    items: seq<OpItem>,
    originalMode: string)

  const CURRENT_CACHE_VERSION := "2.0"

  function ModeName(mode: RelocationMode): string {
    match mode case InPlace => "None" case Copy => "Copy" case Move => "Move"
  }

  // ----- Saving -----

  function FilesOf(ops: seq<MatchOperation>): seq<Path> {
    if ops == [] then []
    else FilesOf(ops[..|ops| - 1]) + [ops[|ops| - 1].video.path, ops[|ops| - 1].subtitle.path]
  }

  /** One item per distinct file that is present, in order of first mention. */
  function Snapshot(paths: seq<Path>, disk: Disk): seq<SnapshotItem> {
    if paths == [] then []
    else
      var n := |paths| - 1;
      var p := paths[n];
      Snapshot(paths[..n], disk) + if p !in paths[..n] && p in disk then [SnapshotItem(Some(p), disk[p])] else []
  }

  function Items(ops: seq<MatchOperation>): (r: seq<OpItem>)
    ensures |r| == |ops|
  {
    seq(|ops|, i requires 0 <= i < |ops| => OpItem(ops[i].video.path, ops[i].subtitle.path, ops[i].newName))
  }

  function Saved(key: string, ops: seq<MatchOperation>, mode: RelocationMode, disk: Disk): CacheData {
    CacheData(CURRENT_CACHE_VERSION, key, Snapshot(FilesOf(ops), disk), Items(ops), ModeName(mode))
  }

  /** The recorded mode name tells the modes apart. */
  lemma SavedModeExactly(key: string, ops: seq<MatchOperation>, mode: RelocationMode, disk: Disk)
    ensures var name := Saved(key, ops, mode, disk).originalMode;
            && (name == "None" <==> mode == InPlace)
            && (name == "Copy" <==> mode == Copy)
            && (name == "Move" <==> mode == Move)
  {
    hide Snapshot;
  }

  /** `p` is mentioned before the first mention of `q`. */
  predicate MentionedBefore(paths: seq<Path>, p: Path, q: Path) {
    exists n | 0 <= n <= |paths| :: p in paths[..n] && q !in paths[..n]
  }

  /** The entries of `s` stand for different files, in the order of first mention. */
  ghost predicate InOrder(s: seq<SnapshotItem>, paths: seq<Path>) {
    && (forall x | x in s :: x.path.Some? && x.path.value in paths)
    && (forall i, j | 0 <= i < j < |s| ::
          s[i].path.Some? && s[j].path.Some? && MentionedBefore(paths, s[i].path.value, s[j].path.value))
  }

  /** The snapshot holds one entry per distinct present file, with its size and time now,
      in the order of first mention. */
  lemma {:induction false} SnapshotExactly(paths: seq<Path>, disk: Disk)
    ensures forall x :: x in Snapshot(paths, disk)
              <==> x.path.Some? && x.path.value in paths && x.path.value in disk && x.meta == disk[x.path.value]
    ensures InOrder(Snapshot(paths, disk), paths)
  {
    hide InOrder;
    if paths == [] {
      NothingInOrder();
    } else {
      var n := |paths| - 1;
      var p := paths[n];
      SnapshotExactly(paths[..n], disk);
      assert paths == paths[..n] + [p];
      var before := Snapshot(paths[..n], disk);
      assert Snapshot(paths, disk)
          == if p !in paths[..n] && p in disk then before + [SnapshotItem(Some(p), disk[p])] else before;
      OrderGrows(before, paths[..n], p, if p in disk then disk[p] else Meta(0, 0));
    }
  }

  lemma NothingInOrder()
    ensures InOrder([], [])
  {
  }

  lemma OrderGrows(s: seq<SnapshotItem>, paths: seq<Path>, p: Path, meta: Meta)
    requires InOrder(s, paths)
    ensures InOrder(s, paths + [p])
    ensures p !in paths ==> InOrder(s + [SnapshotItem(Some(p), meta)], paths + [p])
  {
    var all := paths + [p];
    forall x, y | MentionedBefore(paths, x, y)
      ensures MentionedBefore(all, x, y)
    {
      var n :| 0 <= n <= |paths| && x in paths[..n] && y !in paths[..n];
      assert all[..n] == paths[..n];
    }
    if p !in paths {
      assert all[..|paths|] == paths;
      forall x | x in paths
        ensures MentionedBefore(all, x, p)
      {
      }
      var t := s + [SnapshotItem(Some(p), meta)];
      forall i, j | 0 <= i < j < |t|
        ensures t[i].path.Some? && t[j].path.Some? && MentionedBefore(all, t[i].path.value, t[j].path.value)
      {
        assert t[i] in s;
        assert j < |s| ==> t[j] in s;
      }
    }
  }

  method SaveFileListCache(key: string, ops: seq<MatchOperation>, mode: RelocationMode, disk: Disk)
    returns (cache: CacheData)
    ensures cache == Saved(key, ops, mode, disk)
  {
    var items: seq<OpItem> := [];
    for i := 0 to |ops|
      invariant items == Items(ops)[..i]
    {
      items := items + [OpItem(ops[i].video.path, ops[i].subtitle.path, ops[i].newName)];
    }
    var snapshot := BuildSnapshot(ops, disk);
    cache := CacheData(CURRENT_CACHE_VERSION, key, snapshot, items, ModeName(mode));
  }

  method BuildSnapshot(ops: seq<MatchOperation>, disk: Disk) returns (snapshot: seq<SnapshotItem>)
    ensures snapshot == Snapshot(FilesOf(ops), disk)
  {
    snapshot := [];
    var seen: set<Path> := {};
    for i := 0 to |ops|
      invariant snapshot == Snapshot(FilesOf(ops[..i]), disk)
      invariant forall p :: p in seen <==> p in FilesOf(ops[..i])
    {
      FilesOfNext(ops, i);
      hide Snapshot, FilesOf;
      ghost var before := FilesOf(ops[..i]);
      seen, snapshot := Observe(before, ops[i].video.path, seen, snapshot, disk);
      seen, snapshot := Observe(before + [ops[i].video.path], ops[i].subtitle.path, seen, snapshot, disk);
    }
    assert ops[..|ops|] == ops;
  }

  lemma FilesOfNext(ops: seq<MatchOperation>, i: nat)
    requires i < |ops|
    ensures FilesOf(ops[..i + 1]) == FilesOf(ops[..i]) + [ops[i].video.path] + [ops[i].subtitle.path]
  {
    assert ops[..i + 1][..i] == ops[..i];
  }

  /** One path of the save loop: recorded once, and only when present. */
  method Observe(ghost paths: seq<Path>, p: Path, seen: set<Path>, snapshot: seq<SnapshotItem>, disk: Disk)
    returns (seen': set<Path>, snapshot': seq<SnapshotItem>)
    requires snapshot == Snapshot(paths, disk) && forall q :: q in seen <==> q in paths
    ensures snapshot' == Snapshot(paths + [p], disk) && forall q :: q in seen' <==> q in paths + [p]
  {
    assert (paths + [p])[..|paths|] == paths;
    seen', snapshot' := seen, snapshot;
    if p !in seen {
      seen' := seen + {p};
      if p in disk {
        snapshot' := snapshot + [SnapshotItem(Some(p), disk[p])];
      }
    }
  }

  // ----- Rebuilding -----

  /** The minimal media file the rebuild creates from a path. */
  function Rebuilt(p: Path): (f: MediaFile)
    ensures f.path == p && f.relativePath == p.name
  {
    MediaFile(p, p.name, if Extension(p.name) == "" then "" else Extension(p.name)[1..])
  }

  /** A rebuilt file stands for its path: it sorts by its name, and its extension, where
      it has one, is the text after the last dot, so that its backup is a file beside it
      with `.backup` appended. */
  lemma RebuiltMedia(dir: Dir, stem: string, ext: string)
    requires stem != "" && '.' !in ext
    ensures var name := stem + "." + ext;
            && Rebuilt(Path(dir, name)).relativePath == name
            && Rebuilt(Path(dir, name)).extension == ext
            && Filesystem.BackupPath(Rebuilt(Path(dir, name))) == Path(dir, name + ".backup")
    ensures '.' !in stem ==> Rebuilt(Path(dir, stem)).extension == ""
  {
    var name := stem + "." + ext;
    hide SplitFilename;
    assert name == stem + ("." + ext) && ("." + ext)[1..] == ext;
    SplitsAtExtension(name, stem, "." + ext);
    if '.' !in stem { Filesystem.NoExtension(stem); }
  }

  function RebuildItem(item: OpItem, mode: RelocationMode): MatchOperation {
    PlanOperation(Rebuilt(item.video), Rebuilt(item.subtitle), item.newName, mode)
  }

  /** Entries whose files are gone are skipped. */
  function Rebuild(items: seq<OpItem>, mode: RelocationMode, disk: Disk): seq<MatchOperation> {
    if items == [] then []
    else
      var n := |items| - 1;
      Rebuild(items[..n], mode, disk)
        + if items[n].video in disk && items[n].subtitle in disk then [RebuildItem(items[n], mode)] else []
  }

  method ReconstructOperations(cache: CacheData, mode: RelocationMode, disk: Disk) returns (ops: seq<MatchOperation>)
    ensures ops == Rebuild(cache.items, mode, disk)
  {
    hide Rebuilt;
    ops := [];
    for i := 0 to |cache.items|
      invariant ops == Rebuild(cache.items[..i], mode, disk)
    {
      var item := cache.items[i];
      assert cache.items[..i + 1][..i] == cache.items[..i];
      if item.video !in disk || item.subtitle !in disk {
        continue;
      }
      var relocate := mode != InPlace && item.subtitle.dir != item.video.dir;
      ops := ops + [MatchOperation(Rebuilt(item.video), Rebuilt(item.subtitle), item.newName, mode,
                                   if relocate then Some(Path(item.video.dir, item.newName)) else None, relocate)];
    }
    assert cache.items[..|cache.items|] == cache.items;
  }

  /** A cache from another schema version or another file list is not used. */
  function Lookup(cache: Option<CacheData>, key: string, mode: RelocationMode, disk: Disk)
    : Option<seq<MatchOperation>>
  {
    if cache.Some? && cache.value.version == CURRENT_CACHE_VERSION && cache.value.key == key
    then Some(Rebuild(cache.value.items, mode, disk)) else None
  }

  method CheckFileListCache(cache: Option<CacheData>, key: string, mode: RelocationMode, disk: Disk)
    returns (ops: Option<seq<MatchOperation>>)
    ensures ops == Lookup(cache, key, mode, disk)
  {
    if cache.None? || cache.value.version != CURRENT_CACHE_VERSION || cache.value.key != key {
      return None;
    }
    var rebuilt := ReconstructOperations(cache.value, mode, disk);
    return Some(rebuilt);
  }

  // ----- Freshness checks -----

  datatype Reason = NoPath | Missing | SizeChanged | MtimeChanged

  datatype Stale = Stale(path: Option<Path>, reason: Reason)

  function StaleReason(item: SnapshotItem, disk: Disk): Option<Reason> {
    match item.path
    case None => Some(NoPath)
    case Some(p) =>
      if p !in disk then Some(Missing)
      else if disk[p].size != item.meta.size then Some(SizeChanged)
      else if disk[p].mtime != item.meta.mtime then Some(MtimeChanged)
      else None
  }

  /** Which divergence is reported: the first of a missing path, a missing file, another
      size and another time. */
  lemma StaleReasonExactly(item: SnapshotItem, disk: Disk)
    ensures var r, present := StaleReason(item, disk), item.path.Some? && item.path.value in disk;
            && (r == Some(NoPath) <==> item.path.None?)
            && (r == Some(Missing) <==> item.path.Some? && !present)
            && (r == Some(SizeChanged) <==> present && disk[item.path.value].size != item.meta.size)
            && (r == Some(MtimeChanged) <==> present && disk[item.path.value].size == item.meta.size
                                             && disk[item.path.value].mtime != item.meta.mtime)
            && (r == None <==> present && disk[item.path.value] == item.meta)
  {
  }

  /** The stale list names exactly the diverging entries, each with its reason. */
  lemma {:induction false} StaleListExactly(items: seq<SnapshotItem>, disk: Disk, x: Stale)
    ensures x in StaleItems(items, disk)
            <==> exists i | 0 <= i < |items| :: items[i].path == x.path && StaleReason(items[i], disk) == Some(x.reason)
  {
    hide StaleReason;
    if items != [] {
      var n := |items| - 1;
      StaleListExactly(items[..n], disk, x);
      assert items == items[..n] + [items[n]];
    }
  }

  function StaleItems(items: seq<SnapshotItem>, disk: Disk): seq<Stale> {
    if items == [] then []
    else
      var n := |items| - 1;
      var reason := StaleReason(items[n], disk);
      StaleItems(items[..n], disk) + if reason.Some? then [Stale(items[n].path, reason.value)] else []
  }

  method ValidateSnapshot(cache: CacheData, disk: Disk) returns (stale: seq<Stale>)
    ensures stale == StaleItems(cache.snapshot, disk)
  {
    stale := [];
    for i := 0 to |cache.snapshot|
      invariant stale == StaleItems(cache.snapshot[..i], disk)
    {
      var item := cache.snapshot[i];
      assert cache.snapshot[..i + 1][..i] == cache.snapshot[..i];
      if item.path.None? {
        stale := stale + [Stale(None, NoPath)];
        continue;
      }
      var p := item.path.value;
      if p !in disk {
        stale := stale + [Stale(item.path, Missing)];
        continue;
      }
      if disk[p].size != item.meta.size {
        stale := stale + [Stale(item.path, SizeChanged)];
        continue;
      }
      if disk[p].mtime != item.meta.mtime {
        stale := stale + [Stale(item.path, MtimeChanged)];
      }
    }
    assert cache.snapshot[..|cache.snapshot|] == cache.snapshot;
  }

  /** The target recomputed from the recorded mode name. */
  function RecordedTarget(item: OpItem, modeName: string): Path {
    Path(if modeName == "" || modeName == "None" then item.subtitle.dir else item.video.dir, item.newName)
  }

  function Conflicts(items: seq<OpItem>, modeName: string, disk: Disk): seq<Path> {
    if items == [] then []
    else
      var n := |items| - 1;
      var target := RecordedTarget(items[n], modeName);
      Conflicts(items[..n], modeName, disk)
        + if target in disk && target != items[n].subtitle then [target] else []
  }

  /** The conflict list names exactly the existing targets, beside the subtitle when no
      mode was recorded and beside the video otherwise, but for the entries' own
      subtitles. */
  lemma {:induction false} ConflictListExactly(items: seq<OpItem>, modeName: string, disk: Disk, p: Path)
    ensures p in Conflicts(items, modeName, disk)
            <==> exists i | 0 <= i < |items| ::
                   && p == Path(if modeName in ["", "None"] then items[i].subtitle.dir else items[i].video.dir,
                                items[i].newName)
                   && p in disk && p != items[i].subtitle
  {
    if items != [] {
      var n := |items| - 1;
      ConflictListExactly(items[..n], modeName, disk, p);
      assert items == items[..n] + [items[n]];
    }
  }

  method ValidateTargetPaths(cache: CacheData, disk: Disk) returns (conflicts: seq<Path>)
    ensures conflicts == Conflicts(cache.items, cache.originalMode, disk)
  {
    conflicts := [];
    var relocates := cache.originalMode != "" && cache.originalMode != "None";
    for i := 0 to |cache.items|
      invariant conflicts == Conflicts(cache.items[..i], cache.originalMode, disk)
    {
      var item := cache.items[i];
      assert cache.items[..i + 1][..i] == cache.items[..i];
      var parent := if relocates then item.video.dir else item.subtitle.dir;
      var target := Path(parent, item.newName);
      if target in disk && target != item.subtitle {
        conflicts := conflicts + [target];
      }
    }
    assert cache.items[..|cache.items|] == cache.items;
  }

  // ----- What a saved plan guarantees -----

  /** The operation has the shape the planner gives it under this mode. */
  predicate Planned(op: MatchOperation, mode: RelocationMode) {
    op == PlanOperation(op.video, op.subtitle, op.newName, mode)
  }

  /** Allocation keeps the planner's shape: only names, and targets with them, change. */
  lemma AllocationKeepsShape(ops: seq<MatchOperation>, mode: RelocationMode, disk: set<Path>)
    requires forall op | op in ops :: Planned(op, mode)
    ensures forall op | op in Allocate(ops, disk) :: Planned(op, mode)
  {
    var plan := Allocate(ops, disk);
    forall op | op in plan
      ensures Planned(op, mode)
    {
      var i :| 0 <= i < |plan| && plan[i] == op;
      hide Allocate, Resolutions, Sorted, Order, Resolve, Exhausts, Taken, Elements, Candidates;
      var k := Rank(ops, i);
      AllocatedAt(ops, disk, k);
      GrantedAt(ops, disk, k);
      assert ops[i] in ops;
    }
  }

  /** Operations of the plan whose files are still there. */
  function Present(ops: seq<MatchOperation>, disk: Disk): seq<MatchOperation> {
    if ops == [] then []
    else
      var n := |ops| - 1;
      Present(ops[..n], disk) + if ops[n].video.path in disk && ops[n].subtitle.path in disk then [ops[n]] else []
  }

  /** Same files, name, mode and destination; only cosmetic file data may differ. */
  predicate SameOperation(a: MatchOperation, b: MatchOperation) {
    && a.video.path == b.video.path && a.subtitle.path == b.subtitle.path && a.newName == b.newName
    && a.mode == b.mode && a.target == b.target && a.requiresRelocation == b.requiresRelocation
  }

  lemma {:induction false} RebuildMatchesPlan(plan: seq<MatchOperation>, mode: RelocationMode, disk: Disk)
    requires forall op | op in plan :: Planned(op, mode)
    ensures var ops, kept := Rebuild(Items(plan), mode, disk), Present(plan, disk);
            |ops| == |kept| && forall i | 0 <= i < |ops| :: SameOperation(ops[i], kept[i])
  {
    if plan != [] {
      var n := |plan| - 1;
      RebuildMatchesPlan(plan[..n], mode, disk);
      assert Items(plan)[..n] == Items(plan[..n]);
      assert plan[n] in plan;
    }
  }

  /** The round trip: a check finds a saved plan exactly under the key it was saved
      with, at any later time, and then as the operations whose files still exist. */
  lemma SavedIsFound(key: string, plan: seq<MatchOperation>, mode: RelocationMode, disk: Disk, k: string, later: Disk)
    requires forall op | op in plan :: Planned(op, mode)
    ensures var found, kept := Lookup(Some(Saved(key, plan, mode, disk)), k, mode, later), Present(plan, later);
            && (found.Some? <==> k == key)
            && (found.Some? ==>
                  && |found.value| == |kept|
                  && forall i | 0 <= i < |kept| ::
                       SameOperation(found.value[i], kept[i]) && FinalTarget(found.value[i]) == FinalTarget(kept[i]))
  {
    hide Rebuild, Present, Snapshot, FilesOf;
    RebuildMatchesPlan(plan, mode, later);
  }

  /** A plan with nothing saved, or from another schema, is never found. */
  lemma OnlyCurrentIsFound(cache: Option<CacheData>, key: string, mode: RelocationMode, disk: Disk)
    ensures Lookup(cache, key, mode, disk).Some?
            <==> cache.Some? && cache.value.version == "2.0" && cache.value.key == key
  {
  }

  /** Saving an allocated plan and rebuilding it under the same mode, at any later
      time, gives the same operations with the same final targets for all entries
      whose files still exist; without exhaustion they are still pairwise different. */
  lemma CachedPlanAgrees(key: string, ops: seq<MatchOperation>, mode: RelocationMode, disk: Disk, later: Disk)
    requires forall op | op in ops :: Planned(op, mode)
    ensures var plan := Allocate(ops, disk.Keys);
            var found := Lookup(Some(Saved(key, plan, mode, disk)), key, mode, later);
            var rebuilt, kept := Rebuild(Saved(key, plan, mode, disk).items, mode, later), Present(plan, later);
            && found == Some(rebuilt) && |rebuilt| == |kept|
            && (forall i | 0 <= i < |rebuilt| ::
                  SameOperation(rebuilt[i], kept[i]) && FinalTarget(rebuilt[i]) == FinalTarget(kept[i]))
            && (NoExhaustion(ops, disk.Keys) ==>
                  forall i, j | 0 <= i < j < |rebuilt| :: FinalTarget(rebuilt[i]) != FinalTarget(rebuilt[j]))
  {
    var plan := Allocate(ops, disk.Keys);
    AllocationKeepsShape(ops, mode, disk.Keys);
    SavedIsFound(key, plan, mode, disk, key, later);
    if NoExhaustion(ops, disk.Keys) {
      UniqueExactlyWithoutExhaustion(ops, disk.Keys);
      PresentDistinct(plan, later);
    }
  }

  lemma {:induction false} PresentDistinct(plan: seq<MatchOperation>, disk: Disk)
    requires forall i, j | 0 <= i < j < |plan| :: FinalTarget(plan[i]) != FinalTarget(plan[j])
    ensures var kept := Present(plan, disk);
            && (forall op | op in kept :: op in plan)
            && forall i, j | 0 <= i < j < |kept| :: FinalTarget(kept[i]) != FinalTarget(kept[j])
  {
    if plan != [] {
      var n := |plan| - 1;
      PresentDistinct(plan[..n], disk);
      forall op | op in plan[..n]
        ensures FinalTarget(op) != FinalTarget(plan[n])
      {
        var i :| 0 <= i < n && plan[i] == op;
      }
      hide FinalTarget;
      assert plan == plan[..n] + [plan[n]];
    }
  }

  lemma {:induction false} SnapshotCovers(paths: seq<Path>, disk: Disk, later: Disk)
    ensures StaleItems(Snapshot(paths, disk), later) == []
            <==> forall p | p in paths && p in disk :: p in later && later[p] == disk[p]
  {
    hide StaleItems;
    NothingStale(later);
    if paths != [] {
      var n := |paths| - 1;
      var p := paths[n];
      SnapshotCovers(paths[..n], disk, later);
      assert paths == paths[..n] + [p];
      if p !in paths[..n] && p in disk {
        StaleAppend(Snapshot(paths[..n], disk), SnapshotItem(Some(p), disk[p]), later);
      } else {
        assert Snapshot(paths, disk) == Snapshot(paths[..n], disk);
      }
    }
  }

  lemma NothingStale(disk: Disk)
    ensures StaleItems([], disk) == []
  {
  }

  lemma StaleAppend(items: seq<SnapshotItem>, item: SnapshotItem, disk: Disk)
    ensures StaleItems(items + [item], disk) == []
            <==> StaleItems(items, disk) == [] && StaleReason(item, disk).None?
  {
  }

  /** The snapshot check passes exactly when every planned file that was present is
      still present with the same size and modification time. */
  lemma SnapshotCheckExact(key: string, ops: seq<MatchOperation>, mode: RelocationMode, disk: Disk, later: Disk)
    ensures StaleItems(Saved(key, ops, mode, disk).snapshot, later) == []
            <==> forall op | op in ops ::
                   SameFile(op.video.path, disk, later) && SameFile(op.subtitle.path, disk, later)
  {
    SnapshotCovers(FilesOf(ops), disk, later);
    AllSame(ops, disk, later);
  }

  predicate SameFile(p: Path, disk: Disk, later: Disk) {
    p in disk ==> p in later && later[p] == disk[p]
  }

  lemma {:induction false} AllSame(ops: seq<MatchOperation>, disk: Disk, later: Disk)
    ensures (forall p | p in FilesOf(ops) && p in disk :: p in later && later[p] == disk[p])
            <==> forall op | op in ops ::
                   SameFile(op.video.path, disk, later) && SameFile(op.subtitle.path, disk, later)
  {
    if ops != [] {
      var n := |ops| - 1;
      AllSame(ops[..n], disk, later);
      assert ops == ops[..n] + [ops[n]];
      assert FilesOf(ops) == FilesOf(ops[..n]) + [ops[n].video.path, ops[n].subtitle.path];
      hide FilesOf;
    }
  }

  lemma {:induction false} ConflictsOfPlan(plan: seq<MatchOperation>, mode: RelocationMode, disk: Disk)
    requires forall op | op in plan :: Planned(op, mode)
    ensures Conflicts(Items(plan), ModeName(mode), disk) == []
            <==> forall op | op in plan :: FinalTarget(op) in disk ==> FinalTarget(op) == op.subtitle.path
  {
    hide FinalTarget, RecordedTarget, ModeName, Planned;
    if plan != [] {
      var n := |plan| - 1;
      ConflictsOfPlan(plan[..n], mode, disk);
      assert Items(plan)[..n] == Items(plan[..n]);
      assert plan == plan[..n] + [plan[n]];
      TargetIsRecorded(plan[n], mode);
    }
  }

  /** The target recomputed from the mode name is the planned one. */
  lemma TargetIsRecorded(op: MatchOperation, mode: RelocationMode)
    requires Planned(op, mode)
    ensures RecordedTarget(OpItem(op.video.path, op.subtitle.path, op.newName), ModeName(mode)) == FinalTarget(op)
  {
  }

  /** With the disk unchanged since an allocation without exhaustion, both checks
      of the saved plan come back empty. */
  lemma UnchangedDiskPassesChecks(key: string, ops: seq<MatchOperation>, mode: RelocationMode, disk: Disk)
    requires forall op | op in ops :: Planned(op, mode)
    requires NoExhaustion(ops, disk.Keys)
    ensures var cache := Saved(key, Allocate(ops, disk.Keys), mode, disk);
            StaleItems(cache.snapshot, disk) == [] && Conflicts(cache.items, cache.originalMode, disk) == []
  {
    var plan := Allocate(ops, disk.Keys);
    AllocationKeepsShape(ops, mode, disk.Keys);
    UniqueExactlyWithoutExhaustion(ops, disk.Keys);
    SnapshotCheckExact(key, plan, mode, disk, disk);
    forall op | op in plan
      ensures FinalTarget(op) in disk ==> FinalTarget(op) == op.subtitle.path
    {
      var i :| 0 <= i < |plan| && plan[i] == op;
    }
    ConflictsOfPlan(plan, mode, disk);
  }
}
