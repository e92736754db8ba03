/** Match operations: what the planner builds, what the archive rewrite changes,
    and where an operation finally lands. */
module Operations {
  import opened Strings
  import opened Paths

  /** `relativePath` orders the batch; `extension` names backups. */
  datatype MediaFile = MediaFile(path: Path, relativePath: string, extension: string)

  datatype RelocationMode = InPlace | Copy | Move

  datatype MatchOperation = MatchOperation(
    video: MediaFile,
    subtitle: MediaFile,
    newName: string,
    mode: RelocationMode,
    target: Option<Path>,
    requiresRelocation: bool)

  /** Where the operation puts its file: the relocation target when there is one,
      else beside the subtitle under the new name. */
  function FinalTarget(op: MatchOperation): Path {
    match op.target
    case Some(p) => p
    case None => Path(op.subtitle.path.dir, op.newName)
  }

  /** The planner's operation for one accepted pair: it relocates exactly when a
      mode is set and the two files live in different directories. */
  function PlanOperation(video: MediaFile, subtitle: MediaFile, newName: string, mode: RelocationMode)
    : MatchOperation
  {
    var relocate := mode != InPlace && subtitle.path.dir != video.path.dir;
    MatchOperation(video, subtitle, newName, mode,
                   if relocate then Some(Path(video.path.dir, newName)) else None, relocate)
  }

  /** Forces an archive-extracted subtitle that is not yet relocated to be copied
      beside its video. */
  function ArchiveRewrite(op: MatchOperation, fromArchive: bool): MatchOperation {
    if fromArchive && !op.requiresRelocation
    then op.(target := Some(Path(op.video.path.dir, op.newName)), requiresRelocation := true, mode := Copy)
    else op
  }

  function ArchiveRewriteAll(ops: seq<MatchOperation>, fromArchive: Path -> bool): (r: seq<MatchOperation>)
    ensures |r| == |ops|
  {
    seq(|ops|, i requires 0 <= i < |ops| => ArchiveRewrite(ops[i], fromArchive(ops[i].subtitle.path)))
  }

  method ApplyArchiveOriginRelocation(ops: array<MatchOperation>, fromArchive: Path -> bool)
    modifies ops
    ensures ops[..] == ArchiveRewriteAll(old(ops[..]), fromArchive)
  {
    for i := 0 to ops.Length
      invariant forall j | 0 <= j < i ::
                  ops[j] == ArchiveRewrite(old(ops[..])[j], fromArchive(old(ops[..])[j].subtitle.path))
      invariant forall j | i <= j < ops.Length :: ops[j] == old(ops[..])[j]
    {
      var op := ops[i];
      if fromArchive(op.subtitle.path) && !op.requiresRelocation {
        ops[i] := op.(target := Some(Path(op.video.path.dir, op.newName)), requiresRelocation := true, mode := Copy);
      }
    }
  }

  /** The shape both execution loops rely on: the relocation flag and the
      relocation target agree. */
  predicate Consistent(op: MatchOperation) {
    op.requiresRelocation <==> op.target.Some?
  }

  /** A Copy-mode operation without a relocation target makes task construction
      unwrap a missing value. */
  predicate CopyHasTarget(op: MatchOperation) {
    op.mode == Copy ==> op.target.Some?
  }

  /** Planning followed by the archive rewrite always yields consistent
      operations; an archive's subtitle always relocates, by copy unless the caller's
      own mode already relocates it; and the copy-mode hazard remains exactly for a
      Copy plan whose subtitle already sits in the video's directory and is not from
      an archive. */
  lemma PlannedOperationShape(video: MediaFile, subtitle: MediaFile, newName: string, mode: RelocationMode,
                              fromArchive: bool)
    ensures var op := ArchiveRewrite(PlanOperation(video, subtitle, newName, mode), fromArchive);
            && Consistent(op)
            && (!CopyHasTarget(op) <==> mode == Copy && subtitle.path.dir == video.path.dir && !fromArchive)
            && op.mode == (if fromArchive && (mode == InPlace || subtitle.path.dir == video.path.dir) then Copy
                           else mode)
            && (fromArchive ==> op.requiresRelocation)
            && (op.requiresRelocation ==> FinalTarget(op) == Path(video.path.dir, newName))
            && (!op.requiresRelocation ==> FinalTarget(op) == Path(subtitle.path.dir, newName))
  {
  }
}
