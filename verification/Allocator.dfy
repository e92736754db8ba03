/** `apply_unique_target_paths`: the batch-wide allocator of destination paths. */
module Allocator {
  import opened Strings
  import opened StableSort
  import opened Paths
  import opened Operations

  const PROBE_LIMIT: nat := 9999

  // ----- Probing one name -----

  function ProbePath(candidate: Path, counter: nat): Path {
    Path(candidate.dir, Numbered(BaseStem(candidate.name), counter, Extension(candidate.name)))
  }

  /** The probe loop: the first counter from `counter` on whose numbered name is
      free. The counter is compared with the limit only after a failed probe, so
      a start beyond the limit is still probed once. */
  function Probe(candidate: Path, counter: nat, taken: set<Path>): Option<nat>
    decreases if counter <= PROBE_LIMIT then PROBE_LIMIT + 1 - counter else 0
  {
    if ProbePath(candidate, counter) !in taken then Some(counter)
    else if counter + 1 > PROBE_LIMIT then None
    else Probe(candidate, counter + 1, taken)
  }

  function Last(counter: nat): nat {
    if counter <= PROBE_LIMIT then PROBE_LIMIT else counter
  }

  /** The probe finds the least free counter of its range, and gives up exactly
      when every name of the range is taken. */
  lemma {:induction false} ProbeFindsLeast(candidate: Path, start: nat, taken: set<Path>)
    ensures match Probe(candidate, start, taken)
            case Some(c) =>
              && start <= c <= Last(start)
              && ProbePath(candidate, c) !in taken
              && (forall d | start <= d < c :: ProbePath(candidate, d) in taken)
            case None => forall d | start <= d <= Last(start) :: ProbePath(candidate, d) in taken
    decreases if start <= PROBE_LIMIT then PROBE_LIMIT + 1 - start else 0
  {
    hide ProbePath;
    if ProbePath(candidate, start) in taken && start + 1 <= PROBE_LIMIT {
      ProbeFindsLeast(candidate, start + 1, taken);
    }
  }

  lemma {:induction false} ProbeNamesCount(candidate: Path, lo: nat, hi: nat, taken: set<Path>)
    requires lo <= hi
    requires forall d | lo <= d < hi :: ProbePath(candidate, d) in taken
    ensures hi - lo <= |taken|
    decreases hi - lo
  {
    if lo < hi {
      var p := ProbePath(candidate, hi - 1);
      forall d | lo <= d < hi - 1
        ensures ProbePath(candidate, d) in taken - {p}
      {
        if ProbePath(candidate, d) == p {
          NumberedInjective(BaseStem(candidate.name), d, hi - 1, Extension(candidate.name));
        }
      }
      ProbeNamesCount(candidate, lo, hi - 1, taken - {p});
    }
  }

  function InDir(paths: set<Path>, dir: Dir): set<Path> {
    set p | p in paths && p.dir == dir
  }

  /** Numbered names are pairwise different and stay in one directory, so a start
      counter that leaves room for one more name than there are taken paths in that
      directory always succeeds. */
  lemma ProbePigeonhole(candidate: Path, start: nat, taken: set<Path>)
    requires start + |InDir(taken, candidate.dir)| <= PROBE_LIMIT
    ensures Probe(candidate, start, taken).Some?
  {
    ProbeFindsLeast(candidate, start, taken);
    if Probe(candidate, start, taken).None? {
      ProbeNamesCount(candidate, start, PROBE_LIMIT + 1, InDir(taken, candidate.dir));
    }
  }

  // ----- Resolving one operation -----

  /** Paths an operation may not use: those already handed out, those another
      operation asked for, and existing files other than its own source. */
  function Taken(op: MatchOperation, claimed: set<Path>, reserved: set<Path>, disk: set<Path>): set<Path> {
    claimed + (reserved - {FinalTarget(op)}) + (disk - {op.subtitle.path})
  }

  predicate Exhausts(op: MatchOperation, claimed: set<Path>, reserved: set<Path>, disk: set<Path>) {
    var c, taken := FinalTarget(op), Taken(op, claimed, reserved, disk);
    c in taken && Probe(c, StartCounter(c.name), taken).None?
  }

  function Resolve(op: MatchOperation, claimed: set<Path>, reserved: set<Path>, disk: set<Path>): Path {
    var c, taken := FinalTarget(op), Taken(op, claimed, reserved, disk);
    if c !in taken then c
    else match Probe(c, StartCounter(c.name), taken)
         case Some(n) => ProbePath(c, n)
         case None => c
  }

  /** `r` carries the least free counter from the operation's start counter on. */
  predicate RenumberedLeast(op: MatchOperation, r: Path, taken: set<Path>) {
    var c := FinalTarget(op);
    exists n | StartCounter(c.name) <= n <= Last(StartCounter(c.name)) ::
      r == ProbePath(c, n) && r !in taken && forall d | StartCounter(c.name) <= d < n :: ProbePath(c, d) in taken
  }

  /** What one resolution guarantees, whatever was claimed before. */
  lemma ResolveProperties(op: MatchOperation, claimed: set<Path>, reserved: set<Path>, disk: set<Path>)
    ensures var r := Resolve(op, claimed, reserved, disk);
            && r.dir == FinalTarget(op).dir
            && (r in Taken(op, claimed, reserved, disk) <==> Exhausts(op, claimed, reserved, disk))
            && (r in reserved ==> r == FinalTarget(op))
            && (r != FinalTarget(op) ==> RenumberedLeast(op, r, Taken(op, claimed, reserved, disk)))
  {
    var c, taken := FinalTarget(op), Taken(op, claimed, reserved, disk);
    ProbeFindsLeast(c, StartCounter(c.name), taken);
  }

  method ResolveTarget(op: MatchOperation, claimed: set<Path>, reserved: set<Path>, disk: set<Path>)
    returns (resolved: Path)
    ensures resolved == Resolve(op, claimed, reserved, disk)
  {
    var candidate := FinalTarget(op);
    var (stem, ext) := SplitFilename(candidate.name);
    var (base, existing) := SplitNumericTail(stem);
    var taken := Taken(op, claimed, reserved, disk);
    resolved := candidate;
    if candidate in taken {
      var counter := StartCounter(candidate.name);
      while true
        invariant counter == StartCounter(candidate.name) || counter <= PROBE_LIMIT
        invariant Probe(candidate, StartCounter(candidate.name), taken) == Probe(candidate, counter, taken)
        invariant resolved == candidate
        decreases if counter <= PROBE_LIMIT then PROBE_LIMIT + 1 - counter else 0
      {
        var probe := Path(candidate.dir, Numbered(base, counter, ext));
        if probe !in taken {
          resolved := probe;
          break;
        }
        counter := counter + 1;
        if counter > PROBE_LIMIT {
          break;
        }
      }
    }
  }

  // ----- The whole batch -----

  function KeyOf(op: MatchOperation): SortKey {
    SortKey(FinalTarget(op).dir, op.subtitle.relativePath)
  }

  datatype Tagged = Tagged(index: nat, key: SortKey)

  predicate TaggedLe(a: Tagged, b: Tagged) {
    KeyLe(a.key, b.key)
  }

  function Tags(ops: seq<MatchOperation>): (r: seq<Tagged>)
    ensures |r| == |ops|
  {
    seq(|ops|, i requires 0 <= i < |ops| => Tagged(i, KeyOf(ops[i])))
  }

  /** Processing order: indices stably sorted by target directory, then by
      relative path. */
  function Order(ops: seq<MatchOperation>): (r: seq<nat>)
    ensures |r| == |ops|
  {
    var sorted := Sort(Tags(ops), TaggedLe);
    seq(|ops|, k requires 0 <= k < |ops| => sorted[k].index)
  }

  ghost predicate IsPermutation(order: seq<nat>, n: nat) {
    && |order| == n
    && (forall k | 0 <= k < n :: order[k] < n)
    && Distinct(order)
    && (forall i: nat | i < n :: i in order)
  }

  lemma OrderIsPermutation(ops: seq<MatchOperation>)
    ensures IsPermutation(Order(ops), |ops|)
  {
    var tags, sorted, order := Tags(ops), Sort(Tags(ops), TaggedLe), Order(ops);
    PermutationDistinct(tags, sorted);
    forall k | 0 <= k < |ops|
      ensures order[k] < |ops| && sorted[k] == tags[order[k]]
    {
      assert sorted[k] in multiset(sorted);
      assert sorted[k] in tags;
    }
    forall i: nat | i < |ops|
      ensures i in order
    {
      assert tags[i] in multiset(sorted);
      var k :| 0 <= k < |sorted| && sorted[k] == tags[i];
      assert order[k] == i;
    }
  }

  function Pick(ops: seq<MatchOperation>, order: seq<nat>): (r: seq<MatchOperation>)
    requires forall k | 0 <= k < |order| :: order[k] < |ops|
    ensures |r| == |order|
    ensures forall k | 0 <= k < |order| :: r[k] == ops[order[k]]
  {
    seq(|order|, k requires 0 <= k < |order| => ops[order[k]])
  }

  function Sorted(ops: seq<MatchOperation>): (r: seq<MatchOperation>)
    ensures |r| == |ops|
  {
    OrderIsPermutation(ops);
    Pick(ops, Order(ops))
  }

  function Candidates(ops: seq<MatchOperation>): set<Path> {
    set op | op in ops :: FinalTarget(op)
  }

  function Elements(paths: seq<Path>): set<Path> {
    set p | p in paths
  }

  /** The paths handed out, in processing order. */
  function Resolutions(sorted: seq<MatchOperation>, reserved: set<Path>, disk: set<Path>): (r: seq<Path>)
    ensures |r| == |sorted|
  {
    if sorted == [] then []
    else
      var n := |sorted| - 1;
      var earlier := Resolutions(sorted[..n], reserved, disk);
      earlier + [Resolve(sorted[n], Elements(earlier), reserved, disk)]
  }

  function WithTarget(op: MatchOperation, p: Path): MatchOperation {
    op.(newName := p.name, target := if op.target.Some? then Some(p) else None)
  }

  /** Writes each resolution back to the operation it belongs to. */
  function Scatter(ops: seq<MatchOperation>, order: seq<nat>, paths: seq<Path>): (r: seq<MatchOperation>)
    requires |paths| == |order|
    requires forall k | 0 <= k < |order| :: order[k] < |ops|
    ensures |r| == |ops|
  {
    if order == [] then ops
    else
      var n := |order| - 1;
      Scatter(ops, order[..n], paths[..n])[order[n] := WithTarget(ops[order[n]], paths[n])]
  }

  function Allocate(ops: seq<MatchOperation>, disk: set<Path>): (r: seq<MatchOperation>)
    ensures |r| == |ops|
  {
    OrderIsPermutation(ops);
    Scatter(ops, Order(ops), Resolutions(Sorted(ops), Candidates(ops), disk))
  }

  lemma {:induction false} ScatterAt(ops: seq<MatchOperation>, order: seq<nat>, paths: seq<Path>, i: nat)
    requires |paths| == |order| && i < |ops| && Distinct(order)
    requires forall k | 0 <= k < |order| :: order[k] < |ops|
    ensures i !in order ==> Scatter(ops, order, paths)[i] == ops[i]
    ensures forall k | 0 <= k < |order| && order[k] == i ::
              Scatter(ops, order, paths)[i] == WithTarget(ops[i], paths[k])
  {
    if order != [] {
      ScatterAt(ops, order[..|order| - 1], paths[..|order| - 1], i);
    }
  }

  /** The batch after the first `k` operations in processing order are resolved. */
  ghost function Progress(ops: seq<MatchOperation>, disk: set<Path>, k: nat): (r: seq<MatchOperation>)
    requires k <= |ops|
    ensures |r| == |ops|
  {
    OrderIsPermutation(ops);
    Scatter(ops, Order(ops)[..k], Resolutions(Sorted(ops), Candidates(ops), disk)[..k])
  }

  ghost function Claimed(ops: seq<MatchOperation>, disk: set<Path>, k: nat): set<Path>
    requires k <= |ops|
  {
    Elements(Resolutions(Sorted(ops), Candidates(ops), disk)[..k])
  }

  lemma ProgressEnds(ops: seq<MatchOperation>, disk: set<Path>)
    ensures Progress(ops, disk, 0) == ops && Claimed(ops, disk, 0) == {}
    ensures Progress(ops, disk, |ops|) == Allocate(ops, disk)
  {
    var order, paths := Order(ops), Resolutions(Sorted(ops), Candidates(ops), disk);
    assert order[..|ops|] == order && paths[..|ops|] == paths;
  }

  /** One turn of the allocation loop: the next operation, so far untouched, gets
      the path resolved against everything claimed. */
  lemma ProgressStep(ops: seq<MatchOperation>, disk: set<Path>, k: nat)
    requires k < |ops|
    ensures Order(ops)[k] < |ops|
    ensures var i := Order(ops)[k];
            var p := Resolve(ops[i], Claimed(ops, disk, k), Candidates(ops), disk);
            && Progress(ops, disk, k)[i] == ops[i]
            && Progress(ops, disk, k + 1) == Progress(ops, disk, k)[i := WithTarget(ops[i], p)]
            && Claimed(ops, disk, k + 1) == Claimed(ops, disk, k) + {p}
  {
    hide Resolve, Scatter, Order, Resolutions;
    OrderIsPermutation(ops);
    ScatterStep(ops, Order(ops), Resolutions(Sorted(ops), Candidates(ops), disk), k);
    ResolutionAt(Sorted(ops), Candidates(ops), disk, k);
  }

  /** The allocator, in place on the batch. */
  method ApplyUniqueTargetPaths(ops: array<MatchOperation>, disk: set<Path>)
    modifies ops
    ensures ops[..] == Allocate(old(ops[..]), disk)
  {
    hide Order, Allocate, Resolve, Candidates, Progress, Claimed;
    ghost var start := ops[..];
    var order := Order(ops[..]);
    var reserved := Candidates(ops[..]);
    var claimed: set<Path> := {};
    ProgressEnds(start, disk);
    for k := 0 to |order|
      invariant claimed == Claimed(start, disk, k)
      invariant ops[..] == Progress(start, disk, k)
    {
      var idx := order[k];
      ProgressStep(start, disk, k);
      var op := ops[idx];
      assert op == ops[..][idx];
      var resolved := ResolveTarget(op, claimed, reserved, disk);
      ops[idx] := op.(newName := resolved.name, target := if op.target.Some? then Some(resolved) else None);
      claimed := claimed + {resolved};
    }
  }

  lemma {:induction false} ScatterStep(ops: seq<MatchOperation>, order: seq<nat>, paths: seq<Path>, k: nat)
    requires |paths| == |order| && Distinct(order) && k < |order|
    requires forall j | 0 <= j < |order| :: order[j] < |ops|
    ensures Scatter(ops, order[..k], paths[..k])[order[k]] == ops[order[k]]
    ensures Scatter(ops, order[..k + 1], paths[..k + 1])
            == Scatter(ops, order[..k], paths[..k])[order[k] := WithTarget(ops[order[k]], paths[k])]
    ensures Elements(paths[..k + 1]) == Elements(paths[..k]) + {paths[k]}
  {
    assert order[k] !in order[..k];
    ScatterAt(ops, order[..k], paths[..k], order[k]);
    assert order[..k + 1][..k] == order[..k];
    assert paths[..k + 1][..k] == paths[..k];
    assert paths[..k + 1] == paths[..k] + [paths[k]];
  }

  lemma {:induction false} ResolutionAt(sorted: seq<MatchOperation>, reserved: set<Path>, disk: set<Path>, k: nat)
    requires k < |sorted|
    ensures var r := Resolutions(sorted, reserved, disk);
            r[k] == Resolve(sorted[k], Elements(r[..k]), reserved, disk)
  {
    var n := |sorted| - 1;
    if k < n {
      ResolutionAt(sorted[..n], reserved, disk, k);
      var r := Resolutions(sorted, reserved, disk);
      assert r[..k] == Resolutions(sorted[..n], reserved, disk)[..k];
    } else {
      var r := Resolutions(sorted, reserved, disk);
      assert r[..n] == Resolutions(sorted[..n], reserved, disk);
    }
  }

  /** The position of operation `i` in the processing order. */
  ghost function Rank(ops: seq<MatchOperation>, i: nat): (k: nat)
    requires i < |ops|
    ensures k < |ops| && Order(ops)[k] == i && Sorted(ops)[k] == ops[i]
  {
    OrderIsPermutation(ops);
    assert i in Order(ops);
    var k :| 0 <= k < |ops| && Order(ops)[k] == i;
    k
  }

  /** The `k`-th operation processed receives the `k`-th resolution, and nothing
      else about it changes. */
  lemma AllocatedAt(ops: seq<MatchOperation>, disk: set<Path>, k: nat)
    requires k < |ops|
    ensures var i, r := Order(ops)[k], Resolutions(Sorted(ops), Candidates(ops), disk);
            && i < |ops|
            && Sorted(ops)[k] == ops[i]
            && Allocate(ops, disk)[i] == WithTarget(ops[i], r[k])
            && FinalTarget(Allocate(ops, disk)[i]) == r[k]
            && r[k] == Resolve(ops[i], Elements(r[..k]), Candidates(ops), disk)
  {
    OrderIsPermutation(ops);
    var i, r := Order(ops)[k], Resolutions(Sorted(ops), Candidates(ops), disk);
    ScatterAt(ops, Order(ops), r, i);
    ResolutionAt(Sorted(ops), Candidates(ops), disk, k);
    ResolveProperties(ops[i], Elements(r[..k]), Candidates(ops), disk);
  }
}
