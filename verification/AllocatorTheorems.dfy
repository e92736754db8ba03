/** What the allocator promises for a whole batch: unique, fresh targets exactly
    when no operation runs out of names; who keeps the name it asked for; when a
    second run changes nothing; the input order does not matter. */
module AllocatorTheorems {
  import opened Strings
  import opened StableSort
  import opened Sets
  import opened Paths
  import opened Operations
  import opened Allocator

  /** All final targets differ, and none is an existing file other than the
      operation's own source. */
  ghost predicate UniqueAndFresh(ops: seq<MatchOperation>, disk: set<Path>) {
    && (forall i, j | 0 <= i < j < |ops| :: FinalTarget(ops[i]) != FinalTarget(ops[j]))
    && (forall i | 0 <= i < |ops| :: FinalTarget(ops[i]) in disk ==> FinalTarget(ops[i]) == ops[i].subtitle.path)
  }

  function Granted(ops: seq<MatchOperation>, disk: set<Path>): (r: seq<Path>)
    ensures |r| == |ops|
  {
    Resolutions(Sorted(ops), Candidates(ops), disk)
  }

  /** The operation processed `k`-th finds its own name and every numbered name
      it may try taken. */
  predicate ExhaustsAt(ops: seq<MatchOperation>, disk: set<Path>, k: nat)
    requires k < |ops|
  {
    Exhausts(Sorted(ops)[k], Elements(Granted(ops, disk)[..k]), Candidates(ops), disk)
  }

  ghost predicate NoExhaustion(ops: seq<MatchOperation>, disk: set<Path>) {
    forall k: nat | k < |ops| :: !ExhaustsAt(ops, disk, k)
  }

  // ----- Uniqueness -----

  lemma GrantedAt(ops: seq<MatchOperation>, disk: set<Path>, k: nat)
    requires k < |ops|
    ensures var r := Granted(ops, disk);
            && r[k] == Resolve(Sorted(ops)[k], Elements(r[..k]), Candidates(ops), disk)
            && r[k].dir == FinalTarget(Sorted(ops)[k]).dir
            && (ExhaustsAt(ops, disk, k) <==> r[k] in Taken(Sorted(ops)[k], Elements(r[..k]), Candidates(ops), disk))
            && (ExhaustsAt(ops, disk, k) ==> r[k] == FinalTarget(Sorted(ops)[k]))
            && (r[k] in Candidates(ops) ==> r[k] == FinalTarget(Sorted(ops)[k]))
  {
    ResolutionAt(Sorted(ops), Candidates(ops), disk, k);
    ResolveProperties(Sorted(ops)[k], Elements(Granted(ops, disk)[..k]), Candidates(ops), disk);
  }

  /** Without exhaustion a grant differs from all earlier grants and is not a
      foreign file. */
  lemma GrantIsFree(ops: seq<MatchOperation>, disk: set<Path>, j: nat, k: nat)
    requires j <= k < |ops| && !ExhaustsAt(ops, disk, k)
    ensures j < k ==> Granted(ops, disk)[j] != Granted(ops, disk)[k]
    ensures Granted(ops, disk)[k] in disk ==> Granted(ops, disk)[k] == Sorted(ops)[k].subtitle.path
  {
    GrantedAt(ops, disk, k);
    if j < k {
      assert Granted(ops, disk)[j] in Granted(ops, disk)[..k];
    }
  }

  /** The batch comes out unique and fresh if and only if no operation runs out
      of names: an operation that does falls back to a path already in use. */
  lemma UniqueExactlyWithoutExhaustion(ops: seq<MatchOperation>, disk: set<Path>)
    ensures UniqueAndFresh(Allocate(ops, disk), disk) <==> NoExhaustion(ops, disk)
  {
    var out := Allocate(ops, disk);
    if NoExhaustion(ops, disk) {
      forall i, j | 0 <= i < j < |out|
        ensures FinalTarget(out[i]) != FinalTarget(out[j])
      {
        var a, b := Rank(ops, i), Rank(ops, j);
        AllocatedAt(ops, disk, a);
        AllocatedAt(ops, disk, b);
        if a < b { GrantIsFree(ops, disk, a, b); } else { GrantIsFree(ops, disk, b, a); }
      }
      forall i | 0 <= i < |out|
        ensures FinalTarget(out[i]) in disk ==> FinalTarget(out[i]) == out[i].subtitle.path
      {
        var k := Rank(ops, i);
        AllocatedAt(ops, disk, k);
        GrantIsFree(ops, disk, k, k);
      }
    } else {
      var k: nat :| k < |ops| && ExhaustsAt(ops, disk, k);
      ExhaustionIsVisible(ops, disk, k);
    }
  }

  lemma ExhaustionIsVisible(ops: seq<MatchOperation>, disk: set<Path>, k: nat)
    requires k < |ops| && ExhaustsAt(ops, disk, k)
    ensures !UniqueAndFresh(Allocate(ops, disk), disk)
  {
    var r, out, order := Granted(ops, disk), Allocate(ops, disk), Order(ops);
    GrantedAt(ops, disk, k);
    AllocatedAt(ops, disk, k);
    if r[k] in r[..k] {
      var j :| 0 <= j < k && r[j] == r[k];
      AllocatedAt(ops, disk, j);
      OrderIsPermutation(ops);
      var a, b := order[j], order[k];
      assert FinalTarget(out[a]) == FinalTarget(out[b]) && a != b;
      assert a < b || b < a;
    } else {
      assert FinalTarget(out[order[k]]) in disk;
    }
  }

  /** The operations that ask for a path in a directory. */
  function OpsInto(ops: seq<MatchOperation>, dir: Dir): set<nat> {
    set i: nat | i < |ops| && FinalTarget(ops[i]).dir == dir
  }

  /** A budget that can be checked before the call: in each target directory, the start
      counters plus twice the operations that go there plus the files present there
      must stay within the probe limit. */
  lemma BudgetPreventsExhaustion(ops: seq<MatchOperation>, disk: set<Path>)
    requires forall op | op in ops ::
               var dir := FinalTarget(op).dir;
               StartCounter(FinalTarget(op).name) + 2 * |OpsInto(ops, dir)| + |InDir(disk, dir)| <= 9999
    ensures NoExhaustion(ops, disk)
  {
    hide Sorted, Granted, Probe, StartCounter, FinalTarget, Order;
    forall k: nat | k < |ops|
      ensures !ExhaustsAt(ops, disk, k)
    {
      var op, claimed, reserved := Sorted(ops)[k], Elements(Granted(ops, disk)[..k]), Candidates(ops);
      SortedIsMember(ops, k);
      var dir := FinalTarget(op).dir;
      TakenInDir(ops, disk, k, dir);
      ProbePigeonhole(FinalTarget(op), StartCounter(FinalTarget(op).name), Taken(op, claimed, reserved, disk));
    }
  }

  lemma SortedIsMember(ops: seq<MatchOperation>, k: nat)
    requires k < |ops|
    ensures Sorted(ops)[k] in ops
  {
    OrderIsPermutation(ops);
  }

  /** Within a directory only the operations that go there and the files there count. */
  lemma TakenInDir(ops: seq<MatchOperation>, disk: set<Path>, k: nat, dir: Dir)
    requires k < |ops|
    ensures var taken := Taken(Sorted(ops)[k], Elements(Granted(ops, disk)[..k]), Candidates(ops), disk);
            |InDir(taken, dir)| <= 2 * |OpsInto(ops, dir)| + |InDir(disk, dir)|
  {
    hide Sorted, Granted, FinalTarget, Candidates, Elements, OpsInto;
    var claimed, reserved := Elements(Granted(ops, disk)[..k]), Candidates(ops);
    ClaimedInDir(ops, disk, k, dir);
    AskedInDir(ops, dir);
    var taken := Taken(Sorted(ops)[k], claimed, reserved, disk);
    SubsetSize(InDir(taken, dir), InDir(claimed, dir) + InDir(reserved, dir) + InDir(disk, dir));
    UnionSize(InDir(claimed, dir), InDir(reserved, dir));
    UnionSize(InDir(claimed, dir) + InDir(reserved, dir), InDir(disk, dir));
  }

  lemma ClaimedInDir(ops: seq<MatchOperation>, disk: set<Path>, k: nat, dir: Dir)
    requires k < |ops|
    ensures |InDir(Elements(Granted(ops, disk)[..k]), dir)| <= |OpsInto(ops, dir)|
  {
    hide Sorted, Granted, Order, Allocate, FinalTarget;
    var into, out, r := OpsInto(ops, dir), Allocate(ops, disk), Granted(ops, disk)[..k];
    var gets := (i: nat) => if i < |ops| then FinalTarget(out[i]) else FinalTarget(ops[0]);
    ImageSize(into, gets);
    forall p | p in InDir(Elements(r), dir)
      ensures p in Image(into, gets)
    {
      var j :| 0 <= j < k && r[j] == p;
      GrantGoes(ops, disk, j);
      assert Order(ops)[j] in into && gets(Order(ops)[j]) == p;
    }
    SubsetSize(InDir(Elements(r), dir), Image(into, gets));
  }

  lemma AskedInDir(ops: seq<MatchOperation>, dir: Dir)
    ensures |InDir(Candidates(ops), dir)| <= |OpsInto(ops, dir)|
  {
    hide FinalTarget;
    if ops != [] {
      var into := OpsInto(ops, dir);
      var asks := (i: nat) => if i < |ops| then FinalTarget(ops[i]) else FinalTarget(ops[0]);
      ImageSize(into, asks);
      forall p | p in InDir(Candidates(ops), dir)
        ensures p in Image(into, asks)
      {
        var i :| 0 <= i < |ops| && FinalTarget(ops[i]) == p;
        assert i in into && asks(i) == p;
      }
      SubsetSize(InDir(Candidates(ops), dir), Image(into, asks));
    }
  }

  lemma GrantGoes(ops: seq<MatchOperation>, disk: set<Path>, j: nat)
    requires j < |ops|
    ensures var i := Order(ops)[j];
            && i < |ops| && FinalTarget(Allocate(ops, disk)[i]) == Granted(ops, disk)[j]
            && FinalTarget(ops[i]).dir == Granted(ops, disk)[j].dir
  {
    AllocatedAt(ops, disk, j);
    GrantedAt(ops, disk, j);
  }

  /** Uniqueness does fail when names run out: a lone operation asking for
      `m.9999.srt` gets one probe, and keeps the existing file's name when that
      probe is taken as well. */
  lemma ExhaustionExample(op: MatchOperation, disk: set<Path>)
    requires op.target == Some(Path([], "m.9999.srt"))
    requires {Path([], "m.9999.srt"), Path([], "m.10000.srt")} <= disk
    requires op.subtitle.path.dir != []
    ensures FinalTarget(Allocate([op], disk)[0]) in disk
    ensures !UniqueAndFresh(Allocate([op], disk), disk)
  {
    hide Decimal, LastIndexOf, SplitNumericTail, SplitFilename, Numbered, StartCounter;
    var c := Path([], "m.9999.srt");
    SplitExample(c.name);
    var taken := Taken(op, {}, Candidates([op]), disk);
    assert ProbePath(c, 10000) == Path([], "m.10000.srt");
    assert Probe(c, 10000, taken).None?;
    assert ExhaustsAt([op], disk, 0) by {
      AllocatedAt([op], disk, 0);
      assert Granted([op], disk)[..0] == [];
      assert Elements([]) == {};
    }
    GrantedAt([op], disk, 0);
    AllocatedAt([op], disk, 0);
    ExhaustionIsVisible([op], disk, 0);
  }

  lemma SplitExample(name: string)
    requires name == "m.9999.srt"
    ensures StartCounter(name) == 10000
    ensures Numbered(BaseStem(name), 10000, Extension(name)) == "m.10000.srt"
  {
    SplitNameExample(name);
    SplitStemExample("m.9999");
    DecimalExample();
    hide Decimal, LastIndexOf, SplitNumericTail, SplitFilename, ParseDecimal;
    assert "m" + "." + "10000" + ".srt" == "m.10000.srt";
  }

  lemma SplitNameExample(name: string)
    requires name == "m.9999.srt"
    ensures SplitFilename(name) == ("m.9999", ".srt")
  {
    hide SplitFilename, LastIndexOf;
    SplitsAtExtension(name, "m.9999", ".srt");
  }

  lemma SplitStemExample(stem: string)
    requires stem == "m.9999"
    ensures SplitNumericTail(stem) == ("m", Some(9999))
  {
    DecimalExample();
    hide SplitNumericTail, LastIndexOf, Decimal, ParseDecimal;
    StemResplits("m", 9999);
    assert stem == "m" + "." + "9999";
  }

  lemma DecimalExample()
    ensures Decimal(9999) == "9999" && Decimal(10000) == "10000"
  {
    assert Decimal(9) == "9" && Decimal(99) == "99" && Decimal(999) == "999";
    assert Decimal(1) == "1" && Decimal(10) == "10" && Decimal(100) == "100" && Decimal(1000) == "1000";
  }

  // ----- Who keeps the requested name -----

  /** The requested path is free for the operation: absent, or its own source. */
  predicate Available(op: MatchOperation, disk: set<Path>) {
    FinalTarget(op) !in disk || FinalTarget(op) == op.subtitle.path
  }

  /** Among the operations asking for one path, in processing order, the first
      for which the path is available keeps it and every other one is renumbered. */
  lemma {:induction false} KeepsRequestedName(ops: seq<MatchOperation>, disk: set<Path>, k: nat)
    requires k < |ops| && NoExhaustion(ops, disk)
    ensures var s := Sorted(ops);
            Granted(ops, disk)[k] == FinalTarget(s[k])
            <==> (Available(s[k], disk)
                  && forall j | 0 <= j < k && FinalTarget(s[j]) == FinalTarget(s[k]) :: !Available(s[j], disk))
    decreases k
  {
    hide Sorted, Granted, Order, Allocate, Exhausts, Probe, StartCounter;
    var s, r := Sorted(ops), Granted(ops, disk);
    GrantedAt(ops, disk, k);
    AllocatedAt(ops, disk, k);
    var c := FinalTarget(s[k]);
    assert c in Candidates(ops);
    forall j | 0 <= j < k && FinalTarget(s[j]) == c
      ensures r[j] == c ==> Available(s[j], disk)
    {
      KeepsRequestedName(ops, disk, j);
    }
    forall j | 0 <= j < k && r[j] == c
      ensures FinalTarget(s[j]) == c
    {
      GrantedAt(ops, disk, j);
    }
    if exists j :: 0 <= j < k && FinalTarget(s[j]) == c && Available(s[j], disk) {
      var j :| 0 <= j < k && FinalTarget(s[j]) == c && Available(s[j], disk);
      var first := FirstAvailable(s, disk, c, j);
      KeepsRequestedName(ops, disk, first);
      assert r[first] == c && r[first] in r[..k];
    }
  }

  lemma {:induction false} FirstAvailable(s: seq<MatchOperation>, disk: set<Path>, c: Path, j: nat) returns (first: nat)
    requires j < |s| && FinalTarget(s[j]) == c && Available(s[j], disk)
    ensures first <= j && FinalTarget(s[first]) == c && Available(s[first], disk)
    ensures forall i | 0 <= i < first && FinalTarget(s[i]) == c :: !Available(s[i], disk)
    decreases j
  {
    if i :| 0 <= i < j && FinalTarget(s[i]) == c && Available(s[i], disk) {
      first := FirstAvailable(s, disk, c, i);
    } else {
      first := j;
    }
  }

  /** Nobody takes a slot another operation asked for: a renumbered operation
      never lands on any operation's requested path. */
  lemma NoSlotStolen(ops: seq<MatchOperation>, disk: set<Path>, i: nat, j: nat)
    requires i < |ops| && j < |ops|
    requires FinalTarget(Allocate(ops, disk)[i]) == FinalTarget(ops[j])
    ensures FinalTarget(ops[i]) == FinalTarget(ops[j])
  {
    var k := Rank(ops, i);
    AllocatedAt(ops, disk, k);
    GrantedAt(ops, disk, k);
    assert ops[j] in ops;
  }

  // ----- A second run -----

  /** On its turn, with everything before it left alone, the operation finds its own
      target free, or finds every name it may try taken. */
  predicate StaysAt(ops: seq<MatchOperation>, disk: set<Path>, k: nat)
    requires k < |ops|
  {
    var op, earlier := Sorted(ops)[k], Candidates(Sorted(ops)[..k]);
    FinalTarget(op) !in Taken(op, earlier, Candidates(ops), disk) || Exhausts(op, earlier, Candidates(ops), disk)
  }

  /** Exactly which batches a run leaves alone, exhausted operations included. */
  lemma FixedExactly(ops: seq<MatchOperation>, disk: set<Path>)
    requires forall op | op in ops :: op.newName == FinalTarget(op).name
    ensures Allocate(ops, disk) == ops <==> forall k: nat | k < |ops| :: StaysAt(ops, disk, k)
  {
    if forall k: nat | k < |ops| :: StaysAt(ops, disk, k) {
      forall i: nat | i < |ops|
        ensures Allocate(ops, disk)[i] == ops[i]
      {
        AllocatedAt(ops, disk, Rank(ops, i));
        StayingGrants(ops, disk, Rank(ops, i) + 1);
        assert ops[i] in ops;
      }
    }
    if Allocate(ops, disk) == ops {
      forall k: nat | k < |ops|
        ensures StaysAt(ops, disk, k)
      {
        FixedStays(ops, disk, k);
      }
    }
  }

  lemma {:induction false} StayingGrants(ops: seq<MatchOperation>, disk: set<Path>, k: nat)
    requires k <= |ops| && forall j: nat | j < k :: StaysAt(ops, disk, j)
    ensures forall j | 0 <= j < k :: Granted(ops, disk)[j] == FinalTarget(Sorted(ops)[j])
    decreases k
  {
    hide Granted, Sorted, Probe, StartCounter;
    if k > 0 {
      StayingGrants(ops, disk, k - 1);
      GrantsAreTargets(ops, disk, k - 1);
      GrantedAt(ops, disk, k - 1);
      assert StaysAt(ops, disk, k - 1);
    }
  }

  lemma GrantsAreTargets(ops: seq<MatchOperation>, disk: set<Path>, k: nat)
    requires k <= |ops| && forall j | 0 <= j < k :: Granted(ops, disk)[j] == FinalTarget(Sorted(ops)[j])
    ensures Elements(Granted(ops, disk)[..k]) == Candidates(Sorted(ops)[..k])
  {
  }

  lemma FixedStays(ops: seq<MatchOperation>, disk: set<Path>, k: nat)
    requires k < |ops| && Allocate(ops, disk) == ops
    ensures StaysAt(ops, disk, k)
  {
    hide Allocate, Granted, Sorted, Order, Resolutions;
    forall j | 0 <= j <= k
      ensures Granted(ops, disk)[j] == FinalTarget(Sorted(ops)[j])
    {
      GrantOf(ops, disk, j);
    }
    GrantsAreTargets(ops, disk, k);
    GrantedAt(ops, disk, k);
    ProbeFindsLeast(FinalTarget(Sorted(ops)[k]), StartCounter(FinalTarget(Sorted(ops)[k]).name),
                    Taken(Sorted(ops)[k], Elements(Granted(ops, disk)[..k]), Candidates(ops), disk));
  }

  lemma GrantOf(ops: seq<MatchOperation>, disk: set<Path>, k: nat)
    requires k < |ops| && Allocate(ops, disk) == ops
    ensures Granted(ops, disk)[k] == FinalTarget(Sorted(ops)[k])
  {
    hide Allocate, Sorted, Order, Resolutions;
    AllocatedAt(ops, disk, k);
  }

  /** A batch that is already unique and fresh, with names in step with targets,
      is left alone. */
  lemma UniqueBatchIsFixed(ops: seq<MatchOperation>, disk: set<Path>)
    requires UniqueAndFresh(ops, disk)
    requires forall op | op in ops :: op.newName == FinalTarget(op).name
    ensures Allocate(ops, disk) == ops
  {
    hide Allocate, Sorted, Order, Exhausts;
    var s, order := Sorted(ops), Order(ops);
    OrderIsPermutation(ops);
    forall k: nat | k < |ops|
      ensures StaysAt(ops, disk, k)
    {
      AllocatedAt(ops, disk, k);
      forall j | 0 <= j < k
        ensures FinalTarget(s[j]) != FinalTarget(s[k])
      {
        AllocatedAt(ops, disk, j);
        assert order[j] < order[k] || order[k] < order[j];
      }
    }
    FixedExactly(ops, disk);
  }

  lemma NamesInStep(ops: seq<MatchOperation>, disk: set<Path>)
    ensures forall op | op in Allocate(ops, disk) :: op.newName == FinalTarget(op).name
  {
    var out := Allocate(ops, disk);
    forall op | op in out
      ensures op.newName == FinalTarget(op).name
    {
      var i :| 0 <= i < |out| && out[i] == op;
      AllocatedAt(ops, disk, Rank(ops, i));
    }
  }

  /** Idempotence: after a run without exhaustion, and with the disk unchanged, a
      second run changes no name and no relocation target. */
  lemma AllocateIdempotent(ops: seq<MatchOperation>, disk: set<Path>)
    requires NoExhaustion(ops, disk)
    ensures Allocate(Allocate(ops, disk), disk) == Allocate(ops, disk)
  {
    UniqueExactlyWithoutExhaustion(ops, disk);
    NamesInStep(ops, disk);
    UniqueBatchIsFixed(Allocate(ops, disk), disk);
  }

  /** When a second run changes nothing, for every batch: exactly when each
      operation of the first run's result either finds its target free on its turn or
      runs out of names. */
  lemma IdempotentExactly(ops: seq<MatchOperation>, disk: set<Path>)
    ensures var out := Allocate(ops, disk);
            Allocate(out, disk) == out <==> forall k: nat | k < |ops| :: StaysAt(out, disk, k)
  {
    NamesInStep(ops, disk);
    FixedExactly(Allocate(ops, disk), disk);
  }

  /** The condition does fail, for a planned batch of existing files: `a`, renamed in
      its directory, runs out of names because `b`, coming from elsewhere, has asked
      for the file `a` comes from; `b` moves on to another name, and a second run
      renames `a`. */
  lemma IdempotenceFails(a: MatchOperation, b: MatchOperation, disk: set<Path>)
    requires disk == {Path([], "m.9999.srt"), Path([], "m.10000.srt"), b.subtitle.path}
    requires FinalTarget(a) == Path([], "m.9999.srt") && a.subtitle.path == Path([], "m.10000.srt")
    requires FinalTarget(b) == Path([], "m.10000.srt") && b.subtitle.path.dir != []
    ensures Allocate(Allocate([a, b], disk), disk) != Allocate([a, b], disk)
  {
    hide Allocate, Decimal, LastIndexOf, SplitNumericTail, SplitFilename, Numbered, StartCounter, Probe, Candidates;
    var ops, out := [a, b], Allocate([a, b], disk);
    var p, q, r := Path([], "m.9999.srt"), Path([], "m.10000.srt"), Path([], Numbered("m", 10001, ".srt"));
    ProbeExamples(p, q, r);
    var claimedA := PairGrant(ops, disk, 0);
    var claimedB := PairGrant(ops, disk, 1);
    PairCandidates(a, b);
    assert FinalTarget(out[0]) == p by { LastProbe(p, q, Taken(a, claimedA, {p, q}, disk)); }
    assert FinalTarget(out[1]) == r by { LastProbe(q, r, Taken(b, claimedB, {p, q}, disk)); }
    PairKeepsSources(ops, disk);
    assert out == [out[0], out[1]];
    var claimed := PairGrant(out, disk, 0);
    var claimed' := PairGrant(out, disk, 1);
    PairCandidates(out[0], out[1]);
    ResolveProperties(out[1], claimed', {p, r}, disk);
    assert q !in claimed;
    LastProbe(p, q, Taken(out[0], claimed, {p, r}, disk));
  }

  lemma PairCandidates(a: MatchOperation, b: MatchOperation)
    ensures Candidates([a, b]) == {FinalTarget(a), FinalTarget(b)}
  {
  }

  lemma PairKeepsSources(ops: seq<MatchOperation>, disk: set<Path>)
    ensures forall i | 0 <= i < |ops| ::
              && Allocate(ops, disk)[i].subtitle == ops[i].subtitle
              && Allocate(ops, disk)[i].target.Some? == ops[i].target.Some?
  {
    forall i | 0 <= i < |ops|
      ensures Allocate(ops, disk)[i].subtitle == ops[i].subtitle
      ensures Allocate(ops, disk)[i].target.Some? == ops[i].target.Some?
    {
      AllocatedAt(ops, disk, Rank(ops, i));
    }
  }

  /** In a batch of two, an operation is resolved against at most the other one's grant. */
  lemma PairGrant(ops: seq<MatchOperation>, disk: set<Path>, i: nat) returns (claimed: set<Path>)
    requires |ops| == 2 && i < 2
    ensures claimed <= {FinalTarget(Allocate(ops, disk)[1 - i])}
    ensures FinalTarget(Allocate(ops, disk)[i]) == Resolve(ops[i], claimed, Candidates(ops), disk)
  {
    hide Allocate, Resolve, Candidates, Resolutions, Order, Sorted;
    var k := Rank(ops, i);
    AllocatedAt(ops, disk, k);
    OrderIsPermutation(ops);
    var r := Resolutions(Sorted(ops), Candidates(ops), disk);
    claimed := Elements(r[..k]);
    if k == 1 {
      AllocatedAt(ops, disk, 0);
      assert Order(ops)[0] == 1 - i;
      assert r[..1] == [r[0]];
    }
  }

  /** The outcome of the single probe left beyond the limit. */
  lemma LastProbe(c: Path, next: Path, taken: set<Path>)
    requires StartCounter(c.name) > PROBE_LIMIT && ProbePath(c, StartCounter(c.name)) == next
    ensures Probe(c, StartCounter(c.name), taken) == if next in taken then None else Some(StartCounter(c.name))
  {
  }

  lemma ProbeExamples(p: Path, q: Path, r: Path)
    requires p == Path([], "m.9999.srt") && q == Path([], "m.10000.srt") && r == Path([], Numbered("m", 10001, ".srt"))
    ensures StartCounter(p.name) == 10000 && ProbePath(p, 10000) == q
    ensures StartCounter(q.name) == 10001 && ProbePath(q, 10001) == r
    ensures r != p && r != q
  {
    hide Decimal, LastIndexOf, SplitNumericTail, SplitFilename, ParseDecimal;
    SplitExample(p.name);
    SplitNameExample(p.name);
    SplitStemExample("m.9999");
    NumberedResplits(p.name, 10000);
    if r == q { NumberedInjective("m", 10001, 10000, ".srt"); }
    if r == p {
      DecimalExample();
      assert p.name == "m" + "." + "9999" + ".srt";
      NumberedInjective("m", 10001, 9999, ".srt");
    }
  }

  // ----- The processing order -----

  ghost predicate DistinctKeys(ops: seq<MatchOperation>) {
    forall i, j | 0 <= i < j < |ops| :: KeyOf(ops[i]) != KeyOf(ops[j])
  }

  predicate OpLe(a: MatchOperation, b: MatchOperation) {
    KeyLe(KeyOf(a), KeyOf(b))
  }

  lemma OpLePreorder()
    ensures TotalPreorder(OpLe) && TotalPreorder(TaggedLe)
    ensures forall a, b :: OpLe(a, b) && OpLe(b, a) ==> KeyOf(a) == KeyOf(b)
  {
    forall a, b, c
      ensures OpLe(a, b) || OpLe(b, a)
      ensures OpLe(a, b) && OpLe(b, c) ==> OpLe(a, c)
      ensures OpLe(a, b) && OpLe(b, a) ==> KeyOf(a) == KeyOf(b)
    {
      KeyOrder(KeyOf(a), KeyOf(b), KeyOf(c));
    }
    forall a, b, c
      ensures TaggedLe(a, b) || TaggedLe(b, a)
      ensures TaggedLe(a, b) && TaggedLe(b, c) ==> TaggedLe(a, c)
    {
      KeyOrder(a.key, b.key, c.key);
    }
  }

  /** Operations are processed directory by directory in component order, within a
      directory by relative path, and with equal keys in the order of the batch. */
  lemma ProcessingOrder(ops: seq<MatchOperation>, a: nat, b: nat)
    requires a < b < |ops|
    ensures var x, y := Sorted(ops)[a], Sorted(ops)[b];
            var dx, dy := FinalTarget(x).dir, FinalTarget(y).dir;
            && (dx != dy ==> DirLe(dx, dy))
            && (dx == dy ==> NameLe(x.subtitle.relativePath, y.subtitle.relativePath))
            && (dx == dy && x.subtitle.relativePath == y.subtitle.relativePath ==> Order(ops)[a] < Order(ops)[b])
  {
    SortedIsOrdered(ops);
    assert OpLe(Sorted(ops)[a], Sorted(ops)[b]);
    if KeyOf(Sorted(ops)[a]) == KeyOf(Sorted(ops)[b]) {
      EqualKeysKeepOrder(ops, a, b);
    }
  }

  lemma EqualKeysKeepOrder(ops: seq<MatchOperation>, a: nat, b: nat)
    requires a < b < |ops| && KeyOf(Sorted(ops)[a]) == KeyOf(Sorted(ops)[b])
    ensures Order(ops)[a] < Order(ops)[b]
  {
    var tags, sorted := Tags(ops), Sort(Tags(ops), TaggedLe);
    OpLePreorder();
    SortedKeys(ops);
    SortStable(tags, sorted[a], TaggedLe);
    var p, q := TiesKeepOrder(sorted, sorted[a], TaggedLe, a, b);
    TieIndicesAscend(tags, sorted[a], |tags|);
  }

  lemma SortedKeys(ops: seq<MatchOperation>)
    ensures forall k | 0 <= k < |ops| ::
              Sort(Tags(ops), TaggedLe)[k] == Tagged(Order(ops)[k], KeyOf(Sorted(ops)[k]))
  {
    OrderIsPermutation(ops);
    var tags, sorted := Tags(ops), Sort(Tags(ops), TaggedLe);
    forall k | 0 <= k < |ops|
      ensures sorted[k] == Tagged(Order(ops)[k], KeyOf(Sorted(ops)[k]))
    {
      assert sorted[k] in multiset(sorted);
      assert sorted[k] in tags;
    }
  }

  /** Ascending indices below `n`. */
  predicate IndicesAscend(t: seq<Tagged>, n: nat) {
    && (forall i | 0 <= i < |t| :: t[i].index < n)
    && (forall i, j | 0 <= i < j < |t| :: t[i].index < t[j].index)
  }

  lemma {:induction false} TieIndicesAscend(tags: seq<Tagged>, y: Tagged, n: nat)
    requires n == |tags| && forall i | 0 <= i < n :: tags[i].index == i
    ensures IndicesAscend(Ties(tags, y, TaggedLe), n)
  {
    hide TaggedLe;
    if n > 0 {
      TieIndicesAscend(tags[..n - 1], y, n - 1);
    }
  }

  /** The processing order really is ascending in the sort key. */
  lemma SortedIsOrdered(ops: seq<MatchOperation>)
    ensures Ordered(Sorted(ops), OpLe)
    ensures forall x :: x in Sorted(ops) <==> x in ops
    ensures DistinctKeys(ops) ==> NoTies(Sorted(ops), OpLe)
  {
    OpLePreorder();
    OrderIsPermutation(ops);
    var tags, sorted, order, s := Tags(ops), Sort(Tags(ops), TaggedLe), Order(ops), Sorted(ops);
    SortOrdered(tags, TaggedLe);
    SortedKeys(ops);
    forall i, j | 0 <= i < j < |s|
      ensures OpLe(s[i], s[j])
      ensures DistinctKeys(ops) ==> !(OpLe(s[i], s[j]) && OpLe(s[j], s[i]))
    {
      assert TaggedLe(sorted[i], sorted[j]);
      assert order[i] < order[j] || order[j] < order[i];
    }
    forall x | x in ops
      ensures x in s
    {
      var i :| 0 <= i < |ops| && ops[i] == x;
      assert s[Rank(ops, i)] == x;
    }
  }

  /** Of the operations asking for one path that is available to them, the one whose
      relative path comes first keeps it, and every other one is renumbered. */
  lemma FirstNameKeepsTarget(ops: seq<MatchOperation>, disk: set<Path>, i: nat)
    requires NoExhaustion(ops, disk) && i < |ops| && Available(ops[i], disk)
    requires forall j | 0 <= j < |ops| && j != i && FinalTarget(ops[j]) == FinalTarget(ops[i])
                       && Available(ops[j], disk) ::
               Before(ops[i].subtitle.relativePath, ops[j].subtitle.relativePath)
    ensures FinalTarget(Allocate(ops, disk)[i]) == FinalTarget(ops[i])
    ensures forall j | 0 <= j < |ops| && j != i && FinalTarget(ops[j]) == FinalTarget(ops[i]) ::
              FinalTarget(Allocate(ops, disk)[j]) != FinalTarget(ops[i])
  {
    hide Allocate, Granted, Sorted, Order, NoExhaustion, Before;
    var a, s := Rank(ops, i), Sorted(ops);
    AllocatedAt(ops, disk, a);
    OrderIsPermutation(ops);
    forall k | 0 <= k < a && FinalTarget(s[k]) == FinalTarget(ops[i])
      ensures !Available(s[k], disk)
    {
      if Available(s[k], disk) {
        AllocatedAt(ops, disk, k);
        ProcessingOrder(ops, k, a);
        LaterName(ops[i].subtitle.relativePath, s[k].subtitle.relativePath);
      }
    }
    KeepsRequestedName(ops, disk, a);
    GrantGoes(ops, disk, a);
    UniqueExactlyWithoutExhaustion(ops, disk);
    var out := Allocate(ops, disk);
    forall j | 0 <= j < |ops| && j != i
      ensures FinalTarget(out[j]) != FinalTarget(out[i])
    {
      assert if i < j then FinalTarget(out[i]) != FinalTarget(out[j]) else FinalTarget(out[j]) != FinalTarget(out[i]);
    }
  }

  lemma LaterName(a: string, b: string)
    requires Before(a, b)
    ensures !NameLe(b, a)
  {
    BeforeExactly(a, b);
    NamesStrictTotal();
    CharsStrictTotal();
    if NameLe(b, a) { LexAntisymmetric(a, b, (x: char, y: char) => x < y); }
  }

  // ----- Independence of the input order -----

  /** If the sort keys are pairwise different, permuting the batch gives every
      operation the same final target. */
  lemma AllocateIgnoresInputOrder(ops: seq<MatchOperation>, ops': seq<MatchOperation>, disk: set<Path>, i: nat, j: nat)
    requires multiset(ops) == multiset(ops') && DistinctKeys(ops)
    requires i < |ops| && j < |ops'| && ops[i] == ops'[j]
    ensures Allocate(ops, disk)[i] == Allocate(ops', disk)[j]
  {
    PermutedKeysDistinct(ops, ops');
    SortedIsOrdered(ops);
    SortedIsOrdered(ops');
    OpLePreorder();
    forall x ensures x in ops <==> x in ops' { assert x in multiset(ops) <==> x in multiset(ops'); }
    OrderedUnique(Sorted(ops), Sorted(ops'), OpLe);
    assert Candidates(ops) == Candidates(ops');
    var a, b := Rank(ops, i), Rank(ops', j);
    AllocatedAt(ops, disk, a);
    AllocatedAt(ops', disk, b);
    var s := Sorted(ops);
    assert a == b by {
      assert s[a] == s[b];
      assert OpLe(s[a], s[a]);
    }
  }

  lemma PermutedKeysDistinct(ops: seq<MatchOperation>, ops': seq<MatchOperation>)
    requires multiset(ops) == multiset(ops') && DistinctKeys(ops)
    ensures DistinctKeys(ops')
  {
    PermutationDistinct(ops, ops');
    forall i, j | 0 <= i < j < |ops'|
      ensures KeyOf(ops'[i]) != KeyOf(ops'[j])
    {
      assert ops'[i] in multiset(ops) && ops'[j] in multiset(ops);
      var a :| 0 <= a < |ops| && ops[a] == ops'[i];
      var b :| 0 <= b < |ops| && ops[b] == ops'[j];
      assert a < b || b < a;
    }
  }
}
