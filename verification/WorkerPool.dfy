/** The worker pool. `execute` tests the capacity under one lock and inserts under
    a second one, so callers interleave in between; the pool is modelled as atomic
    steps over the shared map, and its invariants hold for every interleaving. */
module WorkerPool {
  import opened Sets

  datatype WorkerType = CpuIntensive | IoIntensive | Mixed

  function DetermineWorkerType(taskType: string): WorkerType {
    if taskType == "convert" then CpuIntensive
    else if taskType == "sync" then Mixed
    else if taskType == "match" then IoIntensive
    else if taskType == "validate" then IoIntensive
    else Mixed
  }

  type Handle = nat
  type CallId = nat

  datatype WorkerInfo = WorkerInfo(handle: Handle, kind: WorkerType)

  // ----- The shared map -----

  function OfKind(workers: map<CallId, WorkerInfo>, kind: WorkerType): set<CallId> {
    set id | id in workers && workers[id].kind == kind
  }

  datatype Stats = Stats(total: nat, cpu: nat, io: nat, mixed: nat, capacity: nat)

  class Pool {
    var workers: map<CallId, WorkerInfo>
    const maxWorkers: nat

    constructor (max: nat)
      ensures maxWorkers == max && workers == map[]
    {
      workers, maxWorkers := map[], max;
    }

    /** First critical section of `execute`. */
    method IsFull() returns (full: bool)
      ensures full <==> |workers| >= maxWorkers
    {
      full := |workers| >= maxWorkers;
    }

    /** Second critical section of `execute`. */
    method Add(id: CallId, info: WorkerInfo)
      modifies this`workers
      ensures workers == old(workers)[id := info]
    {
      workers := workers[id := info];
    }

    /** The swap at the start of `shutdown`. */
    method TakeAll() returns (taken: map<CallId, WorkerInfo>)
      modifies this`workers
      ensures taken == old(workers) && workers == map[]
    {
      taken := workers;
      workers := map[];
    }

    /** One call of `execute` that nothing interleaves with. */
    method Execute(id: CallId, handle: Handle, taskType: string) returns (accepted: bool)
      modifies this`workers
      ensures accepted <==> |old(workers)| < maxWorkers
      ensures workers == if accepted then old(workers)[id := WorkerInfo(handle, DetermineWorkerType(taskType))]
                         else old(workers)
    {
      var kind := DetermineWorkerType(taskType);
      var full := IsFull();
      if full {
        return false;
      }
      Add(id, WorkerInfo(handle, kind));
      return true;
    }

    method GetWorkerStats() returns (stats: Stats)
      ensures stats == Stats(|workers|, |OfKind(workers, CpuIntensive)|, |OfKind(workers, IoIntensive)|,
                             |OfKind(workers, Mixed)|, maxWorkers)
      ensures stats.cpu + stats.io + stats.mixed == stats.total
    {
      CountNone(workers);
      hide Count, OfKind;
      var cpu, io, mixed := 0, 0, 0;
      var rest := workers.Keys;
      ghost var seen: set<CallId> := {};
      while rest != {}
        invariant seen + rest == workers.Keys && seen !! rest
        invariant cpu == Count(workers, seen, CpuIntensive)
        invariant io == Count(workers, seen, IoIntensive)
        invariant mixed == Count(workers, seen, Mixed)
        invariant cpu + io + mixed == |seen|
        decreases rest
      {
        var id :| id in rest;
        CountOne(workers, seen, id, CpuIntensive);
        CountOne(workers, seen, id, IoIntensive);
        CountOne(workers, seen, id, Mixed);
        match workers[id].kind {
          case CpuIntensive => cpu := cpu + 1;
          case IoIntensive => io := io + 1;
          case Mixed => mixed := mixed + 1;
        }
        rest := rest - {id};
        seen := seen + {id};
      }
      assert seen == workers.Keys;
      AllSeen(workers, CpuIntensive);
      AllSeen(workers, IoIntensive);
      AllSeen(workers, Mixed);
      stats := Stats(|workers|, cpu, io, mixed, maxWorkers);
    }
  }

  ghost function Count(workers: map<CallId, WorkerInfo>, seen: set<CallId>, kind: WorkerType): nat {
    |seen * OfKind(workers, kind)|
  }

  lemma CountNone(workers: map<CallId, WorkerInfo>)
    ensures forall kind :: Count(workers, {}, kind) == 0
  {
  }

  lemma CountOne(workers: map<CallId, WorkerInfo>, seen: set<CallId>, id: CallId, kind: WorkerType)
    requires id in workers && id !in seen
    ensures Count(workers, seen + {id}, kind) == Count(workers, seen, kind) + if workers[id].kind == kind then 1 else 0
  {
    assert (seen + {id}) * OfKind(workers, kind)
        == seen * OfKind(workers, kind) + if workers[id].kind == kind then {id} else {};
  }

  lemma AllSeen(workers: map<CallId, WorkerInfo>, kind: WorkerType)
    ensures Count(workers, workers.Keys, kind) == |OfKind(workers, kind)|
  {
    assert workers.Keys * OfKind(workers, kind) == OfKind(workers, kind);
  }

  // ----- Interleaved calls -----

  /** Where a call of `execute` stands. */
  datatype Phase = Entered(kind: WorkerType) | Admitted(kind: WorkerType) | Spawned(handle: Handle, kind: WorkerType)

  /** Call ids and handles are issued by counters, so they never repeat. `drained`
      holds the handles taken by each shutdown. */
  datatype State = State(
    max: nat,
    calls: map<CallId, Phase>,
    workers: map<CallId, WorkerInfo>,
    drained: seq<set<Handle>>,
    nextCall: CallId,
    nextHandle: Handle)

  datatype Action =
    | Enter(taskType: string) | Check(call: CallId) | Spawn(call: CallId) | Insert(call: CallId) | Shutdown

  function Initial(max: nat): State {
    State(max, map[], map[], [], 0, 0)
  }

  predicate Enabled(s: State, a: Action) {
    match a
    case Enter(_) => true
    case Check(c) => c in s.calls && s.calls[c].Entered?
    case Spawn(c) => c in s.calls && s.calls[c].Admitted?
    case Insert(c) => c in s.calls && s.calls[c].Spawned?
    case Shutdown => true
  }

  function Handles(workers: map<CallId, WorkerInfo>): set<Handle> {
    set c | c in workers :: workers[c].handle
  }

  /** One atomic step; a call that finds the pool full leaves with an error. */
  function Apply(s: State, a: Action): State
    requires Enabled(s, a)
  {
    match a
    case Enter(taskType) =>
      s.(calls := s.calls[s.nextCall := Entered(DetermineWorkerType(taskType))], nextCall := s.nextCall + 1)
    case Check(c) =>
      if |s.workers| >= s.max then s.(calls := s.calls - {c})
      else s.(calls := s.calls[c := Admitted(s.calls[c].kind)])
    case Spawn(c) =>
      s.(calls := s.calls[c := Spawned(s.nextHandle, s.calls[c].kind)], nextHandle := s.nextHandle + 1)
    case Insert(c) =>
      s.(workers := s.workers[c := WorkerInfo(s.calls[c].handle, s.calls[c].kind)], calls := s.calls - {c})
    case Shutdown =>
      s.(workers := map[], drained := s.drained + [Handles(s.workers)])
  }

  /** `run` is executable from `s` and never has more than `limit` calls in flight. */
  predicate Executable(s: State, run: seq<Action>, limit: nat)
    decreases |run|
  {
    |s.calls| <= limit
    && (run != [] ==> Enabled(s, run[0]) && Executable(Apply(s, run[0]), run[1..], limit))
  }

  function Final(s: State, run: seq<Action>, limit: nat): State
    requires Executable(s, run, limit)
    decreases |run|
  {
    if run == [] then s else Final(Apply(s, run[0]), run[1..], limit)
  }

  /** Calls past the check whose worker is not in the map yet. */
  function Between(s: State): set<CallId> {
    set c | c in s.calls && !s.calls[c].Entered?
  }

  // ----- Invariants -----

  predicate Bounded(s: State, limit: nat) {
    |s.workers| + |Between(s)| <= s.max - 1 + limit
  }

  function PendingHandles(s: State): set<Handle> {
    set c | c in s.calls && s.calls[c].Spawned? :: s.calls[c].handle
  }

  /** Every handle issued so far is about to be inserted, in the map, or taken by a
      shutdown, and by exactly one call, map entry or shutdown. */
  ghost predicate HandlesAccounted(s: State) {
    && (forall c, d | c in s.calls && d in s.calls && c != d && s.calls[c].Spawned? && s.calls[d].Spawned? ::
          s.calls[c].handle != s.calls[d].handle)
    && (forall c, d | c in s.workers && d in s.workers && c != d :: s.workers[c].handle != s.workers[d].handle)
    && PendingHandles(s) !! Handles(s.workers)
    && (forall i | 0 <= i < |s.drained| :: s.drained[i] !! PendingHandles(s) && s.drained[i] !! Handles(s.workers))
    && (forall i, j | 0 <= i < j < |s.drained| :: s.drained[i] !! s.drained[j])
    && (forall h: Handle :: h < s.nextHandle <==>
          h in PendingHandles(s) || h in Handles(s.workers) || exists i :: 0 <= i < |s.drained| && h in s.drained[i])
  }

  ghost predicate IdsIssued(s: State) {
    && (forall c | c in s.calls :: c < s.nextCall && c !in s.workers)
    && (forall c | c in s.workers :: c < s.nextCall)
  }

  ghost predicate Inv(s: State, limit: nat) {
    IdsIssued(s) && Bounded(s, limit) && HandlesAccounted(s)
  }

  lemma StepIds(s: State, a: Action)
    requires Enabled(s, a) && IdsIssued(s)
    ensures IdsIssued(Apply(s, a))
  {
  }

  lemma StepBounded(s: State, a: Action, limit: nat)
    requires Enabled(s, a) && IdsIssued(s) && Bounded(s, limit) && s.max >= 1
    requires |Apply(s, a).calls| <= limit
    ensures Bounded(Apply(s, a), limit)
  {
    var s' := Apply(s, a);
    if a.Check? && |s.workers| < s.max {
      SubsetSize(Between(s'), s'.calls.Keys);
    } else if a.Insert? {
      InsertMoves(s, a.call);
      InsertLeavesBetween(s, a.call);
    } else {
      SameBetween(s, a);
    }
  }

  lemma SameBetween(s: State, a: Action)
    requires Enabled(s, a) && IdsIssued(s)
    requires !a.Insert? && !(a.Check? && |s.workers| < s.max)
    ensures Between(Apply(s, a)) == Between(s)
  {
  }

  lemma InsertMoves(s: State, c: CallId)
    requires Enabled(s, Insert(c)) && IdsIssued(s)
    ensures var s' := Apply(s, Insert(c));
            |s'.workers| == |s.workers| + 1 && |s'.calls| == |s.calls| - 1
  {
  }

  lemma InsertLeavesBetween(s: State, c: CallId)
    requires Enabled(s, Insert(c))
    ensures |Between(Apply(s, Insert(c)))| == |Between(s)| - 1
  {
    var s' := Apply(s, Insert(c));
    assert s'.calls == s.calls - {c};
    forall x
      ensures x in Between(s) <==> x in Between(s') + {c}
    {
      assert x in s'.calls <==> x in s.calls && x != c;
    }
    OneMore(Between(s'), Between(s), c);
  }

  lemma StepAccounts(s: State, a: Action)
    requires Enabled(s, a) && IdsIssued(s) && HandlesAccounted(s)
    ensures HandlesAccounted(Apply(s, a))
  {
    match a
    case Enter(_) => SamePending(s, Apply(s, a));
    case Check(c) => SamePending(s, Apply(s, a));
    case Spawn(c) => SpawnAccounts(s, c);
    case Insert(c) => InsertAccounts(s, c);
    case Shutdown => ShutdownAccounts(s);
  }

  lemma SamePending(s: State, s': State)
    requires HandlesAccounted(s)
    requires s'.workers == s.workers && s'.drained == s.drained && s'.nextHandle == s.nextHandle
    requires forall c | c in s.calls && s.calls[c].Spawned? :: c in s'.calls && s'.calls[c] == s.calls[c]
    requires forall c | c in s'.calls && s'.calls[c].Spawned? :: c in s.calls && s'.calls[c] == s.calls[c]
    ensures HandlesAccounted(s')
  {
  }

  lemma SpawnAccounts(s: State, c: CallId)
    requires Enabled(s, Spawn(c)) && HandlesAccounted(s)
    ensures HandlesAccounted(Apply(s, Spawn(c)))
  {
    var s' := Apply(s, Spawn(c));
    var n := s.nextHandle;
    assert n !in PendingHandles(s) && n !in Handles(s.workers);
    assert forall i | 0 <= i < |s.drained| :: n !in s.drained[i];
    forall h
      ensures h in PendingHandles(s') <==> h == n || h in PendingHandles(s)
    {
      if h == n { assert s'.calls[c].handle == n; }
      if h in PendingHandles(s) {
        var d :| d in s.calls && s.calls[d].Spawned? && s.calls[d].handle == h;
        assert d in s'.calls && s'.calls[d] == s.calls[d];
      }
    }
  }

  lemma InsertAccounts(s: State, c: CallId)
    requires Enabled(s, Insert(c)) && IdsIssued(s) && HandlesAccounted(s)
    ensures HandlesAccounted(Apply(s, Insert(c)))
  {
    var s' := Apply(s, Insert(c));
    var n := s.calls[c].handle;
    assert n in PendingHandles(s);
    forall h
      ensures h in PendingHandles(s') <==> h != n && h in PendingHandles(s)
      ensures h in Handles(s'.workers) <==> h == n || h in Handles(s.workers)
    {
      if h in PendingHandles(s) && h != n {
        var d :| d in s.calls && s.calls[d].Spawned? && s.calls[d].handle == h;
        assert d in s'.calls;
      }
      if h == n { assert s'.workers[c].handle == n; }
      if h in Handles(s.workers) {
        var d :| d in s.workers && s.workers[d].handle == h;
        assert d in s'.workers && s'.workers[d] == s.workers[d];
      }
    }
  }

  lemma ShutdownAccounts(s: State)
    requires HandlesAccounted(s)
    ensures HandlesAccounted(Apply(s, Shutdown))
  {
    var s' := Apply(s, Shutdown);
    assert PendingHandles(s') == PendingHandles(s) && Handles(s'.workers) == {};
    forall h: Handle
      ensures h < s'.nextHandle <==>
                || h in PendingHandles(s') || h in Handles(s'.workers)
                || exists i :: 0 <= i < |s'.drained| && h in s'.drained[i]
    {
      var n := |s.drained|;
      assert s'.drained[n] == Handles(s.workers);
      assert forall i | 0 <= i < n :: s'.drained[i] == s.drained[i];
    }
  }

  /** For every run with at most `limit` calls in flight: the map plus the calls
      between check and insert never exceed `max - 1 + limit`, and every handle is
      accounted for exactly once. */
  lemma {:induction false} RunInvariant(s: State, run: seq<Action>, limit: nat)
    requires Executable(s, run, limit) && Inv(s, limit) && s.max >= 1
    ensures Inv(Final(s, run, limit), limit)
    decreases |run|
  {
    if run != [] {
      assert |Apply(s, run[0]).calls| <= limit;
      StepIds(s, run[0]);
      StepBounded(s, run[0], limit);
      StepAccounts(s, run[0]);
      RunInvariant(Apply(s, run[0]), run[1..], limit);
    }
  }

  lemma PoolInvariant(max: nat, run: seq<Action>, limit: nat)
    requires max >= 1 && limit >= 1 && Executable(Initial(max), run, limit)
    ensures var s := Final(Initial(max), run, limit);
            && |s.workers| + |Between(s)| <= max - 1 + limit
            && HandlesAccounted(s)
            && (limit == 1 ==> |s.workers| <= max)
  {
    var s0 := Initial(max);
    assert Between(s0) == {};
    RunInvariant(s0, run, limit);
    MaxFixed(s0, run, limit);
  }

  lemma {:induction false} MaxFixed(s: State, run: seq<Action>, limit: nat)
    requires Executable(s, run, limit)
    ensures Final(s, run, limit).max == s.max
    decreases |run|
  {
    if run != [] {
      MaxFixed(Apply(s, run[0]), run[1..], limit);
    }
  }

  // ----- The types of the workers -----

  /** The task types of the calls that entered, in order. */
  function Asked(run: seq<Action>): seq<string> {
    if run == [] then []
    else (if run[0].Enter? then [run[0].taskType] else []) + Asked(run[1..])
  }

  /** Every call in flight and every worker has the type of the task it was asked for. */
  predicate KindsKept(s: State, asked: seq<string>) {
    && s.nextCall == |asked|
    && (forall c | c in s.calls :: c < |asked| && s.calls[c].kind == DetermineWorkerType(asked[c]))
    && (forall c | c in s.workers :: c < |asked| && s.workers[c].kind == DetermineWorkerType(asked[c]))
  }

  lemma StepKinds(s: State, a: Action, asked: seq<string>)
    requires Enabled(s, a) && KindsKept(s, asked)
    ensures KindsKept(Apply(s, a), asked + if a.Enter? then [a.taskType] else [])
  {
    hide DetermineWorkerType;
  }

  lemma {:induction false} RunKinds(s: State, run: seq<Action>, limit: nat, asked: seq<string>)
    requires Executable(s, run, limit) && KindsKept(s, asked)
    ensures KindsKept(Final(s, run, limit), asked + Asked(run))
    decreases |run|
  {
    hide KindsKept, Apply, Enabled;
    if run == [] {
      assert asked + Asked(run) == asked;
    } else {
      var entered := if run[0].Enter? then [run[0].taskType] else [];
      StepKinds(s, run[0], asked);
      RunKinds(Apply(s, run[0]), run[1..], limit, asked + entered);
      assert asked + entered + Asked(run[1..]) == asked + Asked(run);
    }
  }

  /** However the calls interleave, the worker a call leaves in the map is of the
      type its own task asks for. */
  lemma WorkersMatchTasks(max: nat, run: seq<Action>, limit: nat, c: CallId)
    requires Executable(Initial(max), run, limit)
    requires c in Final(Initial(max), run, limit).workers
    ensures c < |Asked(run)|
    ensures var kind := Final(Initial(max), run, limit).workers[c].kind;
            && (kind == CpuIntensive <==> Asked(run)[c] == "convert")
            && (kind == IoIntensive <==> Asked(run)[c] in {"match", "validate"})
  {
    RunKinds(Initial(max), run, limit, []);
    assert [] + Asked(run) == Asked(run);
    hide Final, Asked, Executable;
  }

  // ----- The bound is reached -----

  lemma {:induction false} RunsCompose(s: State, a: seq<Action>, b: seq<Action>, limit: nat)
    requires Executable(s, a, limit) && Executable(Final(s, a, limit), b, limit)
    ensures Executable(s, a + b, limit) && Final(s, a + b, limit) == Final(Final(s, a, limit), b, limit)
    decreases |a|
  {
    if a == [] {
      assert a + b == b;
    } else {
      assert (a + b)[0] == a[0] && (a + b)[1..] == a[1..] + b;
      RunsCompose(Apply(s, a[0]), a[1..], b, limit);
    }
  }

  /** Every call in flight stands right after the check. */
  predicate AllAdmitted(s: State) {
    forall c | c in s.calls :: s.calls[c].Admitted?
  }

  /** One caller enters and passes the check while the map has room. */
  lemma AdmitOne(s: State, limit: nat) returns (run: seq<Action>)
    requires IdsIssued(s) && AllAdmitted(s) && |s.calls| < limit && |s.workers| < s.max
    ensures Executable(s, run, limit)
    ensures var s' := Final(s, run, limit);
            && IdsIssued(s') && AllAdmitted(s') && |s'.calls| == |s.calls| + 1
            && s'.workers == s.workers && s'.max == s.max
  {
    hide Executable, Final, IdsIssued, AllAdmitted;
    var n := s.nextCall;
    EnterOnly(s, "sync");
    CheckOnly(s, "sync");
    StepIds(s, Enter("sync"));
    StepIds(Apply(s, Enter("sync")), Check(n));
    run := [Enter("sync"), Check(n)];
    TwoSteps(s, Enter("sync"), Check(n), limit);
  }

  lemma EnterOnly(s: State, taskType: string)
    requires IdsIssued(s)
    ensures var s1 := Apply(s, Enter(taskType));
            |s1.calls| == |s.calls| + 1 && s1.calls == s.calls[s.nextCall := s1.calls[s.nextCall]]
            && s1.calls[s.nextCall].Entered? && s1.workers == s.workers && s1.max == s.max
  {
  }

  lemma CheckOnly(s: State, taskType: string)
    requires IdsIssued(s) && AllAdmitted(s) && |s.workers| < s.max
    ensures var s1 := Apply(s, Enter(taskType));
            && Enabled(s1, Check(s.nextCall))
            && var s2 := Apply(s1, Check(s.nextCall));
               AllAdmitted(s2) && |s2.calls| == |s1.calls| && s2.workers == s.workers && s2.max == s.max
  {
  }

  lemma TwoSteps(s: State, a: Action, b: Action, limit: nat)
    requires |s.calls| <= limit && Enabled(s, a) && Enabled(Apply(s, a), b)
    requires |Apply(s, a).calls| <= limit && |Apply(Apply(s, a), b).calls| <= limit
    ensures Executable(s, [a, b], limit) && Final(s, [a, b], limit) == Apply(Apply(s, a), b)
  {
    hide Apply, Enabled;
    var s1 := Apply(s, a);
    var s2 := Apply(s1, b);
    assert [a, b][1..] == [b] && [b][1..] == [];
    assert Executable(s2, [], limit) && Final(s2, [], limit) == s2;
    assert Executable(s1, [b], limit) && Final(s1, [b], limit) == s2;
  }

  /** One admitted caller spawns and inserts, whatever the size of the map. */
  lemma FinishOne(s: State, limit: nat) returns (run: seq<Action>)
    requires IdsIssued(s) && AllAdmitted(s) && 0 < |s.calls| <= limit
    ensures Executable(s, run, limit)
    ensures var s' := Final(s, run, limit);
            && IdsIssued(s') && AllAdmitted(s') && |s'.calls| == |s.calls| - 1
            && |s'.workers| == |s.workers| + 1 && s'.max == s.max
  {
    hide Executable, Final;
    assert s.calls.Keys != {};
    var c :| c in s.calls.Keys;
    var s1 := Apply(s, Spawn(c));
    assert s1.calls.Keys == s.calls.Keys;
    StepIds(s, Spawn(c));
    InsertMoves(s1, c);
    StepIds(s1, Insert(c));
    var s2 := Apply(s1, Insert(c));
    TwoSteps(s, Spawn(c), Insert(c), limit);
    run := [Spawn(c), Insert(c)];
  }

  lemma {:induction false} AdmitMany(s: State, n: nat, limit: nat) returns (run: seq<Action>)
    requires IdsIssued(s) && AllAdmitted(s) && |s.calls| + n <= limit && |s.workers| < s.max
    ensures Executable(s, run, limit)
    ensures var s' := Final(s, run, limit);
            && IdsIssued(s') && AllAdmitted(s') && |s'.calls| == |s.calls| + n
            && s'.workers == s.workers && s'.max == s.max
    decreases n
  {
    if n == 0 {
      run := [];
    } else {
      var first := AdmitOne(s, limit);
      var rest := AdmitMany(Final(s, first, limit), n - 1, limit);
      RunsCompose(s, first, rest, limit);
      run := first + rest;
    }
  }

  lemma {:induction false} FinishMany(s: State, n: nat, limit: nat) returns (run: seq<Action>)
    requires IdsIssued(s) && AllAdmitted(s) && n <= |s.calls| <= limit
    ensures Executable(s, run, limit)
    ensures var s' := Final(s, run, limit);
            && IdsIssued(s') && AllAdmitted(s') && |s'.calls| == |s.calls| - n
            && |s'.workers| == |s.workers| + n && s'.max == s.max
    decreases n
  {
    if n == 0 {
      run := [];
    } else {
      var first := FinishOne(s, limit);
      var rest := FinishMany(Final(s, first, limit), n - 1, limit);
      RunsCompose(s, first, rest, limit);
      run := first + rest;
    }
  }

  lemma {:induction false} FillSerially(s: State, n: nat, limit: nat) returns (run: seq<Action>)
    requires IdsIssued(s) && s.calls == map[] && |s.workers| + n <= s.max && limit >= 1
    ensures Executable(s, run, limit)
    ensures var s' := Final(s, run, limit);
            IdsIssued(s') && s'.calls == map[] && |s'.workers| == |s.workers| + n && s'.max == s.max
    decreases n
  {
    if n == 0 {
      run := [];
    } else {
      var a := AdmitOne(s, limit);
      var s1 := Final(s, a, limit);
      var b := FinishOne(s1, limit);
      RunsCompose(s, a, b, limit);
      var s2 := Final(s, a + b, limit);
      assert s2.calls == map[] by { assert |s2.calls.Keys| == 0; }
      var rest := FillSerially(s2, n - 1, limit);
      RunsCompose(s, a + b, rest, limit);
      run := a + b + rest;
    }
  }

  /** The bound cannot be lowered: for every pool size and every number of
      concurrent callers some run puts exactly `max - 1 + limit` workers in the map. */
  lemma BoundIsReached(max: nat, limit: nat) returns (run: seq<Action>)
    requires max >= 1 && limit >= 1
    ensures Executable(Initial(max), run, limit)
    ensures |Final(Initial(max), run, limit).workers| == max - 1 + limit
  {
    var s0 := Initial(max);
    var fill := FillSerially(s0, max - 1, limit);
    var s1 := Final(s0, fill, limit);
    var admit := AdmitMany(s1, limit, limit);
    RunsCompose(s0, fill, admit, limit);
    var s2 := Final(s0, fill + admit, limit);
    var finish := FinishMany(s2, limit, limit);
    RunsCompose(s0, fill + admit, finish, limit);
    run := fill + admit + finish;
  }
}
