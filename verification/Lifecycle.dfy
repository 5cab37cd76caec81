/** Whole runs of task and address-space operations outside replay: what the scheduler keeps, how
    long a ready task waits, and that every reference is accounted for (kernel/sched.c,
    kernel/aspace.c, kernel/builtin_exec.c). */
module Lifecycle {
  import opened Events
  import opened Trace
  import Paging
  import opened Aspace
  import opened Sched
  import Memory

  /** `held` counts the references that kernel code holds outside the task table. */
  datatype World = World(kernel: Kernel, held: multiset<nat>)

  datatype Op =
    | SpawnShared                     // sched_spawn
    | SpawnBuiltin(job: bool)         // builtin_exec_spawn
    | Give                            // sched_yield
    | Leave                           // task_exit
    | Rehome(pid: nat, id: nat)       // sched_task_set_aspace
    | NewSpace(kind: nat)             // aspace_create by a caller
    | DropSpace(id: nat)              // aspace_release by that caller
    | TimerIrq
    | Reset                           // sched_prepare_replay

  /** Callers' obligations: the shell never returns, pids do not run out, a reference is dropped only
      by its holder, a zombie is not given a space, and replay is prepared with nothing else alive. */
  predicate Enabled(w: World, op: Op)
    requires Sane(w.kernel)
  {
    match op
    case SpawnShared => w.kernel.nextPid < NO_PID
    case SpawnBuiltin(_) => w.kernel.nextPid < NO_PID
    case Leave => w.kernel.current != 0
    case Rehome(pid, id) => !RehomesZombie(w.kernel, pid, id)
    case DropSpace(id) => id in w.held
    case Reset => forall i :: 0 < i < MAX_TASKS ==> !Live(w.kernel.tasks[i])
    case _ => true
  }

  /** The guard of the one branch that loses count. */
  predicate RehomesZombie(k: Kernel, pid: nat, id: nat)
    requires Sane(k)
  {
    var i := PidFrom(k.tasks, pid, 0);
    i >= 0 && k.tasks[i].state == Zombie && k.tasks[i].aspaceId != id && Resolves(k.spaces, id)
  }

  function Apply(w: World, op: Op): (r: World)
    requires Sane(w.kernel) && !w.kernel.trace.replay.active
    ensures Sane(r.kernel)
  {
    if !Enabled(w, op) then w
    else
      match op
      case SpawnShared => w.(kernel := Spawn(w.kernel).1)
      case SpawnBuiltin(job) => w.(kernel := SpawnExec(w.kernel, job).1)
      case Give => w.(kernel := Yield(w.kernel))
      case Leave => w.(kernel := Exit(w.kernel))
      case Rehome(pid, id) => w.(kernel := SetAspace(w.kernel, pid, id).1)
      case NewSpace(kind) =>
        var (id, s) := Create(w.kernel.spaces, kind);
        World(w.kernel.(spaces := s), if id == 0 then w.held else w.held + multiset{id})
      case DropSpace(id) =>
        World(w.kernel.(spaces := Release(w.kernel.spaces, id)), w.held - multiset{id})
      case TimerIrq => w.(kernel := Tick(w.kernel))
      case Reset => w.(kernel := Prepare(w.kernel))
  }

  // ---- Scheduler safety ----

  /** Exactly the current task is RUNNING; the shell is alive in slot 0 with pid 1; a slot is empty or
      visible; pids are distinct and below the next one. */
  ghost predicate Safe(k: Kernel)
  {
    Sane(k) && !k.trace.replay.active && 2 <= k.nextPid <= NO_PID &&
    Live(k.tasks[0]) && k.tasks[0].pid == 1 &&
    (forall i :: 0 <= i < MAX_TASKS ==> (k.tasks[i].state == Running <==> i == k.current)) &&
    (forall i :: 0 <= i < MAX_TASKS ==> k.tasks[i] == EMPTY_TASK || (Visible(k.tasks[i]) && k.tasks[i].pid < k.nextPid)) &&
    (forall i, j :: 0 <= i < j < MAX_TASKS && Visible(k.tasks[i]) && Visible(k.tasks[j]) ==> k.tasks[i].pid != k.tasks[j].pid)
  }

  lemma SpawnInSafe(k: Kernel, parent: nat, id: nat)
    requires Safe(k) && k.nextPid < NO_PID
    ensures Safe(SpawnIn(k, parent, id).1)
  {
  }

  /** task_exit never reaches its halt loop: another task is always found and switched to. */
  lemma ExitFindsSuccessor(k: Kernel)
    requires Safe(k) && k.current != 0
    ensures Safe(Exit(k)) && Exit(k).current != k.current && IsReady(k.tasks[Exit(k).current])
    ensures Exit(k).tasks[k.current].state == Zombie
  {
    hide Release, RootOf, Resolves;
    var k1 := k.(spaces := Release(k.spaces, k.tasks[k.current].aspaceId),
                 tasks := k.tasks[k.current := k.tasks[k.current].(state := Zombie)]);
    assert IsReady(k1.tasks[0]);
    assert NextReady(k1) >= 0 && NextReady(k1) != k.current;
    hide NextReady, Scan;
  }

  lemma SpawnSafe(k: Kernel)
    requires Safe(k) && k.nextPid < NO_PID
    ensures Safe(Spawn(k).1)
  {
    var (id, s) := ForkClone(k.spaces, k.tasks[k.current].aspaceId);
    SpawnInSafe(k.(spaces := s), k.tasks[k.current].pid, id);
  }

  lemma SpawnExecSafe(k: Kernel, job: bool)
    requires Safe(k) && k.nextPid < NO_PID
    ensures Safe(SpawnExec(k, job).1)
  {
    SpawnInSafe(k.(spaces := Retain(k.spaces, k.spaces.kernelId)), k.tasks[k.current].pid, k.spaces.kernelId);
  }

  lemma YieldSafe(k: Kernel)
    requires Safe(k)
    ensures Safe(Yield(k))
  {
  }

  lemma PrepareSafe(k: Kernel)
    requires Safe(k) && forall i :: 0 < i < MAX_TASKS ==> !Live(k.tasks[i])
    ensures Safe(Prepare(k))
  {
  }

  lemma SetAspaceSafe(k: Kernel, pid: nat, id: nat)
    requires Safe(k)
    ensures Safe(SetAspace(k, pid, id).1)
  {
  }

  lemma ApplySafe(w: World, op: Op)
    requires Safe(w.kernel)
    ensures Safe(Apply(w, op).kernel)
  {
    if Enabled(w, op) {
      var k := w.kernel;
      match op {
        case SpawnShared => SpawnSafe(k);
        case SpawnBuiltin(job) => SpawnExecSafe(k, job);
        case Give => YieldSafe(k);
        case Leave => ExitFindsSuccessor(k);
        case Rehome(pid, id) => SetAspaceSafe(k, pid, id);
        case NewSpace(_) =>
        case DropSpace(_) =>
        case TimerIrq =>
        case Reset => PrepareSafe(k);
      }
    }
  }

  function Run(w: World, ops: seq<Op>): World
    requires Safe(w.kernel)
    decreases |ops|
  {
    ApplySafeAll(w, ops);
    if |ops| == 0 then w else Run(Apply(w, ops[0]), ops[1..])
  }

  lemma ApplySafeAll(w: World, ops: seq<Op>)
    requires Safe(w.kernel)
    ensures |ops| > 0 ==> Safe(Apply(w, ops[0]).kernel)
  {
    if |ops| > 0 {
      ApplySafe(w, ops[0]);
    }
  }

  /** Whatever the operations, the scheduler stays safe. */
  lemma {:induction false} RunSafe(w: World, ops: seq<Op>)
    requires Safe(w.kernel)
    ensures Safe(Run(w, ops).kernel)
    decreases |ops|
  {
    if |ops| > 0 {
      ApplySafe(w, ops[0]);
      RunSafe(Apply(w, ops[0]), ops[1..]);
    }
  }

  // ---- Bounded waiting ----

  lemma ExitNearer(k: Kernel, t: nat)
    requires Safe(k) && t < MAX_TASKS && IsReady(k.tasks[t])
    ensures var k' := Exit(k);
            k'.current == t ||
            (IsReady(k'.tasks[t]) && (k'.current != k.current ==> Ahead(k'.current, t) < Ahead(k.current, t)))
  {
    hide Release, RootOf, Resolves;
    var k1 := k.(spaces := Release(k.spaces, k.tasks[k.current].aspaceId),
                 tasks := k.tasks[k.current := k.tasks[k.current].(state := Zombie)]);
    assert IsReady(k1.tasks[t]);
  }

  /** A ready task either gets to run, or stays ready and comes strictly nearer at every switch. */
  lemma WaitStep(w: World, op: Op, t: nat)
    requires Safe(w.kernel) && t < MAX_TASKS && IsReady(w.kernel.tasks[t])
    ensures var k, k' := w.kernel, Apply(w, op).kernel;
            k'.current == t ||
            (IsReady(k'.tasks[t]) && (k'.current != k.current ==> Ahead(k'.current, t) < Ahead(k.current, t)))
  {
    hide Create, Release, Retain, ForkClone, RootOf, Resolves, Exit;
    var k := w.kernel;
    if Enabled(w, op) && op == Leave {
      ExitNearer(k, t);
    }
  }

  function Switches(w: World, ops: seq<Op>): nat
    requires Safe(w.kernel)
    decreases |ops|
  {
    ApplySafeAll(w, ops);
    if |ops| == 0 then 0
    else (if Apply(w, ops[0]).kernel.current != w.kernel.current then 1 else 0) + Switches(Apply(w, ops[0]), ops[1..])
  }

  lemma RunCons(w: World, ops: seq<Op>, n: nat)
    requires n < |ops| && Safe(w.kernel) && Safe(Apply(w, ops[0]).kernel)
    ensures Run(w, ops[..n + 1]) == Run(Apply(w, ops[0]), ops[1..][..n])
  {
    assert ops[..n + 1][0] == ops[0] && ops[..n + 1][1..] == ops[1..][..n];
  }

  lemma {:induction false} WaitsAtMost(w: World, ops: seq<Op>, t: nat)
    requires Safe(w.kernel) && t < MAX_TASKS && IsReady(w.kernel.tasks[t])
    requires Switches(w, ops) >= Ahead(w.kernel.current, t)
    ensures exists n :: 0 <= n <= |ops| && Run(w, ops[..n]).kernel.current == t
    decreases |ops|
  {
    ApplySafe(w, ops[0]);
    WaitStep(w, ops[0], t);
    var w1 := Apply(w, ops[0]);
    assert Switches(w, ops) == (if w1.kernel.current != w.kernel.current then 1 else 0) + Switches(w1, ops[1..]);
    hide Apply, Switches, Safe, IsReady, Ahead, Run;
    if w1.kernel.current == t {
      RunCons(w, ops, 0);
      RunNone(w1, ops[1..]);
    } else {
      WaitsAtMost(w1, ops[1..], t);
      var n :| 0 <= n <= |ops[1..]| && Run(w1, ops[1..][..n]).kernel.current == t;
      RunCons(w, ops, n);
    }
  }

  lemma RunNone(w: World, ops: seq<Op>)
    requires Safe(w.kernel)
    ensures Run(w, ops[..0]) == w
  {
  }

  /** Bounded waiting: a READY task in slot `t` has run by the time (t - current) mod 8 switches have
      happened, whatever was spawned, ended or interrupted in between. */
  lemma BoundedWaiting(w: World, ops: seq<Op>, t: nat)
    requires Safe(w.kernel) && t < MAX_TASKS && IsReady(w.kernel.tasks[t])
    requires Switches(w, ops) >= (t as int - w.kernel.current) % MAX_TASKS
    ensures exists n :: 0 <= n <= |ops| && Run(w, ops[..n]).kernel.current == t
  {
    AheadIsModular(w.kernel.current, t);
    assert Switches(w, ops) >= Ahead(w.kernel.current, t);
    hide *;
    WaitsAtMost(w, ops, t);
  }

  lemma AheadIsModular(current: nat, t: nat)
    requires current < MAX_TASKS && t < MAX_TASKS && t != current
    ensures (t as int - current) % MAX_TASKS == Ahead(current, t)
  {
  }

  // ---- Reference counts ----

  /** Live tasks in slots `i`, `i + 1`, ... that name the space. */
  function RefsFrom(ts: seq<Task>, id: nat, i: nat): nat
    decreases |ts| - i
  {
    if i >= |ts| then 0 else (if Live(ts[i]) && ts[i].aspaceId == id then 1 else 0) + RefsFrom(ts, id, i + 1)
  }

  function Refs(ts: seq<Task>, id: nat): nat
  {
    RefsFrom(ts, id, 0)
  }

  /** The stored count, 0 for a space that does not exist. */
  function Count(s: Spaces, id: nat): nat
  {
    if Find(s, id) >= 0 then s.slots[Find(s, id)].refcount else 0
  }

  /** Ids are unique and already issued; only the kernel space may be kept without references. */
  ghost predicate TableInv(s: Spaces)
  {
    0 < s.nextId && Resolves(s, s.kernelId) &&
    (forall i, j :: 0 <= i < j < |s.slots| && s.slots[i].used && s.slots[j].used ==> s.slots[i].id != s.slots[j].id) &&
    (forall i :: 0 <= i < |s.slots| && s.slots[i].used ==> 0 < s.slots[i].id < s.nextId) &&
    (forall i :: 0 <= i < |s.slots| && s.slots[i].used && s.slots[i].id != s.kernelId ==> s.slots[i].refcount > 0)
  }

  /** Every count is the number of live tasks that name the space plus the references held elsewhere. */
  ghost predicate Accounted(w: World)
  {
    TableInv(w.kernel.spaces) &&
    forall id: nat :: Count(w.kernel.spaces, id) == Refs(w.kernel.tasks, id) + w.held[id]
  }

  lemma {:induction false} RefsUpdate(ts: seq<Task>, us: seq<Task>, c: nat, id: nat, i: nat)
    requires |ts| == |us| && c < |ts|
    requires forall j :: 0 <= j < |ts| && j != c ==>
               (Live(ts[j]) <==> Live(us[j])) && (Live(ts[j]) ==> ts[j].aspaceId == us[j].aspaceId)
    ensures RefsFrom(us, id, i) == RefsFrom(ts, id, i) +
              (if i <= c then (if Live(us[c]) && us[c].aspaceId == id then 1 else 0) -
                              (if Live(ts[c]) && ts[c].aspaceId == id then 1 else 0) else 0)
    decreases |ts| - i
  {
    if i < |ts| {
      RefsUpdate(ts, us, c, id, i + 1);
    }
  }

  lemma {:induction false} RefsPositive(ts: seq<Task>, c: nat, i: nat)
    requires i <= c < |ts| && Live(ts[c])
    ensures RefsFrom(ts, ts[c].aspaceId, i) > 0
    decreases |ts| - i
  {
    if i < c {
      RefsPositive(ts, c, i + 1);
    }
  }

  lemma {:induction false} FindUnique(s: Spaces, i: nat, id: nat)
    requires TableInv(s) && i < |s.slots| && Names(s.slots[i], id)
    ensures Find(s, id) == i
  {
    var r := Find(s, id);
    assert r < i || r == i || r > i;
  }

  lemma RetainCounts(s: Spaces, id: nat, x: nat)
    requires TableInv(s) && Resolves(s, id)
    ensures var t := Retain(s, id);
            TableInv(t) && Count(t, x) == Count(s, x) + (if x == id then 1 else 0) && (Resolves(t, x) <==> Resolves(s, x))
  {
    var t := Retain(s, id);
    var k := Find(s, s.kernelId);
    assert Names(t.slots[k], s.kernelId);
    if Resolves(s, x) {
      FindUnique(t, Find(s, x), x);
    }
    if Resolves(t, x) {
      assert Names(s.slots[Find(t, x)], x);
    }
  }

  lemma ReleaseTable(s: Spaces, id: nat)
    requires TableInv(s)
    ensures TableInv(Release(s, id))
  {
    var t := Release(s, id);
    var k := Find(s, s.kernelId);
    assert Names(t.slots[k], s.kernelId);
  }

  lemma ReleaseCounts(s: Spaces, id: nat, x: nat)
    requires TableInv(s)
    ensures var t := Release(s, id);
            TableInv(t) && Count(t, x) == Count(s, x) - (if x == id && Count(s, id) > 0 then 1 else 0)
  {
    var t := Release(s, id);
    ReleaseTable(s, id);
    if Resolves(s, x) && Names(t.slots[Find(s, x)], x) {
      FindUnique(t, Find(s, x), x);
    }
    if Resolves(t, x) {
      assert Names(s.slots[Find(t, x)], x);
      FindUnique(s, Find(t, x), x);
    }
  }

  lemma CreateTable(s: Spaces, kind: nat)
    requires TableInv(s)
    ensures TableInv(Create(s, kind).1)
    ensures Create(s, kind).0 != 0 ==> Create(s, kind).0 == s.nextId && !Resolves(s, s.nextId)
  {
    hide Paging.CloneRoot, Paging.PtOf;
    var t := Create(s, kind).1;
    var k := Find(s, s.kernelId);
    assert Names(t.slots[k], s.kernelId);
  }

  lemma CreateCounts(s: Spaces, kind: nat, x: nat)
    requires TableInv(s)
    ensures var (id, t) := Create(s, kind);
            TableInv(t) && Count(t, x) == Count(s, x) + (if id != 0 && x == id then 1 else 0)
  {
    var (id, t) := Create(s, kind);
    CreateTable(s, kind);
    if Resolves(s, x) {
      FindUnique(t, Find(s, x), x);
    }
    if id != 0 && x == id {
      FindUnique(t, FreeFrom(s.slots, 0), x);
    }
    if Resolves(t, x) && !(id != 0 && x == id) {
      assert Names(s.slots[Find(t, x)], x);
    }
  }

  lemma ForkCounts(s: Spaces, parent: nat, x: nat)
    requires TableInv(s)
    ensures var (id, t) := ForkClone(s, parent);
            TableInv(t) && Count(t, x) == Count(s, x) + (if id != 0 && x == id then 1 else 0)
  {
    var i := Find(s, parent);
    if i >= 0 {
      if s.slots[i].kind == KIND_KERNEL {
        RetainCounts(s, parent, x);
      } else {
        CreateCounts(s, s.slots[i].kind, x);
      }
    }
  }

  lemma {:induction false} RefsSame(ts: seq<Task>, us: seq<Task>, id: nat, i: nat)
    requires |ts| == |us|
    requires forall j :: 0 <= j < |ts| ==>
               (Live(ts[j]) <==> Live(us[j])) && (Live(ts[j]) ==> ts[j].aspaceId == us[j].aspaceId)
    ensures RefsFrom(us, id, i) == RefsFrom(ts, id, i)
    decreases |ts| - i
  {
    if i < |ts| {
      RefsSame(ts, us, id, i + 1);
    }
  }

  lemma SpawnInCounts(k: Kernel, parent: nat, id: nat, x: nat)
    requires Sane(k) && TableInv(k.spaces) && 0 < k.nextPid < NO_PID
    ensures var (pid, k') := SpawnIn(k, parent, id);
            var more := if pid >= 0 && x == id then 1 else 0;
            TableInv(k'.spaces) && Count(k'.spaces, x) == Count(k.spaces, x) + more && Refs(k'.tasks, x) == Refs(k.tasks, x) + more
  {
    var i := FreeSlotFrom(k.tasks, 1);
    if i >= 0 && Resolves(k.spaces, id) {
      RetainCounts(k.spaces, id, x);
      RefsUpdate(k.tasks, SpawnIn(k, parent, id).1.tasks, i, x, 0);
    }
  }

  lemma SpawnCounts(k: Kernel, x: nat)
    requires Safe(k) && TableInv(k.spaces) && k.nextPid < NO_PID
    ensures var k' := Spawn(k).1;
            TableInv(k'.spaces) && Count(k'.spaces, x) - Count(k.spaces, x) == Refs(k'.tasks, x) - Refs(k.tasks, x)
  {
    var (id, s) := ForkClone(k.spaces, k.tasks[k.current].aspaceId);
    ForkCounts(k.spaces, k.tasks[k.current].aspaceId, x);
    if id != 0 {
      var k1 := k.(spaces := s);
      var (pid, k2) := SpawnIn(k1, k.tasks[k.current].pid, id);
      SpawnInCounts(k1, k.tasks[k.current].pid, id, x);
      ReleaseCounts(k2.spaces, id, x);
    }
  }

  lemma SpawnExecCounts(k: Kernel, job: bool, x: nat)
    requires Safe(k) && TableInv(k.spaces) && k.nextPid < NO_PID
    ensures var k' := SpawnExec(k, job).1;
            TableInv(k'.spaces) && Count(k'.spaces, x) - Count(k.spaces, x) == Refs(k'.tasks, x) - Refs(k.tasks, x)
  {
    var id := k.spaces.kernelId;
    RetainCounts(k.spaces, id, x);
    var k1 := k.(spaces := Retain(k.spaces, id));
    var (pid, k2) := SpawnIn(k1, k.tasks[k.current].pid, id);
    SpawnInCounts(k1, k.tasks[k.current].pid, id, x);
    ReleaseCounts(k1.spaces, id, x);
    ReleaseCounts(k2.spaces, id, x);
  }

  lemma SwitchKeepsRefs(k: Kernel, next: nat, x: nat)
    requires Sane(k) && next < MAX_TASKS && Live(k.tasks[next])
    ensures Refs(SwitchTo(k, next).tasks, x) == Refs(k.tasks, x) && SwitchTo(k, next).spaces == k.spaces
  {
    RefsSame(k.tasks, SwitchTo(k, next).tasks, x, 0);
  }

  lemma ExitCounts(k: Kernel, x: nat)
    requires Safe(k) && k.current != 0 && TableInv(k.spaces) && Count(k.spaces, k.tasks[k.current].aspaceId) > 0
    ensures var k' := Exit(k);
            TableInv(k'.spaces) && Count(k'.spaces, x) - Count(k.spaces, x) == Refs(k'.tasks, x) - Refs(k.tasks, x)
  {
    var c := k.current;
    var k1 := k.(spaces := Release(k.spaces, k.tasks[c].aspaceId), tasks := k.tasks[c := k.tasks[c].(state := Zombie)]);
    ReleaseCounts(k.spaces, k.tasks[c].aspaceId, x);
    RefsUpdate(k.tasks, k1.tasks, c, x, 0);
    assert IsReady(k1.tasks[0]);
    SwitchKeepsRefs(k1, NextReady(k1), x);
  }

  lemma SetAspaceCounts(k: Kernel, pid: nat, id: nat, x: nat)
    requires Sane(k) && TableInv(k.spaces) && !RehomesZombie(k, pid, id)
    requires forall i :: 0 <= i < MAX_TASKS && Live(k.tasks[i]) ==> Count(k.spaces, k.tasks[i].aspaceId) > 0
    ensures var k' := SetAspace(k, pid, id).1;
            TableInv(k'.spaces) && Count(k'.spaces, x) - Count(k.spaces, x) == Refs(k'.tasks, x) - Refs(k.tasks, x)
  {
    var i := PidFrom(k.tasks, pid, 0);
    if i >= 0 && k.tasks[i].aspaceId != id && Resolves(k.spaces, id) {
      var old_ := k.tasks[i].aspaceId;
      RetainCounts(k.spaces, id, x);
      RetainCounts(k.spaces, id, old_);
      ReleaseCounts(Retain(k.spaces, id), old_, x);
      RefsUpdate(k.tasks, k.tasks[i := k.tasks[i].(aspaceId := id)], i, x, 0);
    }
  }

  /** Every space that a live task names exists, so aspace_switch in switch_to cannot fail. */
  lemma LiveSpacesExist(w: World, i: nat)
    requires Safe(w.kernel) && Accounted(w) && i < MAX_TASKS && Live(w.kernel.tasks[i])
    ensures Count(w.kernel.spaces, w.kernel.tasks[i].aspaceId) > 0 && Resolves(w.kernel.spaces, w.kernel.tasks[i].aspaceId)
  {
    RefsPositive(w.kernel.tasks, i, 0);
  }

  lemma YieldKeepsRefs(k: Kernel, x: nat)
    requires Safe(k)
    ensures Refs(Yield(k).tasks, x) == Refs(k.tasks, x) && Yield(k).spaces == k.spaces
  {
    if NextReady(k) >= 0 {
      SwitchKeepsRefs(k, NextReady(k), x);
    }
  }

  lemma PrepareKeepsRefs(k: Kernel, x: nat)
    requires Sane(k)
    ensures Refs(Prepare(k).tasks, x) == Refs(k.tasks, x) && Prepare(k).spaces == k.spaces
  {
    RefsSame(k.tasks, Prepare(k).tasks, x, 0);
  }

  lemma DropCounts(w: World, id: nat, x: nat)
    requires Accounted(w) && id in w.held
    ensures TableInv(Release(w.kernel.spaces, id))
    ensures Count(Release(w.kernel.spaces, id), x) == Refs(w.kernel.tasks, x) + (w.held - multiset{id})[x]
  {
    assert Count(w.kernel.spaces, id) == Refs(w.kernel.tasks, id) + w.held[id];
    ReleaseCounts(w.kernel.spaces, id, x);
  }

  /** One operation, one space. */
  lemma ApplyCounts(w: World, op: Op, x: nat)
    requires Safe(w.kernel) && Accounted(w)
    ensures var w' := Apply(w, op);
            TableInv(w'.kernel.spaces) &&
            Count(w'.kernel.spaces, x) == Refs(w'.kernel.tasks, x) + w'.held[x]
  {
    var k := w.kernel;
    hide Count, Refs, TableInv, Spawn, SpawnExec, Yield, Exit, SetAspace, Create, Release, Prepare;
    if Enabled(w, op) {
      match op {
        case SpawnShared => SpawnCounts(k, x);
        case SpawnBuiltin(job) => SpawnExecCounts(k, job, x);
        case Give => YieldKeepsRefs(k, x);
        case Leave =>
          LiveSpacesExist(w, k.current);
          ExitCounts(k, x);
        case Rehome(pid, id) =>
          forall i | 0 <= i < MAX_TASKS && Live(k.tasks[i])
            ensures Count(k.spaces, k.tasks[i].aspaceId) > 0
          {
            LiveSpacesExist(w, i);
          }
          SetAspaceCounts(k, pid, id, x);
        case NewSpace(kind) => CreateCounts(k.spaces, kind, x);
        case DropSpace(id) => DropCounts(w, id, x);
        case TimerIrq =>
        case Reset => PrepareKeepsRefs(k, x);
      }
    }
  }

  lemma ApplyAccounted(w: World, op: Op)
    requires Safe(w.kernel) && Accounted(w)
    ensures Accounted(Apply(w, op))
  {
    hide Apply, TableInv, Count, Refs;
    forall x: nat
      ensures TableInv(Apply(w, op).kernel.spaces)
      ensures Count(Apply(w, op).kernel.spaces, x) == Refs(Apply(w, op).kernel.tasks, x) + Apply(w, op).held[x]
    {
      ApplyCounts(w, op, x);
    }
    ApplyCounts(w, op, 0);
  }

  /** In every state that any run reaches, all references are accounted for and every live task's
      address space exists. */
  lemma {:induction false} RunAccounted(w: World, ops: seq<Op>)
    requires Safe(w.kernel) && Accounted(w)
    ensures var w' := Run(w, ops);
            Safe(w'.kernel) && Accounted(w') &&
            forall i :: 0 <= i < MAX_TASKS && Live(w'.kernel.tasks[i]) ==> Resolves(w'.kernel.spaces, w'.kernel.tasks[i].aspaceId)
    decreases |ops|
  {
    if |ops| == 0 {
      forall i | 0 <= i < MAX_TASKS && Live(w.kernel.tasks[i])
        ensures Resolves(w.kernel.spaces, w.kernel.tasks[i].aspaceId)
      {
        LiveSpacesExist(w, i);
      }
    } else {
      hide Apply, Accounted, Resolves, Live;
      ApplySafe(w, ops[0]);
      ApplyAccounted(w, ops[0]);
      RunAccounted(Apply(w, ops[0]), ops[1..]);
    }
  }

  /** sched_task_set_aspace keeps the account exactly when it does not move a zombie to another
      existing space: a zombie's reference has already been released, so the one it retains is lost. */
  lemma RehomeExact(w: World, pid: nat, id: nat)
    requires Safe(w.kernel) && Accounted(w)
    ensures Accounted(w.(kernel := SetAspace(w.kernel, pid, id).1)) <==> !RehomesZombie(w.kernel, pid, id)
  {
    if RehomesZombie(w.kernel, pid, id) {
      var k := w.kernel;
      var i := PidFrom(k.tasks, pid, 0);
      RetainCounts(k.spaces, id, id);
      ReleaseCounts(Retain(k.spaces, id), k.tasks[i].aspaceId, id);
      RefsSame(k.tasks, SetAspace(k, pid, id).1.tasks, id, 0);
      assert Count(k.spaces, id) == Refs(k.tasks, id) + w.held[id];
    } else {
      ApplyAccounted(w, Rehome(pid, id));
    }
  }

  // ---- The processor's root ----

  /** The processor uses the root of the running task's address space. */
  ghost predicate Rooted(k: Kernel)
    requires Sane(k)
  {
    k.cr3 == RootOf(k.spaces, k.tasks[k.current].aspaceId)
  }

  lemma RetainRoot(s: Spaces, id: nat, x: nat)
    requires TableInv(s)
    ensures TableInv(Retain(s, id)) && RootOf(Retain(s, id), x) == RootOf(s, x) && (Resolves(Retain(s, id), x) <==> Resolves(s, x))
  {
    var t := Retain(s, id);
    if Resolves(s, id) {
      RetainCounts(s, id, x);
      if Resolves(s, x) {
        FindUnique(t, Find(s, x), x);
      }
      if Resolves(t, x) {
        FindUnique(s, Find(t, x), x);
      }
    }
  }

  lemma ReleaseRoot(s: Spaces, id: nat, x: nat)
    requires TableInv(s) && Resolves(Release(s, id), x)
    ensures RootOf(Release(s, id), x) == RootOf(s, x) && Resolves(s, x)
  {
    var t := Release(s, id);
    assert Names(s.slots[Find(t, x)], x);
    FindUnique(s, Find(t, x), x);
  }

  lemma CreateRootOf(s: Spaces, kind: nat, x: nat)
    requires TableInv(s) && Resolves(s, x)
    ensures RootOf(Create(s, kind).1, x) == RootOf(s, x) && Resolves(Create(s, kind).1, x)
  {
    var t := Create(s, kind).1;
    CreateTable(s, kind);
    assert Names(t.slots[Find(s, x)], x);
    FindUnique(t, Find(s, x), x);
  }

  lemma ForkRoot(s: Spaces, parent: nat, x: nat)
    requires TableInv(s) && Resolves(s, x)
    ensures var t := ForkClone(s, parent).1; TableInv(t) && RootOf(t, x) == RootOf(s, x) && Resolves(t, x)
  {
    ForkCounts(s, parent, x);
    if Resolves(s, parent) {
      RetainRoot(s, parent, x);
      CreateRootOf(s, s.slots[Find(s, parent)].kind, x);
    }
  }

  lemma SpawnRoot(k: Kernel, x: nat)
    requires Sane(k) && TableInv(k.spaces) && Resolves(k.spaces, x) && Resolves(Spawn(k).1.spaces, x)
    ensures RootOf(Spawn(k).1.spaces, x) == RootOf(k.spaces, x)
  {
    var (id, s) := ForkClone(k.spaces, k.tasks[k.current].aspaceId);
    ForkRoot(k.spaces, k.tasks[k.current].aspaceId, x);
    RetainRoot(s, id, x);
    if id != 0 {
      var k2 := SpawnIn(k.(spaces := s), k.tasks[k.current].pid, id).1;
      ReleaseRoot(k2.spaces, id, x);
    }
  }

  lemma SpawnExecRoot(k: Kernel, job: bool, x: nat)
    requires Sane(k) && TableInv(k.spaces) && Resolves(SpawnExec(k, job).1.spaces, x)
    ensures RootOf(SpawnExec(k, job).1.spaces, x) == RootOf(k.spaces, x)
  {
    var id := k.spaces.kernelId;
    if Resolves(k.spaces, id) {
      var s1 := Retain(k.spaces, id);
      RetainRoot(k.spaces, id, x);
      RetainRoot(s1, id, x);
      var k2 := SpawnIn(k.(spaces := s1), k.tasks[k.current].pid, id).1;
      if job {
        ReleaseRoot(k2.spaces, id, x);
      } else {
        ReleaseRoot(s1, id, x);
      }
    }
  }

  lemma RehomeRoot(k: Kernel, pid: nat, id: nat, x: nat)
    requires Sane(k) && TableInv(k.spaces) && Resolves(SetAspace(k, pid, id).1.spaces, x)
    ensures RootOf(SetAspace(k, pid, id).1.spaces, x) == RootOf(k.spaces, x)
  {
    var i := PidFrom(k.tasks, pid, 0);
    if i >= 0 && k.tasks[i].aspaceId != id && Resolves(k.spaces, id) {
      RetainRoot(k.spaces, id, x);
      ReleaseRoot(Retain(k.spaces, id), k.tasks[i].aspaceId, x);
    }
  }

  /** The one operation that changes the running task's space without loading its root. */
  ghost predicate MovesRunning(k: Kernel, op: Op)
    requires Sane(k)
  {
    op.Rehome? && PidFrom(k.tasks, op.pid, 0) == k.current && Resolves(k.spaces, op.id) &&
    RootOf(k.spaces, op.id) != RootOf(k.spaces, k.tasks[k.current].aspaceId)
  }

  lemma SwitchRooted(k: Kernel, next: nat)
    requires Sane(k) && next < MAX_TASKS && Rooted(k) && Resolves(k.spaces, k.tasks[next].aspaceId)
    ensures Rooted(SwitchTo(k, next))
  {
  }

  lemma YieldRooted(k: Kernel)
    requires Safe(k) && Rooted(k) && Resolves(Yield(k).spaces, Yield(k).tasks[Yield(k).current].aspaceId)
    ensures Rooted(Yield(k))
  {
    if NextReady(k) >= 0 {
      SwitchRooted(k, NextReady(k));
    }
  }

  lemma ExitRooted(k: Kernel)
    requires Safe(k) && k.current != 0 && Resolves(Exit(k).spaces, Exit(k).tasks[Exit(k).current].aspaceId)
    ensures Rooted(Exit(k))
  {
    ExitFindsSuccessor(k);
  }

  /** The operations that do not switch change neither the root in use nor that of any space they keep. */
  lemma KeepsRoot(w: World, op: Op, x: nat)
    requires Safe(w.kernel) && TableInv(w.kernel.spaces) && !op.Give? && !op.Leave? && Resolves(w.kernel.spaces, x)
    requires Resolves(Apply(w, op).kernel.spaces, x)
    ensures var k, k' := w.kernel, Apply(w, op).kernel;
            k'.cr3 == k.cr3 && k'.current == k.current && RootOf(k'.spaces, x) == RootOf(k.spaces, x)
  {
    var k := w.kernel;
    hide RootOf, Create, Release, Retain, Resolves;
    if Enabled(w, op) {
      match op {
        case SpawnShared => SpawnRoot(k, x);
        case SpawnBuiltin(job) => SpawnExecRoot(k, job, x);
        case Rehome(pid, id) => RehomeRoot(k, pid, id, x);
        case NewSpace(kind) => CreateRootOf(k.spaces, kind, x);
        case DropSpace(id) => ReleaseRoot(k.spaces, id, x);
        case TimerIrq =>
        case Reset =>
      }
    }
  }

  lemma RunningKept(w: World, op: Op)
    requires Safe(w.kernel) && !op.Give? && !op.Leave?
    ensures var k, k' := w.kernel, Apply(w, op).kernel;
            k'.tasks[k.current].aspaceId ==
            if Enabled(w, op) && op.Rehome? && PidFrom(k.tasks, op.pid, 0) == k.current && Resolves(k.spaces, op.id) then op.id
            else k.tasks[k.current].aspaceId
  {
    hide Create, Release, Retain, Resolves, ForkClone;
  }

  /** Every operation keeps the processor in the running task's space, but for that one. */
  lemma ApplyRooted(w: World, op: Op)
    requires Safe(w.kernel) && Accounted(w) && Rooted(w.kernel)
    ensures Rooted(Apply(w, op).kernel) <==> !MovesRunning(w.kernel, op)
  {
    var k, k' := w.kernel, Apply(w, op).kernel;
    ApplySafe(w, op);
    ApplyAccounted(w, op);
    LiveSpacesExist(w, k.current);
    LiveSpacesExist(Apply(w, op), k'.current);
    if op.Give? {
      YieldRooted(k);
    } else if op.Leave? {
      if k.current != 0 {
        ExitRooted(k);
      }
    } else {
      RunningKept(w, op);
      if op.Rehome? && PidFrom(k.tasks, op.pid, 0) == k.current {
        RunningEnabled(w, op);
      }
      var x := k'.tasks[k.current].aspaceId;
      assert k'.current == k.current by {
        NoSwitch(w, op);
      }
      hide Apply, RootOf, Resolves, Accounted, Safe, Enabled;
      KeepsRoot(w, op, x);
    }
  }

  lemma NoSwitch(w: World, op: Op)
    requires Safe(w.kernel) && !op.Give? && !op.Leave?
    ensures Apply(w, op).kernel.current == w.kernel.current
  {
  }

  /** The running task is no zombie, so moving it loses no count. */
  lemma RunningEnabled(w: World, op: Op)
    requires Safe(w.kernel) && op.Rehome? && PidFrom(w.kernel.tasks, op.pid, 0) == w.kernel.current
    ensures Enabled(w, op)
  {
  }

  /** Over any run that moves no task, from a state in which the processor uses the running task's root, it does. */
  lemma {:induction false} RunRooted(w: World, ops: seq<Op>)
    requires Safe(w.kernel) && Accounted(w) && Rooted(w.kernel) && forall i :: 0 <= i < |ops| ==> !ops[i].Rehome?
    ensures Safe(Run(w, ops).kernel) && Rooted(Run(w, ops).kernel)
    decreases |ops|
  {
    if |ops| > 0 {
      ApplySafe(w, ops[0]);
      ApplyAccounted(w, ops[0]);
      ApplyRooted(w, ops[0]);
      hide Apply, Accounted, RootOf;
      RunRooted(Apply(w, ops[0]), ops[1..]);
    }
  }

  /** The world after aspace_init and sched_init. */
  function Boot(m: Memory.Mem, cr3: nat): (w: World)
    ensures Sane(w.kernel)
  {
    var s := Init(m, cr3);
    World(Kernel([Task(true, Running, 1, 0, s.kernelId)] + seq(7, _ => EMPTY_TASK), 0, 2, s,
                 TraceState(false, PROFILE_NONE, 1, [], 0, 0, Replay(false, false, [], 0, 0)), 0, cr3), multiset{})
  }

  /** At boot the one reference on the kernel space is the shell's. */
  lemma BootAccounted(m: Memory.Mem, cr3: nat)
    ensures Safe(Boot(m, cr3).kernel) && Accounted(Boot(m, cr3)) && Rooted(Boot(m, cr3).kernel)
  {
    var w := Boot(m, cr3);
    var s := w.kernel.spaces;
    assert s.slots[0] == Slot(true, 1, KIND_KERNEL, 1, cr3, 0);
    assert forall i :: 0 < i < ASPACE_MAX ==> s.slots[i] == EMPTY_SLOT;
    assert Names(s.slots[0], 1);
    forall x: nat
      ensures Count(s, x) == Refs(w.kernel.tasks, x) + w.held[x]
    {
      FindUnique(s, 0, 1);
      RefsUpdate(w.kernel.tasks[0 := EMPTY_TASK], w.kernel.tasks, 0, x, 0);
      NoRefs(w.kernel.tasks[0 := EMPTY_TASK], x, 0);
    }
  }

  /** A run from boot after which a zombie can be moved: a worker is spawned, runs and exits, and a space is made. */
  function ZombieAndSpace(): seq<Op>
  {
    [SpawnShared, Give, Leave, NewSpace(KIND_KERNEL)]
  }

  /** The table while only the kernel space has been made. */
  ghost predicate OneSpace(s: Spaces)
  {
    |s.slots| == ASPACE_MAX && s.nextId == 2 && s.kernelId == 1 && s.slots[0].used && s.slots[0].id == 1 &&
    s.slots[0].kind == KIND_KERNEL && forall i :: 0 < i < ASPACE_MAX ==> !s.slots[i].used
  }

  lemma OneSpaceKept(s: Spaces)
    requires OneSpace(s)
    ensures Find(s, 1) == 0 && OneSpace(Retain(s, 1)) && OneSpace(Release(s, 1))
  {
    assert Names(s.slots[0], 1);
  }

  /** Slot 0 is the shell, slot 1 the worker with pid 2, in these states. */
  ghost predicate TwoTasks(k: Kernel, shell: TaskState, worker: TaskState)
  {
    OneSpace(k.spaces) && k.tasks == [Task(true, shell, 1, 0, 1), Task(true, worker, 2, 1, 1)] + seq(6, _ => EMPTY_TASK) &&
    k.current == (if shell == Running then 0 else 1) && !k.trace.replay.active
  }

  lemma FirstSpawn(m: Memory.Mem, cr3: nat)
    requires Safe(Boot(m, cr3).kernel)
    ensures TwoTasks(Apply(Boot(m, cr3), SpawnShared).kernel, Running, Ready)
  {
    var k := Boot(m, cr3).kernel;
    OneSpaceKept(k.spaces);
    OneSpaceKept(Retain(k.spaces, 1));
    OneSpaceKept(Retain(Retain(k.spaces, 1), 1));
    hide OneSpace;
  }

  lemma FirstYield(w: World)
    requires Sane(w.kernel) && TwoTasks(w.kernel, Running, Ready)
    ensures TwoTasks(Apply(w, Give).kernel, Ready, Running)
  {
    hide OneSpace;
    assert NextReady(w.kernel) == 1 by {
      assert IsReady(w.kernel.tasks[1]);
    }
  }

  lemma FirstExit(w: World)
    requires Sane(w.kernel) && TwoTasks(w.kernel, Ready, Running)
    ensures TwoTasks(Apply(w, Leave).kernel, Running, Zombie)
  {
    OneSpaceKept(w.kernel.spaces);
    hide OneSpace;
    var k := w.kernel;
    var k1 := k.(spaces := Release(k.spaces, 1), tasks := k.tasks[1 := k.tasks[1].(state := Zombie)]);
    assert NextReady(k1) == 0 by {
      assert IsReady(k1.tasks[0]);
    }
  }

  lemma SecondSpace(w: World)
    requires Sane(w.kernel) && TwoTasks(w.kernel, Running, Zombie)
    ensures RehomesZombie(Apply(w, NewSpace(KIND_KERNEL)).kernel, 2, 2)
  {
    var k := Apply(w, NewSpace(KIND_KERNEL)).kernel;
    assert Names(k.spaces.slots[1], 2);
    var i := PidFrom(k.tasks, 2, 0);
    assert Visible(k.tasks[1]) && k.tasks[1].pid == 2;
  }

  /** The zombie that this run leaves has pid 2; moving it to the new space, id 2, loses count. */
  lemma ZombieMoveLosesCount(m: Memory.Mem, cr3: nat)
    ensures Safe(Boot(m, cr3).kernel) &&
            var w := Run(Boot(m, cr3), ZombieAndSpace());
            Safe(w.kernel) && Accounted(w) && !Accounted(w.(kernel := SetAspace(w.kernel, 2, 2).1))
  {
    var w0, ops := Boot(m, cr3), ZombieAndSpace();
    BootAccounted(m, cr3);
    RunAccounted(w0, ops);
    RunSafe(w0, ops);
    FirstSpawn(m, cr3);
    ApplySafe(w0, SpawnShared);
    var w1 := Apply(w0, SpawnShared);
    FirstYield(w1);
    ApplySafe(w1, Give);
    var w2 := Apply(w1, Give);
    FirstExit(w2);
    ApplySafe(w2, Leave);
    var w3 := Apply(w2, Leave);
    SecondSpace(w3);
    RunOfFour(w0, SpawnShared, Give, Leave, NewSpace(KIND_KERNEL));
    hide Apply, Run, Accounted, RehomesZombie, Boot, SetAspace;
    RehomeExact(Run(w0, ops), 2, 2);
  }

  lemma RunOfFour(w: World, a: Op, b: Op, c: Op, d: Op)
    requires Safe(w.kernel) && Safe(Apply(w, a).kernel) && Safe(Apply(Apply(w, a), b).kernel)
    requires Safe(Apply(Apply(Apply(w, a), b), c).kernel)
    ensures Run(w, [a, b, c, d]) == Apply(Apply(Apply(Apply(w, a), b), c), d)
  {
    var w1, w2, w3 := Apply(w, a), Apply(Apply(w, a), b), Apply(Apply(Apply(w, a), b), c);
    ApplySafe(w3, d);
    hide Apply;
    assert [a, b, c, d][1..] == [b, c, d] && [b, c, d][1..] == [c, d] && [c, d][1..] == [d] && [d][1..] == [];
    assert Run(w3, [d]) == Apply(w3, d);
    assert Run(w2, [c, d]) == Run(w3, [d]);
    assert Run(w1, [b, c, d]) == Run(w2, [c, d]);
  }

  lemma {:induction false} NoRefs(ts: seq<Task>, id: nat, i: nat)
    requires forall j :: 0 <= j < |ts| ==> !Live(ts[j])
    ensures RefsFrom(ts, id, i) == 0
    decreases |ts| - i
  {
    if i < |ts| {
      NoRefs(ts, id, i + 1);
    }
  }
}
