/** The cooperative scheduler (kernel/sched.c): eight task slots, round-robin choice, and the
    operations that create, switch and end tasks together with their address-space references. */
module Sched {
  import opened Events
  import opened Trace
  import opened Aspace

  const MAX_TASKS: nat := 8
  const NO_PID: nat := 0xffff_ffff

  datatype TaskState = Empty | Ready | Running | Zombie

  datatype Task = Task(used: bool, state: TaskState, pid: nat, parentPid: nat, aspaceId: nat)

  const EMPTY_TASK: Task := Task(false, Empty, 0, 0, 0)

  /** `cr3` is the root that the processor uses. */
  datatype Kernel = Kernel(tasks: seq<Task>, current: nat, nextPid: nat, spaces: Spaces, trace: TraceState, ticks: nat,
                           cr3: nat)

  predicate Sane(k: Kernel)
  {
    |k.tasks| == MAX_TASKS && k.current < MAX_TASKS
  }

  /** task_visible. */
  predicate Visible(t: Task)
  {
    t.used && 0 < t.pid && t.pid != NO_PID && t.state != Empty
  }

  predicate IsReady(t: Task)
  {
    Visible(t) && t.state == Ready
  }

  /** Holds a reference on its address space. */
  predicate Live(t: Task)
  {
    Visible(t) && t.state != Zombie
  }

  /** How many slots ahead of `current` slot `t` is scanned: 1 to 8, the running slot last. */
  function Ahead(current: nat, t: nat): (d: nat)
    requires current < MAX_TASKS && t < MAX_TASKS
    ensures 1 <= d <= MAX_TASKS && (current + d) % MAX_TASKS == t
  {
    if t > current then t - current else t + MAX_TASKS - current
  }

  function Scan(tasks: seq<Task>, current: nat, i: nat): (r: int)
    requires |tasks| == MAX_TASKS && current < MAX_TASKS && 1 <= i <= MAX_TASKS + 1
    ensures -1 <= r < MAX_TASKS
    ensures r >= 0 ==> IsReady(tasks[r]) && i <= Ahead(current, r)
    ensures forall t :: 0 <= t < MAX_TASKS && IsReady(tasks[t]) && i <= Ahead(current, t) ==>
              r >= 0 && Ahead(current, r) <= Ahead(current, t)
    decreases MAX_TASKS + 1 - i
  {
    if i == MAX_TASKS + 1 then -1
    else if IsReady(tasks[(current + i) % MAX_TASKS]) then (current + i) % MAX_TASKS
    else Scan(tasks, current, i + 1)
  }

  /** find_next_ready: the READY slot nearest ahead of the running one, or -1 if there is none. */
  function NextReady(k: Kernel): (r: int)
    requires Sane(k)
    ensures -1 <= r < MAX_TASKS
    ensures r >= 0 ==> IsReady(k.tasks[r])
    ensures forall t :: 0 <= t < MAX_TASKS && IsReady(k.tasks[t]) ==>
              r >= 0 && Ahead(k.current, r) <= Ahead(k.current, t)
  {
    Scan(k.tasks, k.current, 1)
  }

  function SwitchTo(k: Kernel, next: nat): (r: Kernel)
    requires Sane(k) && next < MAX_TASKS
    ensures Sane(r)
  {
    var prev := k.current;
    if next == prev then k
    else
      var t1 := if k.tasks[prev].used && k.tasks[prev].state == Running
                then k.tasks[prev := k.tasks[prev].(state := Ready)] else k.tasks;
      k.(tasks := t1[next := t1[next].(state := Running)],
         current := next,
         cr3 := if Resolves(k.spaces, k.tasks[next].aspaceId) then RootOf(k.spaces, k.tasks[next].aspaceId) else k.cr3,
         trace := Record(k.trace, Sig(k.tasks[next].pid, SCHED, prev, next), k.ticks))
  }

  /** What sched_yield picks: what a replayed log forces, be it negative, else the round-robin choice. */
  function YieldTarget(k: Kernel): (r: int)
    requires Sane(k)
  {
    match ForcedNext(k.trace)
    case Forced(next) => next
    case NotForced => NextReady(k)
  }

  function Yield(k: Kernel): (r: Kernel)
    requires Sane(k) && YieldTarget(k) < MAX_TASKS
    ensures Sane(r)
  {
    if YieldTarget(k) >= 0 then SwitchTo(k, YieldTarget(k)) else k
  }

  /** task_exit, up to the switch away; with no successor it would halt where it is. */
  function Exit(k: Kernel): (r: Kernel)
    requires Sane(k)
    ensures Sane(r)
  {
    var k1 := k.(spaces := Release(k.spaces, k.tasks[k.current].aspaceId),
                 tasks := k.tasks[k.current := k.tasks[k.current].(state := Zombie)]);
    var next := NextReady(k1);
    if next >= 0 then SwitchTo(k1, next) else k1
  }

  function FreeSlotFrom(tasks: seq<Task>, i: nat): (r: int)
    requires i <= |tasks|
    ensures r == -1 || i <= r < |tasks|
    ensures r >= 0 ==> !Live(tasks[r]) && forall j :: i <= j < r ==> Live(tasks[j])
    ensures r == -1 ==> forall j :: i <= j < |tasks| ==> Live(tasks[j])
    decreases |tasks| - i
  {
    if i == |tasks| then -1 else if !Live(tasks[i]) then i else FreeSlotFrom(tasks, i + 1)
  }

  /** sched_spawn_with_parent_aspace: the new pid, or -1. */
  function SpawnIn(k: Kernel, parentPid: nat, aspaceId: nat): (r: (int, Kernel))
    requires Sane(k)
    ensures Sane(r.1)
  {
    var i := FreeSlotFrom(k.tasks, 1);
    if i < 0 || !Resolves(k.spaces, aspaceId) then (-1, k)
    else
      (k.nextPid as int, k.(spaces := Retain(k.spaces, aspaceId),
                     tasks := k.tasks[i := Task(true, Ready, k.nextPid, parentPid, aspaceId)],
                     nextPid := k.nextPid + 1))
  }

  /** sched_spawn: the child gets a clone of the parent's space; the caller's reference is dropped. */
  function Spawn(k: Kernel): (r: (int, Kernel))
    requires Sane(k)
    ensures Sane(r.1)
  {
    var (id, s) := ForkClone(k.spaces, k.tasks[k.current].aspaceId);
    var k1 := k.(spaces := s);
    if id == 0 then (-1, k1)
    else
      var (pid, k2) := SpawnIn(k1, k.tasks[k.current].pid, id);
      (pid, k2.(spaces := Release(k2.spaces, id)))
  }

  /** builtin_exec_spawn from the point where the image is accepted; `job` says whether a job slot is free. */
  function SpawnExec(k: Kernel, job: bool): (r: (int, Kernel))
    requires Sane(k)
    ensures Sane(r.1)
  {
    var id := k.spaces.kernelId;
    if !Resolves(k.spaces, id) then (-1, k)
    else
      var k1 := k.(spaces := Retain(k.spaces, id));
      if !job then (-1, k1.(spaces := Release(k1.spaces, id)))
      else
        var (pid, k2) := SpawnIn(k1, k.tasks[k.current].pid, id);
        (pid, k2.(spaces := Release(k2.spaces, id)))
  }

  function PidFrom(tasks: seq<Task>, pid: nat, i: nat): (r: int)
    requires i <= |tasks|
    ensures r == -1 || i <= r < |tasks|
    ensures r >= 0 ==> Visible(tasks[r]) && tasks[r].pid == pid &&
                       forall j :: i <= j < r ==> !(Visible(tasks[j]) && tasks[j].pid == pid)
    ensures r == -1 ==> forall j :: i <= j < |tasks| ==> !(Visible(tasks[j]) && tasks[j].pid == pid)
    decreases |tasks| - i
  {
    if i == |tasks| then -1 else if Visible(tasks[i]) && tasks[i].pid == pid then i else PidFrom(tasks, pid, i + 1)
  }

  /** sched_task_set_aspace. */
  function SetAspace(k: Kernel, pid: nat, id: nat): (r: (bool, Kernel))
    requires Sane(k)
    ensures Sane(r.1)
  {
    var i := PidFrom(k.tasks, pid, 0);
    if i < 0 then (false, k)
    else if k.tasks[i].aspaceId == id then (true, k)
    else if !Resolves(k.spaces, id) then (false, k)
    else (true, k.(spaces := Release(Retain(k.spaces, id), k.tasks[i].aspaceId),
                   tasks := k.tasks[i := k.tasks[i].(aspaceId := id)]))
  }

  /** sched_prepare_replay: zombies are forgotten and pids start again at 2. */
  function Prepare(k: Kernel): (r: Kernel)
    requires Sane(k)
    ensures Sane(r)
  {
    k.(tasks := seq(MAX_TASKS, i requires 0 <= i < MAX_TASKS =>
                      if i > 0 && Visible(k.tasks[i]) && k.tasks[i].state == Zombie then EMPTY_TASK else k.tasks[i]),
       nextPid := 2)
  }

  /** A timer interrupt: isr_dispatch drops it during a replay, else it is traced and time moves on. */
  function Tick(k: Kernel): (r: Kernel)
    requires Sane(k)
    ensures Sane(r)
  {
    if k.trace.replay.active then k
    else k.(trace := Record(k.trace, Sig(k.tasks[k.current].pid, IRQ, 32, 0), k.ticks), ticks := k.ticks + 1)
  }

  /** trace_record by the running task, for itself. */
  function Emit(k: Kernel, kind: nat, data0: nat, data1: nat): (r: Kernel)
    requires Sane(k)
    ensures Sane(r)
  {
    k.(trace := Record(k.trace, Sig(k.tasks[k.current].pid, kind, data0, data1), k.ticks))
  }

  // ---- The scheduler as the kernel keeps it ----

  class Scheduler {
    var tasks: seq<Task>
    var current: nat
    var nextPid: nat
    var ticks: nat
    var cr3: nat
    const spaces: AddressSpaces
    const recorder: Recorder

    ghost predicate Valid()
      reads this, recorder
    {
      |tasks| == MAX_TASKS && current < MAX_TASKS && recorder.Valid()
    }

    ghost function View(): (k: Kernel)
      requires Valid()
      reads this, spaces, recorder, recorder.buffer, recorder.replayBuffer
      ensures Sane(k)
    {
      Kernel(tasks, current, nextPid, spaces.View(), recorder.View(), ticks, cr3)
    }

    /** sched_init: the boot thread becomes task 0, the kernel shell. */
    constructor (spaces: AddressSpaces, recorder: Recorder)
      requires recorder.Valid()
      ensures Valid() && this.spaces == spaces && this.recorder == recorder
      ensures View() == Kernel([Task(true, Running, 1, 0, spaces.kernelId)] + seq(7, _ => EMPTY_TASK), 0, 2,
                               spaces.View(), recorder.View(), 0, spaces.kernelCr3)
    {
      tasks := [Task(true, Running, 1, 0, spaces.kernelId)] + seq(7, _ => EMPTY_TASK);
      current, nextPid, ticks, cr3 := 0, 2, 0, spaces.kernelCr3;
      this.spaces, this.recorder := spaces, recorder;
    }

    method FindNextReady() returns (next: int)
      requires Valid()
      ensures next == NextReady(View())
    {
      for i := 1 to MAX_TASKS + 1
        invariant Scan(tasks, current, 1) == Scan(tasks, current, i)
      {
        var idx := (current + i) % MAX_TASKS;
        if IsReady(tasks[idx]) {
          return idx;
        }
      }
      next := -1;
    }

    /** aspace_switch. */
    method SwitchSpace(id: nat)
      modifies this`cr3
      ensures cr3 == if Resolves(spaces.View(), id) then RootOf(spaces.View(), id) else old(cr3)
    {
      var i := spaces.FindSlot(id);
      if i >= 0 && cr3 != spaces.slots[i].cr3 {
        cr3 := spaces.slots[i].cr3;
      }
    }

    method Switch(next: int)
      requires Valid() && next < MAX_TASKS
      modifies this, recorder, recorder.buffer
      ensures Valid()
      ensures View() == if next < 0 then old(View()) else SwitchTo(old(View()), next)
    {
      var prev := current;
      if next < 0 || next == prev {
        return;
      }
      if tasks[prev].used && tasks[prev].state == Running {
        tasks := tasks[prev := tasks[prev].(state := Ready)];
      }
      tasks := tasks[next := tasks[next].(state := Running)];
      current := next;
      SwitchSpace(tasks[next].aspaceId);
      recorder.Emit(SCHED, tasks[next].pid, prev, next, tasks[next].pid, ticks);
    }

    /** sched_yield. The caller has a log that forces no slot outside the table. */
    method YieldCpu()
      requires Valid() && YieldTarget(View()) < MAX_TASKS
      modifies this, recorder, recorder.buffer
      ensures Valid() && View() == Yield(old(View()))
    {
      var forced := recorder.ExpectedNextTask();
      var next;
      if forced.Forced? {
        next := forced.next;
      } else {
        next := FindNextReady();
      }
      Switch(next);
    }

    method ExitTask()
      requires Valid()
      modifies this, spaces, recorder, recorder.buffer
      ensures Valid() && View() == Exit(old(View()))
    {
      var _ := spaces.ReleaseSpace(tasks[current].aspaceId);
      tasks := tasks[current := tasks[current].(state := Zombie)];
      var next := FindNextReady();
      Switch(next);
    }

    method SpawnWithAspace(parentPid: nat, aspaceId: nat) returns (pid: int)
      requires Valid()
      modifies this, spaces
      ensures Valid() && View() == SpawnIn(old(View()), parentPid, aspaceId).1
      ensures pid == SpawnIn(old(View()), parentPid, aspaceId).0
    {
      for i := 1 to MAX_TASKS
        invariant Valid() && View() == old(View())
        invariant FreeSlotFrom(tasks, 1) == FreeSlotFrom(tasks, i)
      {
        if !Live(tasks[i]) {
          var ok := spaces.RetainSpace(aspaceId);
          if !ok {
            return -1;
          }
          pid := nextPid;
          tasks := tasks[i := Task(true, Ready, nextPid, parentPid, aspaceId)];
          nextPid := nextPid + 1;
          return;
        }
      }
      pid := -1;
    }

    method SpawnTask() returns (pid: int)
      requires Valid()
      modifies this, spaces
      ensures Valid() && View() == Spawn(old(View())).1 && pid == Spawn(old(View())).0
    {
      var id := spaces.ForkSpace(tasks[current].aspaceId);
      if id == 0 {
        return -1;
      }
      pid := SpawnWithAspace(tasks[current].pid, id);
      var _ := spaces.ReleaseSpace(id);
    }

    method SpawnProgram(job: bool) returns (pid: int)
      requires Valid()
      modifies this, spaces
      ensures Valid() && View() == SpawnExec(old(View()), job).1 && pid == SpawnExec(old(View()), job).0
    {
      var id := spaces.kernelId;
      var ok := spaces.RetainSpace(id);
      if !ok {
        return -1;
      }
      if !job {
        var _ := spaces.ReleaseSpace(id);
        return -1;
      }
      pid := SpawnWithAspace(tasks[current].pid, id);
      var _ := spaces.ReleaseSpace(id);
    }

    method SetTaskAspace(pid: nat, id: nat) returns (ok: bool)
      requires Valid()
      modifies this, spaces
      ensures Valid() && View() == SetAspace(old(View()), pid, id).1 && ok == SetAspace(old(View()), pid, id).0
    {
      for i := 0 to MAX_TASKS
        invariant Valid() && View() == old(View())
        invariant PidFrom(tasks, pid, 0) == PidFrom(tasks, pid, i)
      {
        if Visible(tasks[i]) && tasks[i].pid == pid {
          if tasks[i].aspaceId == id {
            return true;
          }
          var retained := spaces.RetainSpace(id);
          if !retained {
            return false;
          }
          var _ := spaces.ReleaseSpace(tasks[i].aspaceId);
          tasks := tasks[i := tasks[i].(aspaceId := id)];
          return true;
        }
      }
      ok := false;
    }

    method PrepareReplay()
      requires Valid()
      modifies this
      ensures Valid() && View() == Prepare(old(View()))
    {
      for i := 1 to MAX_TASKS
        invariant Valid() && View() == old(View()).(tasks := tasks)
        invariant forall j :: 0 <= j < MAX_TASKS ==>
                    tasks[j] == if 0 < j < i && Visible(old(tasks)[j]) && old(tasks)[j].state == Zombie
                                then EMPTY_TASK else old(tasks)[j]
      {
        if Visible(tasks[i]) && tasks[i].state == Zombie {
          tasks := tasks[i := EMPTY_TASK];
        }
      }
      nextPid := 2;
      assert tasks == Prepare(old(View())).tasks;
    }
  }
}
