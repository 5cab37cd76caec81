/** What single operations do, outright: when they succeed, which slot of the two tables changes and what it then
    holds (kernel/sched.c, kernel/aspace.c, kernel/builtin_exec.c). */
module Effects {
  import opened Memory
  import opened Paging
  import opened Events
  import opened Trace
  import opened Aspace
  import opened Sched
  import opened Lifecycle

  /** Slot `i` is the first after the shell's that can be used. */
  ghost predicate FirstUsable(ts: seq<Task>, i: nat)
  {
    1 <= i < |ts| && !Live(ts[i]) && forall j :: 1 <= j < i ==> Live(ts[j])
  }

  ghost predicate HasUsable(ts: seq<Task>)
  {
    exists i :: 1 <= i < |ts| && !Live(ts[i])
  }

  /** Nothing but counts differs, and only that of `id` does, by `d`. */
  ghost predicate CountMoved(s: Spaces, t: Spaces, id: nat, d: int)
  {
    |t.slots| == |s.slots| && t.slots == SlotsWith(s.slots, t.slots) && t == s.(slots := t.slots) &&
    forall x: nat :: Count(t, x) == Count(s, x) + if x == id then d else 0
  }

  /** The slots of `ss` with the counts of `ts`. */
  ghost function SlotsWith(ss: seq<Slot>, ts: seq<Slot>): seq<Slot>
    requires |ss| == |ts|
  {
    seq(|ss|, i requires 0 <= i < |ss| => ss[i].(refcount := ts[i].refcount))
  }

  /** The running task has got a child with this pid in this space; the child is READY in the first usable slot. */
  ghost predicate ChildAdded(k: Kernel, k': Kernel, pid: int, id: nat)
    requires Sane(k) && Sane(k')
  {
    pid == k.nextPid && k' == k.(tasks := k'.tasks, nextPid := k.nextPid + 1, spaces := k'.spaces) &&
    exists i :: ChildIn(k, k', i, id)
  }

  ghost predicate ChildIn(k: Kernel, k': Kernel, i: nat, id: nat)
    requires Sane(k) && Sane(k')
  {
    FirstUsable(k.tasks, i) && k'.tasks[i] == Task(true, Ready, k.nextPid, k.tasks[k.current].pid, id) &&
    Visible(k'.tasks[i]) && forall j :: 0 <= j < MAX_TASKS && j != i ==> k'.tasks[j] == k.tasks[j]
  }

  lemma SlotIsFirst(ts: seq<Task>)
    requires |ts| == MAX_TASKS
    ensures FreeSlotFrom(ts, 1) >= 0 <==> HasUsable(ts)
    ensures FreeSlotFrom(ts, 1) >= 0 ==> FirstUsable(ts, FreeSlotFrom(ts, 1))
  {
    var r := FreeSlotFrom(ts, 1);
    if r >= 0 {
      assert FirstUsable(ts, r);
    }
  }

  lemma RetainMoved(s: Spaces, id: nat)
    requires TableInv(s) && Resolves(s, id)
    ensures CountMoved(s, Retain(s, id), id, 1)
  {
    forall x: nat
      ensures Count(Retain(s, id), x) == Count(s, x) + if x == id then 1 else 0
    {
      RetainCounts(s, id, x);
    }
    hide Count, TableInv;
    assert Retain(s, id).slots == SlotsWith(s.slots, Retain(s, id).slots);
  }

  /** A reference taken and given back leaves the table as it was. */
  lemma RetainRelease(s: Spaces, id: nat)
    requires TableInv(s) && Resolves(s, id)
    ensures Release(Retain(s, id), id) == s && Resolves(Retain(s, id), id) && TableInv(Retain(s, id))
  {
    var t, i := Retain(s, id), Find(s, id);
    RetainCounts(s, id, id);
    assert Names(t.slots[i], id);
    FindUnique(t, i, id);
    assert s.slots[i := s.slots[i]] == s.slots;
  }

  /** sched_spawn_with_parent_aspace as its two callers call it, with a reference of their own that they then drop. */
  lemma HandedOver(k: Kernel, s: Spaces, id: nat)
    requires Safe(k) && k.nextPid < NO_PID && TableInv(s) && Resolves(s, id)
    ensures var k1 := k.(spaces := Retain(s, id));
            var (pid, k2) := SpawnIn(k1, k.tasks[k.current].pid, id);
            var k3 := k2.(spaces := Release(k2.spaces, id));
            (pid >= 0 <==> HasUsable(k.tasks)) && (pid < 0 ==> pid == -1 && k3 == k.(spaces := s)) &&
            (pid >= 0 ==> ChildAdded(k, k3, pid, id) && k3.spaces == Retain(s, id))
  {
    hide Retain, Release, Resolves, TableInv;
    SlotIsFirst(k.tasks);
    RetainRelease(s, id);
    RetainRelease(Retain(s, id), id);
    var i := FreeSlotFrom(k.tasks, 1);
    var k1 := k.(spaces := Retain(s, id));
    if i >= 0 {
      var k2 := SpawnIn(k1, k.tasks[k.current].pid, id).1;
      assert ChildIn(k, k2.(spaces := Release(k2.spaces, id)), i, id);
    }
  }

  /** builtin_exec_spawn succeeds exactly if a job slot and a task slot are free. It then adds a child in the kernel
      space, which has one reference more; otherwise nothing changes. */
  lemma SpawnExecExact(k: Kernel, job: bool)
    requires Safe(k) && TableInv(k.spaces) && k.nextPid < NO_PID
    ensures var (pid, k') := SpawnExec(k, job);
            (pid >= 0 <==> job && HasUsable(k.tasks)) && (pid < 0 ==> pid == -1 && k' == k) &&
            (pid >= 0 ==> ChildAdded(k, k', pid, k.spaces.kernelId) &&
                          CountMoved(k.spaces, k'.spaces, k.spaces.kernelId, 1))
  {
    var id := k.spaces.kernelId;
    assert Resolves(k.spaces, id);
    RetainMoved(k.spaces, id);
    RetainRelease(k.spaces, id);
    HandedOver(k, k.spaces, id);
    hide Retain, Release, Resolves, ChildAdded, CountMoved, HasUsable, SpawnIn;
  }

  /** sched_spawn from a task in the kernel space shares it: a child if a slot is free, or no change. */
  lemma SpawnExact(k: Kernel)
    requires Safe(k) && TableInv(k.spaces) && k.nextPid < NO_PID && Resolves(k.spaces, k.tasks[k.current].aspaceId)
    requires k.spaces.slots[Find(k.spaces, k.tasks[k.current].aspaceId)].kind == KIND_KERNEL
    ensures var (pid, k') := Spawn(k);
            (pid >= 0 <==> HasUsable(k.tasks)) && (pid < 0 ==> pid == -1 && k' == k) &&
            (pid >= 0 ==> ChildAdded(k, k', pid, k.tasks[k.current].aspaceId) &&
                          CountMoved(k.spaces, k'.spaces, k.tasks[k.current].aspaceId, 1))
  {
    var id := k.tasks[k.current].aspaceId;
    RetainMoved(k.spaces, id);
    HandedOver(k, k.spaces, id);
    SharedFork(k.spaces, id);
    hide Retain, Release, Resolves, ChildAdded, CountMoved, HasUsable, SpawnIn, ForkClone;
  }

  lemma SharedFork(s: Spaces, id: nat)
    requires TableInv(s) && Resolves(s, id) && s.slots[Find(s, id)].kind == KIND_KERNEL
    ensures ForkClone(s, id) == (id, Retain(s, id)) && id > 0
  {
  }

  ghost predicate HasFree(s: Spaces)
  {
    exists i :: 0 <= i < |s.slots| && !s.slots[i].used
  }

  /** A slot is free, and so are four frames if the space needs tables of its own. */
  ghost predicate CanCreate(s: Spaces, kind: nat)
  {
    HasFree(s) && (kind != KIND_KERNEL ==> s.mem.next + 4 * PAGE <= s.mem.limit)
  }

  /** aspace_create succeeds exactly then. The space is in the first free slot, under the next id, with this kind and
      one reference; a kernel space has the kernel's root and no window, any other the next frame as its root and the
      fourth as the table of its window. No other slot changes. An attempt without frames uses up an id all the same. */
  lemma CreateExact(s: Spaces, start: nat, kind: nat)
    requires Inv(s, start)
    ensures var (id, t) := Create(s, kind);
            (id != 0 <==> CanCreate(s, kind)) && |t.slots| == |s.slots| && t.kernelId == s.kernelId && t.kernelCr3 == s.kernelCr3 &&
            t.nextId == s.nextId + (if HasFree(s) then 1 else 0) &&
            (id == 0 ==> forall j :: 0 <= j < |s.slots| && s.slots[j].used ==> t.slots[j] == s.slots[j]) &&
            (id != 0 ==> id == s.nextId && exists i :: NewSlot(s, t, i, kind))
  {
    CloneRootBuilds(s.mem, s.kernelCr3);
    hide CloneRoot, PtOf;
    var (id, t) := Create(s, kind);
    if id != 0 {
      assert NewSlot(s, t, FreeFrom(s.slots, 0), kind);
    }
  }

  ghost predicate NewSlot(s: Spaces, t: Spaces, i: nat, kind: nat)
    requires |s.slots| == |t.slots|
  {
    i < |s.slots| && !s.slots[i].used && (forall j :: 0 <= j < i ==> s.slots[j].used) &&
    t.slots[i].used && t.slots[i].id == s.nextId && t.slots[i].kind == kind && t.slots[i].refcount == 1 &&
    (if kind == KIND_KERNEL then t.slots[i].cr3 == s.kernelCr3 && t.slots[i].userPt == 0 && t.mem == s.mem
     else t.slots[i].cr3 == s.mem.next && t.slots[i].userPt == s.mem.next + 3 * PAGE) &&
    forall j :: 0 <= j < |s.slots| && j != i ==> t.slots[j] == s.slots[j]
  }

  /** aspace_fork_clone of a space that is not a kernel space creates one of the same kind; without a parent it fails. */
  lemma ForkExact(s: Spaces, start: nat, parent: nat)
    requires Inv(s, start) && TableInv(s)
    ensures var (id, t) := ForkClone(s, parent);
            if !Resolves(s, parent) then id == 0 && t == s
            else
              var kind := s.slots[Find(s, parent)].kind;
              if kind == KIND_KERNEL then id == parent && CountMoved(s, t, parent, 1)
              else
                (id != 0 <==> CanCreate(s, kind)) && t.nextId == s.nextId + (if HasFree(s) then 1 else 0) &&
                (id != 0 ==> id == s.nextId && |t.slots| == |s.slots| && exists i :: NewSlot(s, t, i, kind))
  {
    if Resolves(s, parent) {
      var kind := s.slots[Find(s, parent)].kind;
      CreateExact(s, start, kind);
      RetainMoved(s, parent);
    }
    hide Create, CountMoved, CanCreate, NewSlot, Inv, TableInv;
  }

  /** From a task in a space of another kind, sched_spawn makes one of that kind for the child, which holds its only
      reference; without a slot, a space or frames no task changes and no count does. */
  lemma SpawnFresh(k: Kernel, start: nat)
    requires Safe(k) && Inv(k.spaces, start) && TableInv(k.spaces) && k.nextPid < NO_PID
    requires Resolves(k.spaces, k.tasks[k.current].aspaceId)
    requires k.spaces.slots[Find(k.spaces, k.tasks[k.current].aspaceId)].kind != KIND_KERNEL
    ensures var (pid, k') := Spawn(k);
            var kind := k.spaces.slots[Find(k.spaces, k.tasks[k.current].aspaceId)].kind;
            (pid >= 0 <==> HasUsable(k.tasks) && CanCreate(k.spaces, kind)) &&
            k'.spaces.nextId == k.spaces.nextId + (if HasFree(k.spaces) then 1 else 0) &&
            (pid < 0 ==> pid == -1 && k' == k.(spaces := k'.spaces) && forall x: nat :: Count(k'.spaces, x) == Count(k.spaces, x)) &&
            (pid >= 0 ==> ChildAdded(k, k', pid, k.spaces.nextId) && |k'.spaces.slots| == |k.spaces.slots| &&
                          exists i :: NewSlot(k.spaces, k'.spaces, i, kind))
  {
    hide Retain, Release, Create, CanCreate, Inv, TableInv, Count, NewSlot, Safe, HasFree;
    Issued(k);
    var parent := k.tasks[k.current].aspaceId;
    var (id, s) := ForkClone(k.spaces, parent);
    var k1 := k.(spaces := s);
    ForkExact(k.spaces, start, parent);
    SlotIsFirst(k.tasks);
    var k' := Spawn(k).1;
    forall x: nat
      ensures Spawn(k).0 < 0 ==> Count(k'.spaces, x) == Count(k.spaces, x)
    {
      SpawnCounts(k, x);
    }
    if id != 0 {
      NewResolves(k.spaces, parent);
      RetainRelease(s, id);
      SameNextId(s, id);
      var i := FreeSlotFrom(k.tasks, 1);
      if i >= 0 {
        assert ChildIn(k, k', i, id);
      }
    }
  }

  lemma SameNextId(s: Spaces, id: nat)
    ensures Release(s, id).nextId == s.nextId
  {
  }

  lemma Issued(k: Kernel)
    requires Safe(k)
    ensures Sane(k) && 0 < k.nextPid
  {
  }

  lemma NewResolves(s: Spaces, parent: nat)
    requires TableInv(s) && Resolves(s, parent) && s.slots[Find(s, parent)].kind != KIND_KERNEL && ForkClone(s, parent).0 != 0
    ensures var (id, t) := ForkClone(s, parent); TableInv(t) && Resolves(t, id)
  {
    var (id, t) := ForkClone(s, parent);
    ForkCounts(s, parent, id);
    CreateTable(s, s.slots[Find(s, parent)].kind);
    assert Names(t.slots[FreeFrom(s.slots, 0)], id);
  }

  /** A timer interrupt stops at a replay. Otherwise time moves on, and a recording without a profile stores an interrupt
      of vector 32 for the running task at the time it came; one with a profile stores nothing. */
  lemma TickStores(k: Kernel)
    requires Sane(k)
    ensures var t, u := k.trace, Tick(k).trace;
            Tick(k) == (if t.replay.active then k else k.(ticks := k.ticks + 1, trace := u)) &&
            (t.recording && t.profile != PROFILE_NONE ==> u == t) &&
            (t.recording && t.profile == PROFILE_NONE && !t.replay.active && |t.log| < BUFFER_CAP ==>
               u == t.(nextEventId := t.nextEventId + 1, log := u.log) && |u.log| == |t.log| + 1 && u.log[..|t.log|] == t.log &&
               u.log[|t.log|] == Event(t.nextEventId, k.ticks, k.tasks[k.current].pid, 1, 40, 32, 0))
  {
  }

  /** An event while nothing is recorded and nothing replayed costs an id and no more. */
  lemma EventIgnored(t: TraceState, s: Sig, ticks: nat)
    requires !t.recording && !t.replay.active
    ensures Record(t, s, ticks) == t.(nextEventId := t.nextEventId + 1)
  {
  }

  /** `i` is the task with this pid. */
  ghost predicate HasPid(k: Kernel, i: nat, pid: nat)
    requires Sane(k)
  {
    i < MAX_TASKS && Visible(k.tasks[i]) && k.tasks[i].pid == pid
  }

  /** sched_task_set_aspace of task `i` succeeds exactly if the space is its own or exists; the task is then in it and
      nothing else about any task has changed. The new space has one reference more, the old one less. */
  lemma SetAspaceExact(k: Kernel, pid: nat, id: nat, i: nat)
    requires Safe(k) && TableInv(k.spaces) && HasPid(k, i, pid) && Count(k.spaces, k.tasks[i].aspaceId) > 0
    ensures var (ok, k') := SetAspace(k, pid, id);
            (ok <==> id == k.tasks[i].aspaceId || Resolves(k.spaces, id)) &&
            k' == k.(tasks := k'.tasks, spaces := k'.spaces) &&
            (forall j :: 0 <= j < MAX_TASKS ==> k'.tasks[j] == if ok && j == i then k.tasks[i].(aspaceId := id) else k.tasks[j]) &&
            (!ok || id == k.tasks[i].aspaceId ==> k'.spaces == k.spaces) &&
            (ok && id != k.tasks[i].aspaceId ==>
               forall x: nat :: Count(k'.spaces, x) ==
                 Count(k.spaces, x) + if x == id then 1 else if x == k.tasks[i].aspaceId then -1 else 0)
  {
    OnlyPid(k, pid, i);
    var old_ := k.tasks[i].aspaceId;
    if old_ != id && Resolves(k.spaces, id) {
      RetainCounts(k.spaces, id, old_);
      forall x: nat
        ensures Count(SetAspace(k, pid, id).1.spaces, x) == Count(k.spaces, x) + if x == id then 1 else if x == old_ then -1 else 0
      {
        RetainCounts(k.spaces, id, x);
        ReleaseCounts(Retain(k.spaces, id), old_, x);
      }
    }
    hide Release, Retain, Count, TableInv, Resolves;
  }

  lemma OnlyPid(k: Kernel, pid: nat, i: nat)
    requires Safe(k) && HasPid(k, i, pid)
    ensures PidFrom(k.tasks, pid, 0) == i
  {
    var r := PidFrom(k.tasks, pid, 0);
    assert r < i || r == i || r > i;
  }

  /** Without a task of this pid it fails and changes nothing. */
  lemma NoSuchTask(k: Kernel, pid: nat, id: nat)
    requires Sane(k) && forall i: nat :: i < MAX_TASKS ==> !HasPid(k, i, pid)
    ensures SetAspace(k, pid, id) == (false, k)
  {
    var r := PidFrom(k.tasks, pid, 0);
    if r >= 0 {
      assert HasPid(k, r, pid);
    }
  }
}
