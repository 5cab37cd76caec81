/** Whole workloads: starting them, how many events they trace, that they end, and that what was
    recorded replays (kernel/workload.c, and the demo commands of kernel/shell.c). */
module Workload {
  import opened Events
  import opened Trace
  import opened Aspace
  import opened Sched
  import opened Replay

  // ---- Counting the events of a run ----

  function Says(s: Script): nat
  {
    if |s| == 0 then 0 else (if s[0].Say? then 1 else 0) + Says(s[1..])
  }

  /** How often a script gives the processor away: at each yield, and when it exits. */
  function Turns(s: Script): (n: nat)
    ensures n >= 1
  {
    if |s| == 0 then 1 else (if s[0].Pause? then 1 else 0) + Turns(s[1..])
  }

  function Weight(t: Task, s: Script): nat
  {
    if Live(t) then Says(s) + Turns(s) else 0
  }

  /** Rounds of the shell's loop that the worker in slot `i` still needs; from its own turn on, one
      round is already under way. */
  function Laps(t: Task, s: Script, current: nat, i: nat): nat
  {
    if !Live(t) then 0 else Turns(s) - (if current != 0 && i >= current then 1 else 0)
  }

  function SumFrom(ts: seq<Task>, ss: seq<Script>, i: nat): nat
    requires |ts| == |ss|
    decreases |ts| - i
  {
    if i >= |ts| then 0 else Weight(ts[i], ss[i]) + SumFrom(ts, ss, i + 1)
  }

  function Max(a: nat, b: nat): nat
  {
    if a >= b then a else b
  }

  function MaxFrom(ts: seq<Task>, ss: seq<Script>, current: nat, i: nat): nat
    requires |ts| == |ss|
    decreases |ts| - i
  {
    if i >= |ts| then 0 else Max(Laps(ts[i], ss[i], current, i), MaxFrom(ts, ss, current, i + 1))
  }

  /** The number of events that a machine has still to trace. */
  function Remaining(m: Machine): nat
    requires SaneMachine(m)
  {
    SumFrom(m.kernel.tasks, m.scripts, 1) + MaxFrom(m.kernel.tasks, m.scripts, m.kernel.current, 1)
  }

  lemma {:induction false} SumUpdate(ts: seq<Task>, ss: seq<Script>, us: seq<Task>, rs: seq<Script>, c: nat, i: nat)
    requires |ts| == |ss| == |us| == |rs| && c < |ts|
    requires forall j :: i <= j < |ts| && j != c ==> Weight(ts[j], ss[j]) == Weight(us[j], rs[j])
    ensures SumFrom(us, rs, i) == SumFrom(ts, ss, i) + (if i <= c then Weight(us[c], rs[c]) - Weight(ts[c], ss[c]) else 0)
    decreases |ts| - i
  {
    if i < |ts| {
      SumUpdate(ts, ss, us, rs, c, i + 1);
    }
  }

  lemma {:induction false} MaxSame(ts: seq<Task>, ss: seq<Script>, c: nat, us: seq<Task>, rs: seq<Script>, d: nat, i: nat)
    requires |ts| == |ss| == |us| == |rs|
    requires forall j :: i <= j < |ts| ==> Laps(ts[j], ss[j], c, j) == Laps(us[j], rs[j], d, j)
    ensures MaxFrom(ts, ss, c, i) == MaxFrom(us, rs, d, i)
    decreases |ts| - i
  {
    if i < |ts| {
      MaxSame(ts, ss, c, us, rs, d, i + 1);
    }
  }

  /** When the shell starts a round, every worker alive needs one round less. */
  lemma {:induction false} MaxRound(ts: seq<Task>, us: seq<Task>, ss: seq<Script>, d: nat, i: nat)
    requires |ts| == |ss| == |us| && 0 < d
    requires forall j :: i <= j < |ts| ==> (Live(ts[j]) <==> Live(us[j])) && (Live(ts[j]) ==> d <= j)
    ensures MaxFrom(ts, ss, 0, i) == MaxFrom(us, ss, d, i) + (if LiveFrom(ts, i) > 0 then 1 else 0)
    ensures LiveFrom(ts, i) == 0 ==> MaxFrom(us, ss, d, i) == 0
    decreases |ts| - i
  {
    if i < |ts| {
      MaxRound(ts, us, ss, d, i + 1);
    }
  }

  /** The slots after a hop: where the next task is, and who is still ahead of it. */
  lemma HopAhead(m: Machine)
    requires Good(m) && NextMove(m).Hop? && NextReady(m.kernel) >= 0
    ensures var c := m.kernel.current;
            var n := NextReady(m.kernel);
            (n > c || n == 0) && forall j :: c < j < MAX_TASKS && Live(m.kernel.tasks[j]) ==> 0 < n <= j
  {
    var c := m.kernel.current;
    if c != 0 {
      assert IsReady(m.kernel.tasks[0]);
    }
    forall j | c < j < MAX_TASKS && Live(m.kernel.tasks[j])
      ensures 0 < NextReady(m.kernel) <= j
    {
      assert IsReady(m.kernel.tasks[j]);
    }
  }

  lemma ShellHop(m: Machine, r: Machine)
    requires Good(m) && !m.finished && m.kernel.current == 0 && NextMove(m).Hop? && SaneMachine(r) && Moves(m, r)
    ensures Remaining(m) == Remaining(r) + 1
  {
    SuccessorExists(m);
    HopAhead(m);
    LiveFromWitness(m.kernel.tasks, 1);
    MaxRound(m.kernel.tasks, r.kernel.tasks, m.scripts, r.kernel.current, 1);
    SumUpdate(m.kernel.tasks, m.scripts, r.kernel.tasks, r.scripts, 0, 1);
  }

  lemma WorkerHop(m: Machine, r: Machine)
    requires Good(m) && !m.finished && m.kernel.current != 0 && NextMove(m).Hop? && SaneMachine(r) && Moves(m, r)
    ensures Remaining(m) == Remaining(r) + 1
  {
    var c := m.kernel.current;
    SuccessorExists(m);
    HopAhead(m);
    MaxSame(m.kernel.tasks, m.scripts, c, r.kernel.tasks, r.scripts, r.kernel.current, 1);
    SumUpdate(m.kernel.tasks, m.scripts, r.kernel.tasks, r.scripts, c, 1);
  }

  lemma WorkerTalk(m: Machine, r: Machine)
    requires Good(m) && !m.finished && NextMove(m).Talk? && SaneMachine(r) && Moves(m, r)
    ensures Remaining(m) == Remaining(r) + 1
  {
    var c := m.kernel.current;
    MaxSame(m.kernel.tasks, m.scripts, c, r.kernel.tasks, r.scripts, r.kernel.current, 1);
    SumUpdate(m.kernel.tasks, m.scripts, r.kernel.tasks, r.scripts, c, 1);
  }

  /** Each step of a recording run traces exactly the events by which its remaining count shrinks. */
  lemma StepCounts(m: Machine, l: Label)
    requires RecordsWell(m)
    ensures Emitted(Step(m, l)) + Remaining(Step(m, l)) == Emitted(m) + Remaining(m)
  {
    RecordStep(m, l);
    var r := Step(m, l);
    if l == Cpu && !m.finished {
      if NextMove(m).Halt? {
        assert Remaining(m) == Remaining(r);
      } else {
        MoveSigQuiet(m);
        if NextMove(m).Talk? {
          WorkerTalk(m, r);
        } else if m.kernel.current == 0 {
          ShellHop(m, r);
        } else {
          WorkerHop(m, r);
        }
      }
    }
  }

  lemma {:induction false} RunCounts(m: Machine, ls: seq<Label>)
    requires RecordsWell(m)
    ensures Emitted(Run(m, ls)) + Remaining(Run(m, ls)) == Emitted(m) + Remaining(m)
    decreases |ls|
  {
    hide Remaining, Step, AllQuiet, Recording;
    if |ls| > 0 {
      StepCounts(m, ls[0]);
      RecordStep(m, ls[0]);
      RunCounts(Step(m, ls[0]), ls[1..]);
    }
  }

  /** A machine that has finished has no worker left, and until then every step traces one event. */
  ghost predicate Progress(m: Machine, steps: nat, start: nat)
  {
    (m.finished ==> m.active == 0 && Emitted(m) < start + steps) && (!m.finished ==> Emitted(m) == start + steps)
  }

  lemma StepProgress(m: Machine, l: Label, steps: nat, start: nat)
    requires RecordsWell(m) && Progress(m, steps, start)
    ensures Progress(Step(m, l), steps + (if l == Cpu then 1 else 0), start)
  {
    RecordStep(m, l);
    if l == Cpu && !m.finished {
      LiveFromWitness(m.kernel.tasks, 1);
      if !NextMove(m).Halt? {
        MoveSigQuiet(m);
      } else {
        if m.kernel.current != 0 || m.active > 0 {
          SuccessorExists(m);
        }
      }
    }
  }

  lemma {:induction false} RunProgress(m: Machine, ls: seq<Label>, steps: nat, start: nat)
    requires RecordsWell(m) && Progress(m, steps, start)
    ensures Progress(Run(m, ls), steps + CpuCount(ls), start)
    decreases |ls|
  {
    hide Progress, Step, AllQuiet, Recording;
    if |ls| > 0 {
      StepProgress(m, ls[0], steps, start);
      RecordStep(m, ls[0]);
      RunProgress(Step(m, ls[0]), ls[1..], steps + (if ls[0] == Cpu then 1 else 0), start);
    }
  }

  lemma {:induction false} NoneLiveNothingLeft(ts: seq<Task>, ss: seq<Script>, current: nat, i: nat)
    requires |ts| == |ss| && LiveFrom(ts, i) == 0
    ensures SumFrom(ts, ss, i) == 0 && MaxFrom(ts, ss, current, i) == 0
    decreases |ts| - i
  {
    if i < |ts| {
      NoneLiveNothingLeft(ts, ss, current, i + 1);
    }
  }

  // ---- Starting a workload ----

  function SumOf(ws: seq<Script>): nat
  {
    if |ws| == 0 then 0 else Says(ws[0]) + Turns(ws[0]) + SumOf(ws[1..])
  }

  function LongestTurns(ws: seq<Script>): nat
  {
    if |ws| == 0 then 0 else Max(Turns(ws[0]), LongestTurns(ws[1..]))
  }

  /** The events of a workload, from its scripts alone: each traced event, each turn given up, and
      one switch out of the shell per round of the longest script. */
  function TotalEvents(ws: seq<Script>): nat
  {
    SumOf(ws) + LongestTurns(ws)
  }

  /** Nothing runs but the shell; every other slot is empty or holds a zombie. */
  ghost predicate Quiescent(k: Kernel)
  {
    Sane(k) && k.current == 0 && k.tasks[0].used && k.tasks[0].state == Running && k.tasks[0].pid == 1 &&
    (forall i :: 0 < i < MAX_TASKS ==> k.tasks[i] == EMPTY_TASK || (Visible(k.tasks[i]) && k.tasks[i].state == Zombie)) &&
    SharedKernelSpace(k, 0)
  }

  /** The shell lives in the kernel's address space, which has more than `n` references. */
  ghost predicate SharedKernelSpace(k: Kernel, n: nat)
    requires Sane(k)
  {
    var id := k.tasks[0].aspaceId;
    var i := Find(k.spaces, id);
    0 < id && 0 <= i && k.spaces.slots[i].kind == KIND_KERNEL && n < k.spaces.slots[i].refcount
  }

  /** The loops of kernel/workload.c that spawn the workers. */
  function Launch(m: Machine, ws: seq<Script>): (r: Machine)
    requires SaneMachine(m)
    ensures SaneMachine(r)
    decreases |ws|
  {
    if |ws| == 0 then m
    else
      var slot := FreeSlotFrom(m.kernel.tasks, 1);
      var (pid, k) := Spawn(m.kernel);
      Launch(m.(active := m.active + 1, kernel := k,
                scripts := if pid >= 0 && slot >= 0 then m.scripts[slot := ws[0]] else m.scripts), ws[1..])
  }

  /** active_workloads counts the workers asked for, whether or not they could be spawned. */
  lemma {:induction false} LaunchCountsAll(m: Machine, ws: seq<Script>)
    requires SaneMachine(m)
    ensures Launch(m, ws).active == m.active + |ws|
    decreases |ws|
  {
    hide Spawn, FreeSlotFrom;
    if |ws| > 0 {
      var slot := FreeSlotFrom(m.kernel.tasks, 1);
      var (pid, k) := Spawn(m.kernel);
      LaunchCountsAll(m.(active := m.active + 1, kernel := k,
                         scripts := if pid >= 0 && slot >= 0 then m.scripts[slot := ws[0]] else m.scripts), ws[1..]);
    }
  }

  function Start(k: Kernel, ws: seq<Script>): (r: Machine)
    requires Sane(k)
    ensures SaneMachine(r)
  {
    Launch(Machine(k, seq(MAX_TASKS, _ => []), 0, false, false), ws)
  }

  /** "demo record" up to its idle loop. */
  function RecordStart(k: Kernel, profile: nat, ws: seq<Script>): (r: Machine)
    requires Sane(k)
    ensures SaneMachine(r)
  {
    Start(Prepare(k).(trace := StartProfile(k.trace, profile, k.ticks)), ws)
  }

  /** "demo replay" of a log up to its idle loop. */
  function ReplayStart(k: Kernel, log: seq<Event>, startTicks: nat, ws: seq<Script>): (r: Machine)
    requires Sane(k)
    ensures SaneMachine(r)
  {
    Start(Prepare(k.(trace := k.trace.(replay := Begin(log, startTicks), nextEventId := 1))), ws)
  }

  function WorkerTask(i: nat, shell: Task): Task
  {
    Task(true, Ready, 1 + i, shell.pid, shell.aspaceId)
  }

  /** The first `|ws|` workers are in slots 1, 2, ... with pids 2, 3, ... */
  ghost predicate Launched(m: Machine, shell: Task, trace: TraceState, ws: seq<Script>)
  {
    SaneMachine(m) && |ws| < MAX_TASKS && m.kernel.current == 0 && m.kernel.tasks[0] == shell &&
    (forall i :: 1 <= i <= |ws| ==> m.kernel.tasks[i] == WorkerTask(i, shell) && m.scripts[i] == ws[i - 1]) &&
    (forall i :: |ws| < i < MAX_TASKS ==> m.kernel.tasks[i] == EMPTY_TASK && m.scripts[i] == []) &&
    m.scripts[0] == [] && m.active == |ws| && !m.finished && !m.wild && m.kernel.nextPid == 2 + |ws| &&
    m.kernel.trace == trace && SharedKernelSpace(m.kernel, |ws|)
  }

  lemma {:induction false} FindSame(a: seq<Slot>, b: seq<Slot>, id: nat, i: nat)
    requires |a| == |b| && i <= |a| && forall j :: 0 <= j < |a| ==> (Names(a[j], id) <==> Names(b[j], id))
    ensures FindFrom(a, id, i) == FindFrom(b, id, i)
    decreases |a| - i
  {
    if i < |a| {
      FindSame(a, b, id, i + 1);
    }
  }

  /** Spawning in the kernel space nets one more reference on it. */
  lemma RefsOfSpawn(s: Spaces, id: nat)
    requires 0 <= Find(s, id) && 0 < s.slots[Find(s, id)].refcount
    ensures var i := Find(s, id);
            var t := Release(Retain(Retain(s, id), id), id);
            Resolves(Retain(s, id), id) &&
            t == s.(slots := s.slots[i := s.slots[i].(refcount := s.slots[i].refcount + 1)]) && Find(t, id) == i
  {
    var i := Find(s, id);
    var a := Retain(s, id);
    FindSame(s.slots, a.slots, id, 0);
    var b := Retain(a, id);
    FindSame(a.slots, b.slots, id, 0);
    var t := Release(b, id);
    assert t.slots == s.slots[i := s.slots[i].(refcount := s.slots[i].refcount + 1)];
    FindSame(b.slots, t.slots, id, 0);
  }

  lemma LaunchOne(m: Machine, shell: Task, trace: TraceState, ws: seq<Script>, w: Script)
    requires Launched(m, shell, trace, ws) && |ws| + 1 < MAX_TASKS
    ensures var slot := FreeSlotFrom(m.kernel.tasks, 1);
            var (pid, k) := Spawn(m.kernel);
            slot == |ws| + 1 && pid >= 0 &&
            Launched(m.(active := m.active + 1, kernel := k, scripts := m.scripts[slot := w]), shell, trace, ws + [w])
  {
    var slot := FreeSlotFrom(m.kernel.tasks, 1);
    assert slot == |ws| + 1 by {
      assert forall i :: 1 <= i <= |ws| ==> Live(m.kernel.tasks[i]);
      assert !Live(m.kernel.tasks[|ws| + 1]);
    }
    RefsOfSpawn(m.kernel.spaces, shell.aspaceId);
    assert Spawn(m.kernel).1.tasks == m.kernel.tasks[slot := WorkerTask(slot, shell)];
  }

  lemma {:induction false} LaunchAll(m: Machine, shell: Task, trace: TraceState, done: seq<Script>, ws: seq<Script>)
    requires Launched(m, shell, trace, done) && |done| + |ws| < MAX_TASKS
    ensures Launched(Launch(m, ws), shell, trace, done + ws)
    decreases |ws|
  {
    hide Spawn, FreeSlotFrom, SharedKernelSpace;
    if |ws| == 0 {
      assert done + ws == done;
    } else {
      hide Launched;
      LaunchOne(m, shell, trace, done, ws[0]);
      var slot := FreeSlotFrom(m.kernel.tasks, 1);
      var m1 := m.(active := m.active + 1, kernel := Spawn(m.kernel).1, scripts := m.scripts[slot := ws[0]]);
      LaunchAll(m1, shell, trace, done + [ws[0]], ws[1..]);
      assert done + [ws[0]] + ws[1..] == done + ws;
    }
  }

  lemma StartLaunches(k: Kernel, trace: TraceState, ws: seq<Script>)
    requires Quiescent(k) && |ws| < MAX_TASKS
    ensures Launched(Start(Prepare(k).(trace := trace), ws), k.tasks[0], trace, ws)
  {
    var k1 := Prepare(k).(trace := trace);
    LaunchAll(Machine(k1, seq(MAX_TASKS, _ => []), 0, false, false), k.tasks[0], trace, [], ws);
    assert [] + ws == ws;
  }

  // ---- The theorems ----

  lemma {:induction false} LaunchedCounts(m: Machine, shell: Task, trace: TraceState, ws: seq<Script>, i: nat)
    requires Launched(m, shell, trace, ws) && 1 <= i <= |ws| + 1
    ensures SumFrom(m.kernel.tasks, m.scripts, i) == SumOf(ws[i - 1..])
    ensures MaxFrom(m.kernel.tasks, m.scripts, 0, i) == LongestTurns(ws[i - 1..])
    ensures LiveFrom(m.kernel.tasks, i) == |ws| + 1 - i
    decreases |ws| + 1 - i
  {
    if i <= |ws| {
      LaunchedCounts(m, shell, trace, ws, i + 1);
      assert ws[i - 1..][1..] == ws[i..];
    } else {
      NoneLive(m.kernel.tasks, i);
      NoneLiveNothingLeft(m.kernel.tasks, m.scripts, 0, i);
    }
  }

  lemma {:induction false} NoneLive(ts: seq<Task>, i: nat)
    requires forall j :: i <= j < |ts| ==> !Live(ts[j])
    ensures LiveFrom(ts, i) == 0
    decreases |ts| - i
  {
    if i < |ts| {
      NoneLive(ts, i + 1);
    }
  }

  lemma RecordStartGood(k: Kernel, profile: nat, ws: seq<Script>)
    requires Quiescent(k) && |ws| < MAX_TASKS && profile != PROFILE_NONE && AllQuiet(ws) && !k.trace.replay.active
    ensures var m := RecordStart(k, profile, ws);
            RecordsWell(m) && !m.finished && m.kernel.trace.log == [] && m.kernel.trace.dropped == k.trace.dropped &&
            Remaining(m) == TotalEvents(ws) && Launched(m, k.tasks[0], StartProfile(k.trace, profile, k.ticks), ws)
  {
    var t := StartProfile(k.trace, profile, k.ticks);
    StartLaunches(k, t, ws);
    var m := RecordStart(k, profile, ws);
    LaunchedCounts(m, k.tasks[0], t, ws, 1);
    assert ws[0..] == ws;
  }

  /** Closed form: a finished recording has traced exactly TotalEvents(ws) events, and the log keeps
      the first 4096 of them. */
  lemma RecordedLength(k: Kernel, profile: nat, ws: seq<Script>, ls: seq<Label>)
    requires Quiescent(k) && |ws| < MAX_TASKS && profile != PROFILE_NONE && AllQuiet(ws) && !k.trace.replay.active
    requires Run(RecordStart(k, profile, ws), ls).finished
    ensures var r := Run(RecordStart(k, profile, ws), ls);
            |r.kernel.trace.log| + (r.kernel.trace.dropped - k.trace.dropped) == TotalEvents(ws) &&
            |r.kernel.trace.log| == (if TotalEvents(ws) <= BUFFER_CAP then TotalEvents(ws) else BUFFER_CAP) &&
            (r.kernel.trace.dropped == k.trace.dropped <==> TotalEvents(ws) <= BUFFER_CAP)
  {
    var m := RecordStart(k, profile, ws);
    RecordStartGood(k, profile, ws);
    RunCounts(m, ls);
    RecordRun(m, ls);
    RunProgress(m, ls, 0, Emitted(m));
    var r := Run(m, ls);
    NoneLiveNothingLeft(r.kernel.tasks, r.scripts, r.kernel.current, 1);
  }

  /** Every recording terminates, whatever the timer does: after one step per event and one more. */
  lemma RecordingTerminates(k: Kernel, profile: nat, ws: seq<Script>, ls: seq<Label>)
    requires Quiescent(k) && |ws| < MAX_TASKS && profile != PROFILE_NONE && AllQuiet(ws) && !k.trace.replay.active
    ensures Run(RecordStart(k, profile, ws), ls).finished <==> CpuCount(ls) > TotalEvents(ws)
  {
    var m := RecordStart(k, profile, ws);
    RecordStartGood(k, profile, ws);
    RunCounts(m, ls);
    RecordRun(m, ls);
    RunProgress(m, ls, 0, Emitted(m));
    var r := Run(m, ls);
    if r.finished {
      NoneLiveNothingLeft(r.kernel.tasks, r.scripts, r.kernel.current, 1);
    }
  }

  lemma ReplayStartFollows(k: Kernel, profile: nat, ws: seq<Script>, j: Kernel, log: seq<Event>, start: nat)
    requires Quiescent(k) && |ws| < MAX_TASKS && profile != PROFILE_NONE && AllQuiet(ws) && !k.trace.replay.active
    requires Quiescent(j) && j.tasks[0] == k.tasks[0]
    ensures Follows(RecordStart(k, profile, ws), ReplayStart(j, log, start, ws))
    ensures ReplayStart(j, log, start, ws).kernel.trace.replay.log == log
  {
    RecordStartGood(k, profile, ws);
    var t := j.trace.(replay := Begin(log, start), nextEventId := 1);
    assert Prepare(j.(trace := t)) == Prepare(j).(trace := t);
    StartLaunches(j, t, ws);
    LaunchedAlike(RecordStart(k, profile, ws), ReplayStart(j, log, start, ws), k.tasks[0],
                  StartProfile(k.trace, profile, k.ticks), t, ws);
  }

  lemma LaunchedAlike(a: Machine, b: Machine, shell: Task, t: TraceState, u: TraceState, ws: seq<Script>)
    requires Launched(a, shell, t, ws) && Launched(b, shell, u, ws)
    ensures SameShape(a, b)
  {
    forall i | 0 <= i < MAX_TASKS
      ensures a.kernel.tasks[i] == b.kernel.tasks[i] && a.scripts[i] == b.scripts[i]
    {
      assert i == 0 || 1 <= i <= |ws| || |ws| < i < MAX_TASKS;
    }
  }

  /** Deterministic replay. Record any workload of at most seven scripts, with timer interrupts
      anywhere; replay the log from any later quiescent state, with timer interrupts anywhere. The
      replay never leaves the task table, and it succeeds exactly when the workload fits the buffer. */
  lemma DeterministicReplay(k: Kernel, profile: nat, ws: seq<Script>, ls: seq<Label>, j: Kernel, ls': seq<Label>)
    requires Quiescent(k) && |ws| < MAX_TASKS && profile != PROFILE_NONE && AllQuiet(ws) && !k.trace.replay.active
    requires Quiescent(j) && j.tasks[0] == k.tasks[0]
    requires Run(RecordStart(k, profile, ws), ls).finished
    ensures var r := Run(RecordStart(k, profile, ws), ls);
            var p := Run(ReplayStart(j, r.kernel.trace.log, r.kernel.trace.startTicks, ws), ls');
            !p.wild && p.kernel.trace.replay.active &&
            (TotalEvents(ws) <= BUFFER_CAP ==> !p.kernel.trace.replay.failed) &&
            (CpuCount(ls') >= CpuCount(ls) ==> p.finished) &&
            (p.finished ==> (Succeeded(p.kernel.trace.replay) <==> TotalEvents(ws) <= BUFFER_CAP))
  {
    hide RecordStart, ReplayStart, TotalEvents, Cpus, Run, SharedKernelSpace, AllQuiet, Recording;
    var m := RecordStart(k, profile, ws);
    var r := Run(m, ls);
    var log := r.kernel.trace.log;
    var p0 := ReplayStart(j, log, r.kernel.trace.startTicks, ws);
    RecordStartGood(k, profile, ws);
    RecordedLength(k, profile, ws, ls);
    ReplayStartFollows(k, profile, ws, j, log, r.kernel.trace.startTicks);
    ReplayIgnoresIrqs(p0, ls');
    FollowRun(m, p0, ls);
    RecordRun(m, ls);
    var n, n' := CpuCount(ls), CpuCount(ls');
    var p, q := Cpus(p0, n'), Cpus(p0, n);
    if n' >= n {
      CpusAdd(p0, n, n' - n);
      FinishedStays(q, n' - n);
    } else {
      FollowPrefix(m, p0, ls, n');
      if p.finished {
        CpusAdd(p0, n', n - n');
        FinishedStays(p, n - n');
      }
    }
  }

  // ---- The three profiles ----

  /** The event that a worker traces in round `i`: attack_task, sysload_task (where `used` is what
      memory_used_bytes returns) and lifecycle_child. */
  datatype Worker = Attack | Sysload(slot: nat, used: nat) | Lifecycle(slot: nat)

  function RoundEvent(w: Worker, i: nat): Instr
  {
    match w
    case Attack => Say(WORKLOAD, 0x1000 + i, 0x2000 + i * 4)
    case Sysload(slot, used) => Say(SCHED, slot * 1000 + i, used)
    case Lifecycle(slot) => Say(WORKLOAD, 0x5000 + slot, i)
  }

  /** `n` rounds of one traced event and one yield. */
  function Rounds(w: Worker, n: nat): Script
  {
    if n == 0 then [] else Rounds(w, n - 1) + [RoundEvent(w, n - 1), Pause]
  }

  lemma {:induction false} ConcatCounts(a: Script, b: Script)
    ensures Says(a + b) == Says(a) + Says(b) && Turns(a + b) == Turns(a) + Turns(b) - 1
  {
    if |a| == 0 {
      assert a + b == b;
    } else {
      assert (a + b)[1..] == a[1..] + b;
      ConcatCounts(a[1..], b);
    }
  }

  lemma {:induction false} RoundsCounts(w: Worker, n: nat)
    ensures Says(Rounds(w, n)) == n && Turns(Rounds(w, n)) == n + 1 && Quiet(Rounds(w, n))
  {
    if n > 0 {
      RoundsCounts(w, n - 1);
      var last := [RoundEvent(w, n - 1), Pause];
      assert last[1..] == [Pause] && [Pause][1..] == [];
      assert Says(last) == 1 && Turns(last) == 2;
      ConcatCounts(Rounds(w, n - 1), last);
    }
  }

  lemma {:induction false} UniformSums(ws: seq<Script>, n: nat)
    requires forall i :: 0 <= i < |ws| ==> Says(ws[i]) == n && Turns(ws[i]) == n + 1
    ensures SumOf(ws) == |ws| * (2 * n + 1)
    ensures LongestTurns(ws) == (if |ws| == 0 then 0 else n + 1)
  {
    if |ws| > 0 {
      UniformSums(ws[1..], n);
      Distribute(|ws| - 1, 2 * n + 1);
    }
  }

  lemma Distribute(a: nat, b: nat)
    ensures (a + 1) * b == a * b + b
  {
  }

  /** Workers that all do `n` rounds: k * n + (k + 1) * (n + 1) events for k of them. */
  lemma UniformTotal(ws: seq<Script>, n: nat)
    requires |ws| > 0
    requires forall i :: 0 <= i < |ws| ==> Says(ws[i]) == n && Turns(ws[i]) == n + 1
    ensures TotalEvents(ws) == |ws| * n + (|ws| + 1) * (n + 1)
  {
    UniformSums(ws, n);
    UniformArithmetic(|ws|, n);
  }

  lemma UniformArithmetic(k: nat, n: nat)
    ensures k * (2 * n + 1) + (n + 1) == k * n + (k + 1) * (n + 1)
  {
    Distribute(k, n + 1);
    assert k * (2 * n + 1) == k * n + k * (n + 1);
  }

  const ATTACK: nat := 1
  const SYSLOAD: nat := 2
  const LIFECYCLE: nat := 3

  /** workload_run_profile: which workers, and how many rounds each. */
  function ProfileScripts(profile: nat, used: nat): seq<Script>
  {
    if profile == ATTACK then [Rounds(Attack, 16)]
    else if profile == SYSLOAD then
      [Rounds(Sysload(0, used), 32), Rounds(Sysload(1, used), 32), Rounds(Sysload(2, used), 32)]
    else if profile == LIFECYCLE then [Rounds(Lifecycle(0), 4), Rounds(Lifecycle(1), 4), Rounds(Lifecycle(2), 4)]
    else []
  }

  /** The demo profiles trace 50, 228 and 32 events. */
  lemma ProfileTotals(profile: nat, used: nat)
    requires profile == ATTACK || profile == SYSLOAD || profile == LIFECYCLE
    ensures var ws := ProfileScripts(profile, used);
            |ws| < MAX_TASKS && AllQuiet(ws) &&
            TotalEvents(ws) == (if profile == ATTACK then 50 else if profile == SYSLOAD then 228 else 32)
  {
    hide Rounds, Says, Turns, SumOf, LongestTurns, Quiet, TotalEvents;
    RoundsCounts(Attack, 16);
    forall slot: nat | slot < 3
      ensures var s := Rounds(Sysload(slot, used), 32); Says(s) == 32 && Turns(s) == 33 && Quiet(s)
      ensures var s := Rounds(Lifecycle(slot), 4); Says(s) == 4 && Turns(s) == 5 && Quiet(s)
    {
      RoundsCounts(Sysload(slot, used), 32);
      RoundsCounts(Lifecycle(slot), 4);
    }
    UniformTotal(ProfileScripts(profile, used), if profile == ATTACK then 16 else if profile == SYSLOAD then 32 else 4);
  }

  /** So every demo profile, once recorded, replays. */
  lemma ProfilesReplay(k: Kernel, profile: nat, used: nat, ls: seq<Label>, j: Kernel, ls': seq<Label>)
    requires profile == ATTACK || profile == SYSLOAD || profile == LIFECYCLE
    requires Quiescent(k) && !k.trace.replay.active && Quiescent(j) && j.tasks[0] == k.tasks[0]
    requires Run(RecordStart(k, profile, ProfileScripts(profile, used)), ls).finished
    ensures var r := Run(RecordStart(k, profile, ProfileScripts(profile, used)), ls);
            var p := Run(ReplayStart(j, r.kernel.trace.log, r.kernel.trace.startTicks, ProfileScripts(profile, used)), ls');
            !p.wild && !p.kernel.trace.replay.failed && (p.finished ==> Succeeded(p.kernel.trace.replay)) &&
            (CpuCount(ls') >= CpuCount(ls) ==> p.finished)
  {
    hide Run, RecordStart, ReplayStart, ProfileScripts, Quiescent;
    ProfileTotals(profile, used);
    DeterministicReplay(k, profile, ProfileScripts(profile, used), ls, j, ls');
  }
}
