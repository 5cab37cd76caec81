/** What a finished demo leaves behind (kernel/shell.c). After a recording, and after a replay that does not fail,
    the scheduler is quiescent again, so that either can be followed by another one; a replay that fails stops
    with whatever workers are then alive. */
module Afterwards {
  import Events
  import opened Trace
  import opened Aspace
  import opened Sched
  import opened Replay
  import opened Workload
  import Lifecycle
  import Memory

  /** Every live worker shares the shell's address space, each with a reference of its own, and the shell
      keeps its identity; a machine that has finished is back in the shell. */
  ghost predicate Housed(m: Machine, shell: Task)
  {
    SaneMachine(m) && shell.state == Running && m.kernel.tasks[0].(state := Running) == shell &&
    (forall i :: 0 <= i < MAX_TASKS && Live(m.kernel.tasks[i]) ==> m.kernel.tasks[i].aspaceId == shell.aspaceId) &&
    SharedKernelSpace(m.kernel, LiveFrom(m.kernel.tasks, 1)) && (m.finished ==> m.kernel.current == 0)
  }

  /** And no worker is left when it has finished. */
  ghost predicate Homed(m: Machine, shell: Task)
  {
    Housed(m, shell) && (m.finished ==> m.active == 0)
  }

  lemma LaunchedHomed(m: Machine, shell: Task, t: TraceState, ws: seq<Script>)
    requires Launched(m, shell, t, ws) && shell.state == Running
    ensures Homed(m, shell)
  {
    LaunchedCounts(m, shell, t, ws, 1);
    forall i | 0 <= i < MAX_TASKS && Live(m.kernel.tasks[i])
      ensures m.kernel.tasks[i].aspaceId == shell.aspaceId
    {
      assert i == 0 || 1 <= i <= |ws| || |ws| < i;
    }
  }

  /** Giving back one of several references keeps the space. */
  lemma ReleaseShared(k: Kernel, n: nat)
    requires Sane(k) && SharedKernelSpace(k, n + 1)
    ensures SharedKernelSpace(k.(spaces := Release(k.spaces, k.tasks[0].aspaceId)), n)
  {
    var id := k.tasks[0].aspaceId;
    FindSame(k.spaces.slots, Release(k.spaces, id).slots, id, 0);
  }

  /** Only an exit touches the address spaces. */
  lemma StepSpaces(m: Machine)
    requires SaneMachine(m)
    ensures var c := m.kernel.current;
            CpuStep(m).kernel.spaces ==
            if !m.finished && !m.wild && c != 0 && |m.scripts[c]| == 0
            then Release(m.kernel.spaces, m.kernel.tasks[c].aspaceId) else m.kernel.spaces
  {
  }

  lemma HousedHop(m: Machine, r: Machine, shell: Task, n: nat)
    requires Good(m) && !m.finished && Housed(m, shell) && Moves(m, r) && SaneMachine(r) && NextMove(m) == Hop(n)
    requires var c := m.kernel.current;
             r.kernel.spaces == if c != 0 && |m.scripts[c]| == 0
                                then Release(m.kernel.spaces, m.kernel.tasks[c].aspaceId) else m.kernel.spaces
    ensures Housed(r, shell)
  {
    var c := m.kernel.current;
    LiveFromUpdate(m.kernel.tasks, r.kernel.tasks, c, 1);
    if c != 0 && |m.scripts[c]| == 0 {
      ReleaseShared(m.kernel, LiveFrom(r.kernel.tasks, 1));
    }
  }

  lemma HousedStep(m: Machine, shell: Task)
    requires Good(m) && Unforced(m) && Housed(m, shell)
    ensures Housed(CpuStep(m), shell) && Good(CpuStep(m))
    ensures !m.finished && CpuStep(m).finished ==> CpuStep(m).active == 0
  {
    if !m.finished {
      StepMoves(m);
      StepSpaces(m);
      MovesKeepGood(m, CpuStep(m));
      hide CpuStep;
      match NextMove(m) {
        case Talk(_) =>
        case Hop(n) => HousedHop(m, CpuStep(m), shell, n);
        case Halt =>
          if m.kernel.current != 0 || !(m.active == 0 && NextReady(m.kernel) < 0) {
            SuccessorExists(m);
          }
      }
    }
  }

  lemma HomedStep(m: Machine, shell: Task)
    requires Good(m) && Unforced(m) && Homed(m, shell)
    ensures Homed(CpuStep(m), shell)
  {
    HousedStep(m, shell);
    if m.finished {
      FinishedStays(m, 1);
    }
  }

  lemma HomedTick(m: Machine, shell: Task)
    requires Homed(m, shell)
    ensures Homed(Step(m, Irq), shell)
  {
  }

  lemma {:induction false} HomedRun(m: Machine, shell: Task, ls: seq<Label>)
    requires RecordsWell(m) && Homed(m, shell)
    ensures Homed(Run(m, ls), shell)
    decreases |ls|
  {
    if |ls| > 0 {
      RecordStep(m, ls[0]);
      if ls[0] == Irq {
        HomedTick(m, shell);
      } else {
        assert Unforced(m);
        HomedStep(m, shell);
      }
      hide CpuStep, Homed, RecordsWell;
      HomedRun(Step(m, ls[0]), shell, ls[1..]);
    }
  }

  lemma FollowerUnforced(r: Machine, p: Machine)
    requires RecordsWell(r) && Follows(r, p) && CpuStep(r).kernel.trace.log <= p.kernel.trace.replay.log
    requires CpuStep(r).kernel.trace.dropped == r.kernel.trace.dropped && !r.finished
    ensures Good(p) && Unforced(p)
  {
    RecordStep(r, Cpu);
    if NextMove(r).Hop? {
      LogForcesRoundRobin(r, p);
    }
  }

  lemma {:induction false} HomedReplay(r: Machine, p: Machine, shell: Task, ls: seq<Label>)
    requires RecordsWell(r) && Follows(r, p) && Homed(p, shell)
    requires Run(r, ls).kernel.trace.log == p.kernel.trace.replay.log
    requires Run(r, ls).kernel.trace.dropped == r.kernel.trace.dropped
    ensures Homed(Cpus(p, CpuCount(ls)), shell)
    decreases |ls|
  {
    hide CpuStep, RecordsWell, Moves, Homed;
    RecordRun(r, ls);
    if |ls| > 0 {
      var r1 := Step(r, ls[0]);
      RecordStep(r, ls[0]);
      RecordRun(r1, ls[1..]);
      if ls[0] == Irq {
        HomedReplay(r1, p, shell, ls[1..]);
      } else {
        FollowStep(r, p);
        FollowerHomed(r, p, shell);
        HomedReplay(r1, CpuStep(p), shell, ls[1..]);
      }
    }
  }

  lemma FollowerHomed(r: Machine, p: Machine, shell: Task)
    requires RecordsWell(r) && Follows(r, p) && CpuStep(r).kernel.trace.log <= p.kernel.trace.replay.log
    requires CpuStep(r).kernel.trace.dropped == r.kernel.trace.dropped && Homed(p, shell)
    ensures Homed(CpuStep(p), shell)
  {
    if !p.finished {
      FollowerUnforced(r, p);
      hide CpuStep;
      HomedStep(p, shell);
    }
  }

  /** A machine that has finished is quiescent exactly if no worker is left. */
  lemma FinishedQuiescent(m: Machine, shell: Task)
    requires Good(m) && Housed(m, shell) && m.finished && shell.used && shell.pid == 1
    ensures m.kernel.tasks[0] == shell && (Quiescent(m.kernel) <==> m.active == 0)
  {
    LiveFromWitness(m.kernel.tasks, 1);
    if m.active > 0 {
      var j :| 1 <= j < MAX_TASKS && Live(m.kernel.tasks[j]);
    }
  }

  /** A replay that has run past its log keeps its workers housed, and stops at the shell's turn. */
  lemma {:induction false} OverrunHoused(p: Machine, shell: Task, n: nat)
    requires Overrun(p) && Good(p) && Housed(p, shell)
    ensures Good(Cpus(p, n)) && Housed(Cpus(p, n), shell)
    decreases n
  {
    if n > 0 {
      OverrunStays(p);
      if p.finished || p.kernel.current == 0 {
        ShellStops(p, shell);
      } else {
        assert Unforced(p);
        HousedStep(p, shell);
      }
      hide CpuStep, Overrun, Good, Housed;
      OverrunHoused(CpuStep(p), shell, n - 1);
    }
  }

  lemma ShellStops(p: Machine, shell: Task)
    requires Good(p) && Housed(p, shell) && (p.finished || p.kernel.current == 0)
    requires p.kernel.trace.replay.active && p.kernel.trace.replay.failed
    ensures Good(CpuStep(p)) && Housed(CpuStep(p), shell) && CpuStep(p).finished
  {
    hide NextReady;
  }

  /** At every step of a replay, also when the recording was too long for the buffer. */
  lemma {:induction false} HousedReplay(r: Machine, p: Machine, shell: Task, ls: seq<Label>, n: nat)
    requires RecordsWell(r) && Follows(r, p) && Good(p) && Housed(p, shell) && n <= CpuCount(ls)
    requires Run(r, ls).kernel.trace.log == p.kernel.trace.replay.log
    ensures Good(Cpus(p, n)) && Housed(Cpus(p, n), shell)
    decreases |ls|
  {
    hide CpuStep, RecordsWell, Moves, Housed, Overrun;
    RecordRun(r, ls);
    if n > 0 {
      var r1 := Step(r, ls[0]);
      RecordStep(r, ls[0]);
      RecordRun(r1, ls[1..]);
      if ls[0] == Irq {
        HousedReplay(r1, p, shell, ls[1..], n);
      } else if r1.kernel.trace.dropped == r.kernel.trace.dropped {
        FollowStep(r, p);
        FollowerHoused(r, p, shell);
        HousedReplay(r1, CpuStep(p), shell, ls[1..], n - 1);
      } else {
        OverrunStep(r, p);
        OverrunsHoused(r, p, shell);
        OverrunHoused(CpuStep(p), shell, n - 1);
      }
    }
  }

  lemma FollowerHoused(r: Machine, p: Machine, shell: Task)
    requires RecordsWell(r) && Follows(r, p) && CpuStep(r).kernel.trace.log <= p.kernel.trace.replay.log
    requires CpuStep(r).kernel.trace.dropped == r.kernel.trace.dropped && Good(p) && Housed(p, shell)
    ensures Good(CpuStep(p)) && Housed(CpuStep(p), shell)
  {
    if p.finished {
      FinishedStays(p, 1);
    } else {
      FollowerUnforced(r, p);
      hide CpuStep;
      HousedStep(p, shell);
    }
  }

  lemma OverrunsHoused(r: Machine, p: Machine, shell: Task)
    requires RecordsWell(r) && Follows(r, p) && |p.kernel.trace.replay.log| <= BUFFER_CAP
    requires CpuStep(r).kernel.trace.log <= p.kernel.trace.replay.log
    requires CpuStep(r).kernel.trace.dropped > r.kernel.trace.dropped && Good(p) && Housed(p, shell)
    ensures Good(CpuStep(p)) && Housed(CpuStep(p), shell)
  {
    RecordStep(r, Cpu);
    assert ForcedNext(p.kernel.trace) == NotForced;
    assert Unforced(p);
    hide CpuStep;
    HousedStep(p, shell);
  }

  /** What any finished replay of a recording leaves: the shell, unchanged, and a quiescent kernel if and only if
      no worker is left; none is if the recording fits the buffer. */
  lemma ReplayLeaves(k: Kernel, profile: nat, ws: seq<Script>, ls: seq<Label>, j: Kernel, ls': seq<Label>)
    requires Quiescent(k) && |ws| < MAX_TASKS && profile != PROFILE_NONE && AllQuiet(ws) && !k.trace.replay.active
    requires Quiescent(j) && j.tasks[0] == k.tasks[0] && Run(RecordStart(k, profile, ws), ls).finished
    requires var t := Run(RecordStart(k, profile, ws), ls).kernel.trace;
             Run(ReplayStart(j, t.log, t.startTicks, ws), ls').finished
    ensures var t := Run(RecordStart(k, profile, ws), ls).kernel.trace;
            var p := Run(ReplayStart(j, t.log, t.startTicks, ws), ls');
            p.kernel.tasks[0] == k.tasks[0] && (Quiescent(p.kernel) <==> p.active == 0) &&
            (TotalEvents(ws) <= BUFFER_CAP ==> p.active == 0)
  {
    hide RecordStart, ReplayStart, TotalEvents, Cpus, Run, SharedKernelSpace, AllQuiet, Recording, Housed, Homed;
    var m, shell := RecordStart(k, profile, ws), k.tasks[0];
    var t := Run(m, ls).kernel.trace;
    var p0 := ReplayStart(j, t.log, t.startTicks, ws);
    RecordStartGood(k, profile, ws);
    ReplayStartFollows(k, profile, ws, j, t.log, t.startTicks);
    ReplayHomed(j, t.log, t.startTicks, ws);
    HomedHoused(p0, shell);
    ShapeGood(m, p0);
    DeterministicReplay(k, profile, ws, ls, j, ls');
    DeterministicReplay(k, profile, ws, ls, j, ls);
    ReplayIgnoresIrqs(p0, ls');
    ReplayIgnoresIrqs(p0, ls);
    var n, n' := CpuCount(ls), CpuCount(ls');
    var last := if n' >= n then n else n';
    if n' >= n {
      CpusAdd(p0, n, n' - n);
      FinishedStays(Cpus(p0, n), n' - n);
    }
    HousedReplay(m, p0, shell, ls, last);
    FinishedQuiescent(Cpus(p0, last), shell);
    if TotalEvents(ws) <= BUFFER_CAP {
      ReplayLeavesQuiescent(k, profile, ws, ls, j, ls');
    }
  }

  lemma HomedHoused(m: Machine, shell: Task)
    requires Homed(m, shell)
    ensures Housed(m, shell)
  {
  }

  /** A finished recording leaves the scheduler as quiescent as it was, with the same shell. */
  lemma RecordingLeavesQuiescent(k: Kernel, profile: nat, ws: seq<Script>, ls: seq<Label>)
    requires Quiescent(k) && |ws| < MAX_TASKS && profile != PROFILE_NONE && AllQuiet(ws) && !k.trace.replay.active
    requires Run(RecordStart(k, profile, ws), ls).finished
    ensures var r := Run(RecordStart(k, profile, ws), ls);
            Quiescent(r.kernel) && r.kernel.tasks[0] == k.tasks[0]
  {
    var m := RecordStart(k, profile, ws);
    RecordStartGood(k, profile, ws);
    LaunchedHomed(m, k.tasks[0], StartProfile(k.trace, profile, k.ticks), ws);
    HomedRun(m, k.tasks[0], ls);
    RecordRun(m, ls);
    HomedDone(Run(m, ls), k.tasks[0]);
  }

  lemma HomedDone(m: Machine, shell: Task)
    requires Good(m) && Homed(m, shell) && m.finished && shell.used && shell.pid == 1
    ensures Quiescent(m.kernel) && m.kernel.tasks[0] == shell
  {
    FinishedQuiescent(m, shell);
  }

  /** And so does a finished replay of a recording that fits the buffer. */
  lemma ReplayLeavesQuiescent(k: Kernel, profile: nat, ws: seq<Script>, ls: seq<Label>, j: Kernel, ls': seq<Label>)
    requires Quiescent(k) && |ws| < MAX_TASKS && profile != PROFILE_NONE && AllQuiet(ws) && !k.trace.replay.active
    requires Quiescent(j) && j.tasks[0] == k.tasks[0] && TotalEvents(ws) <= BUFFER_CAP
    requires Run(RecordStart(k, profile, ws), ls).finished
    requires var t := Run(RecordStart(k, profile, ws), ls).kernel.trace;
             Run(ReplayStart(j, t.log, t.startTicks, ws), ls').finished
    ensures var t := Run(RecordStart(k, profile, ws), ls).kernel.trace;
            var p := Run(ReplayStart(j, t.log, t.startTicks, ws), ls');
            Quiescent(p.kernel) && p.kernel.tasks[0] == k.tasks[0]
  {
    hide RecordStart, ReplayStart, TotalEvents, Cpus, Run, SharedKernelSpace, AllQuiet, Recording, Homed;
    var m, shell := RecordStart(k, profile, ws), k.tasks[0];
    var t := Run(m, ls).kernel.trace;
    var p0 := ReplayStart(j, t.log, t.startTicks, ws);
    RecordStartGood(k, profile, ws);
    RecordedLength(k, profile, ws, ls);
    ReplayStartFollows(k, profile, ws, j, t.log, t.startTicks);
    ReplayHomed(j, t.log, t.startTicks, ws);
    FollowRun(m, p0, ls);
    HomedReplay(m, p0, shell, ls);
    RecordRun(m, ls);
    ReplayIgnoresIrqs(p0, ls');
    var n, n' := CpuCount(ls), CpuCount(ls');
    if n' >= n {
      CpusAdd(p0, n, n' - n);
      FinishedStays(Cpus(p0, n), n' - n);
    } else {
      CpusAdd(p0, n', n - n');
      FinishedStays(Cpus(p0, n'), n - n');
    }
    ShapeGood(Run(m, ls), Cpus(p0, n));
    HomedDone(Cpus(p0, n), shell);
  }

  lemma ReplayHomed(j: Kernel, log: seq<Events.Event>, start: nat, ws: seq<Script>)
    requires Quiescent(j) && |ws| < MAX_TASKS
    ensures Homed(ReplayStart(j, log, start, ws), j.tasks[0])
  {
    var t := j.trace.(replay := Begin(log, start), nextEventId := 1);
    assert Prepare(j.(trace := t)) == Prepare(j).(trace := t);
    StartLaunches(j, t, ws);
    LaunchedHomed(ReplayStart(j, log, start, ws), j.tasks[0], t, ws);
  }

  lemma ShapeGood(r: Machine, p: Machine)
    requires Good(r) && SameShape(r, p) && SaneMachine(p)
    ensures Good(p)
  {
  }

  /** The booted kernel is quiescent. */
  lemma BootQuiescent(m: Memory.Mem, cr3: nat)
    ensures var k := Lifecycle.Boot(m, cr3).kernel; Quiescent(k) && !k.trace.replay.active && !k.trace.recording
  {
    var k := Lifecycle.Boot(m, cr3).kernel;
    Lifecycle.BootAccounted(m, cr3);
    assert Names(k.spaces.slots[0], 1);
  }

  /** "demo record", then "demo replay" of what it recorded, on the same kernel: the replay succeeds, and
      leaves a kernel on which both can be done again. */
  lemma RecordThenReplay(k: Kernel, profile: nat, ws: seq<Script>, ls: seq<Label>, ls': seq<Label>)
    requires Quiescent(k) && |ws| < MAX_TASKS && profile != PROFILE_NONE && AllQuiet(ws) && !k.trace.replay.active
    requires TotalEvents(ws) <= BUFFER_CAP && CpuCount(ls') >= CpuCount(ls) > TotalEvents(ws)
    ensures var r := Run(RecordStart(k, profile, ws), ls).kernel;
            var j := r.(trace := r.trace.(recording := false));
            var p := Run(ReplayStart(j, r.trace.log, r.trace.startTicks, ws), ls');
            p.finished && Succeeded(p.kernel.trace.replay) && Quiescent(p.kernel) && p.kernel.tasks[0] == k.tasks[0]
  {
    hide Run, RecordStart, ReplayStart, AllQuiet, TotalEvents;
    RecordingTerminates(k, profile, ws, ls);
    RecordingLeavesQuiescent(k, profile, ws, ls);
    var r := Run(RecordStart(k, profile, ws), ls).kernel;
    var j := r.(trace := r.trace.(recording := false));
    DeterministicReplay(k, profile, ws, ls, j, ls');
    ReplayLeavesQuiescent(k, profile, ws, ls, j, ls');
  }

  /** One worker with more rounds than the buffer holds: the replay of its recording ends, and has failed. */
  lemma TooManyRounds(k: Kernel, n: nat, ls: seq<Label>)
    requires Quiescent(k) && !k.trace.replay.active && CpuCount(ls) > 3 * n + 2 > BUFFER_CAP
    ensures var r := Run(RecordStart(k, ATTACK, [Rounds(Attack, n)]), ls).kernel;
            var p := Run(ReplayStart(r, r.trace.log, r.trace.startTicks, [Rounds(Attack, n)]), ls);
            p.finished && !Succeeded(p.kernel.trace.replay)
  {
    var ws := [Rounds(Attack, n)];
    RoundsCounts(Attack, n);
    UniformTotal(ws, n);
    hide *;
    RecordingTerminates(k, ATTACK, ws, ls);
    RecordingLeavesQuiescent(k, ATTACK, ws, ls);
    DeterministicReplay(k, ATTACK, ws, ls, Run(RecordStart(k, ATTACK, ws), ls).kernel, ls);
  }

  /** 1365 rounds are enough, from boot. */
  lemma TooLongFails(m: Memory.Mem, cr3: nat, ls: seq<Label>)
    requires CpuCount(ls) > 4097
    ensures var k, n := Lifecycle.Boot(m, cr3).kernel, 1365;
            var r := Run(RecordStart(k, ATTACK, [Rounds(Attack, n)]), ls).kernel;
            var p := Run(ReplayStart(r, r.trace.log, r.trace.startTicks, [Rounds(Attack, n)]), ls);
            p.finished && !Succeeded(p.kernel.trace.replay)
  {
    BootQuiescent(m, cr3);
    hide Lifecycle.Boot, Run, RecordStart, ReplayStart, Rounds, Quiescent;
    TooManyRounds(Lifecycle.Boot(m, cr3).kernel, 1365, ls);
  }
}
