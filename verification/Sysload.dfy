/** Replaying a sysload session (kernel/workload.c). Its events have the type of scheduler events and carry
    memory_used_bytes where a switch carries its target, so when the memory in use has changed the replay
    does not only diverge: it then takes the recorded number of bytes for a slot. */
module Sysload {
  import opened Bytes
  import opened Events
  import opened Trace
  import opened Aspace
  import opened Sched
  import opened Replay
  import opened Workload
  import opened RecordedLog
  import opened RoundLog
  import Afterwards
  import Memory

  // ---- The opening of a session ----

  /** The opening of any workload with a worker that talks first: the shell hands over to it. */
  lemma Opening(m: Machine, shell: Task, t: TraceState, ws: seq<Script>)
    requires Launched(m, shell, t, ws) && |ws| > 0 && shell.used && shell.pid == 1 && shell.state == Running
    ensures Good(m) && NextMove(m) == Hop(1) && MoveSig(m) == Sig(2, SCHED, 0, 1)
  {
    LaunchedCounts(m, shell, t, ws, 1);
    assert IsReady(m.kernel.tasks[1]);
  }

  /** The recorder's first two events of a sysload session. */
  lemma SysloadOpening(k: Kernel, used: nat, ls: seq<Label>)
    requires Quiescent(k) && !k.trace.replay.active
    requires Run(RecordStart(k, SYSLOAD, ProfileScripts(SYSLOAD, used)), ls).finished
    ensures var log := Run(RecordStart(k, SYSLOAD, ProfileScripts(SYSLOAD, used)), ls).kernel.trace.log;
            |log| >= 2 && SigOf(log[0]) == Sig(2, SCHED, 0, 1) && SigOf(log[1]) == Sig(2, SCHED, 0, used)
  {
    hide RecordStart, Run, ProfileScripts, Quiescent, Rounds, Scripts, TotalEvents, AllQuiet;
    var ws := [Worker.Sysload(0, used), Worker.Sysload(1, used), Worker.Sysload(2, used)];
    QuiescentSane(k);
    ProfileTotals(SYSLOAD, used);
    RecordingTerminates(k, SYSLOAD, ProfileScripts(SYSLOAD, used), ls);
    ProfileIsRounds(SYSLOAD, used);
    LogInClosedForm(k, SYSLOAD, ws, 32, ls, 0, 0);
    LogInClosedForm(k, SYSLOAD, ws, 32, ls, 0, 1);
  }

  lemma SysloadLaunch(j: Kernel, log: seq<Event>, start: nat, used: nat)
    requires Quiescent(j)
    ensures var ws := ProfileScripts(SYSLOAD, used);
            |ws| == 3 && ws[0] == Rounds(Sysload(0, used), 32) &&
            Launched(ReplayStart(j, log, start, ws), j.tasks[0],
                     j.trace.(replay := Begin(log, start), nextEventId := 1), ws)
  {
    var t := j.trace.(replay := Begin(log, start), nextEventId := 1);
    assert Prepare(j.(trace := t)) == Prepare(j).(trace := t);
    StartLaunches(j, t, ProfileScripts(SYSLOAD, used));
  }

  // ---- After a mismatch ----

  /** The scripts say nothing that matches an event with `used` in it. */
  ghost predicate OtherValues(ss: seq<Script>, used: nat)
  {
    forall i, k :: 0 <= i < |ss| && 0 <= k < |ss[i]| && ss[i][k].Say? ==> ss[i][k].data1 != used
  }

  /** A replay that has failed at the first worker's first event: the cursor stands on that event. */
  ghost predicate Stuck(p: Machine, used: nat)
  {
    SaneMachine(p) && OtherValues(p.scripts, used) &&
    var x := p.kernel.trace.replay;
    x.active && x.failed && x.index == 1 && |x.log| >= 2 && SigOf(x.log[1]) == Sig(2, SCHED, 0, used)
  }

  /** The step is a yield by a worker. */
  predicate Yields(p: Machine)
    requires SaneMachine(p)
  {
    var c := p.kernel.current;
    !p.finished && !p.wild && c != 0 && |p.scripts[c]| > 0 && p.scripts[c][0] == Pause
  }

  lemma ShorterScript(ss: seq<Script>, c: nat, used: nat)
    requires OtherValues(ss, used) && c < |ss| && |ss[c]| > 0
    ensures OtherValues(ss[c := ss[c][1..]], used)
  {
    var rs: seq<Script> := ss[c := ss[c][1..]];
    forall i: int, k: int | 0 <= i < |rs| && 0 <= k < |rs[i]| && rs[i][k].Say?
      ensures rs[i][k].data1 != used
    {
      assert rs[i][k] == ss[i][if i == c then k + 1 else k];
    }
  }

  /** The cursor never moves again, and the table is left exactly when a worker yields and the recorded
      number, as an int, is no slot. */
  lemma StuckStep(p: Machine, used: nat)
    requires Stuck(p, used)
    ensures Stuck(CpuStep(p), used)
    ensures CpuStep(p).wild <==> p.wild || (Yields(p) && AsInt(used) >= MAX_TASKS)
  {
    var c := p.kernel.current;
    hide AsInt, NextReady, OtherValues;
    if c != 0 && |p.scripts[c]| > 0 {
      ShorterScript(p.scripts, c, used);
      if p.scripts[c][0].Say? {
        SaysOther(p.scripts, used, c);
      }
    }
  }

  lemma SaysOther(ss: seq<Script>, used: nat, c: nat)
    requires OtherValues(ss, used) && c < |ss| && |ss[c]| > 0 && ss[c][0].Say?
    ensures ss[c][0].data1 != used
  {
  }

  lemma StuckSane(p: Machine, used: nat)
    requires Stuck(p, used)
    ensures SaneMachine(p)
  {
  }

  lemma {:induction false} StuckForever(p: Machine, used: nat, n: nat)
    requires Stuck(p, used)
    ensures Stuck(Cpus(p, n), used)
    ensures AsInt(used) < MAX_TASKS ==> Cpus(p, n).wild == p.wild
    decreases n
  {
    hide CpuStep, Stuck, AsInt;
    if n > 0 {
      StuckStep(p, used);
      StuckSane(p, used);
      FirstCpu(p, n);
      StuckForever(CpuStep(p), used, n - 1);
    }
  }

  lemma {:induction false} WildStays(p: Machine, n: nat)
    requires SaneMachine(p) && p.wild
    ensures Cpus(p, n) == p
    decreases n
  {
    if n > 0 {
      WildStays(p, n - 1);
    }
  }

  // ---- When the recorded number is not positive, the replay ends ----

  /** What the live workers in slots `i`, `i + 1`, ... have left: their scripts, and one exit each. */
  function LeftFrom(ts: seq<Task>, ss: seq<Script>, i: nat): nat
    requires |ts| == |ss|
    decreases |ts| - i
  {
    if i >= |ts| then 0 else (if Live(ts[i]) then |ss[i]| + 1 else 0) + LeftFrom(ts, ss, i + 1)
  }

  /** An upper bound on the steps to the end, when yields lead nowhere or to the shell. */
  function StepsLeft(p: Machine): nat
    requires SaneMachine(p)
  {
    if p.finished then 0 else if p.kernel.current == 0 then 1 else LeftFrom(p.kernel.tasks, p.scripts, 1) + 1
  }

  lemma {:induction false} LeftUpdate(ts: seq<Task>, ss: seq<Script>, us: seq<Task>, rs: seq<Script>, c: nat, i: nat)
    requires |ts| == |ss| == |us| == |rs| && c < |ts|
    requires forall j :: 0 <= j < |ts| && j != c ==> (Live(ts[j]) <==> Live(us[j])) && ss[j] == rs[j]
    ensures LeftFrom(us, rs, i) == LeftFrom(ts, ss, i) +
              (if i <= c then (if Live(us[c]) then |rs[c]| + 1 else 0) - (if Live(ts[c]) then |ss[c]| + 1 else 0) else 0)
    decreases |ts| - i
  {
    if i < |ts| {
      LeftUpdate(ts, ss, us, rs, c, i + 1);
    }
  }

  lemma StuckExit(p: Machine, used: nat)
    requires Stuck(p, used) && Good(p) && !p.finished && p.kernel.current != 0 && |p.scripts[p.kernel.current]| == 0
    ensures Good(CpuStep(p)) && StepsLeft(CpuStep(p)) < StepsLeft(p)
  {
    assert Unforced(p);
    StepMoves(p);
    MovesKeepGood(p, CpuStep(p));
    SuccessorExists(p);
    hide CpuStep;
    LeftUpdate(p.kernel.tasks, p.scripts, CpuStep(p).kernel.tasks, CpuStep(p).scripts, p.kernel.current, 1);
  }

  lemma StuckTurn(p: Machine, used: nat)
    requires Stuck(p, used) && Good(p) && !p.finished && p.kernel.current != 0 && |p.scripts[p.kernel.current]| > 0
    requires AsInt(used) <= 0
    ensures Good(CpuStep(p)) && StepsLeft(CpuStep(p)) < StepsLeft(p)
  {
    var c, r := p.kernel.current, CpuStep(p);
    hide AsInt, NextReady, OtherValues;
    LeftUpdate(p.kernel.tasks, p.scripts, r.kernel.tasks, r.scripts, c, 1);
    LiveFromUpdate(p.kernel.tasks, r.kernel.tasks, c, 1);
  }

  lemma {:induction false} StuckEnds(p: Machine, used: nat, n: nat)
    requires Stuck(p, used) && Good(p) && AsInt(used) <= 0 && n >= StepsLeft(p)
    ensures Cpus(p, n).finished
    decreases n
  {
    if p.finished {
      FinishedStays(p, n);
    } else {
      StuckStep(p, used);
      if p.kernel.current == 0 {
        assert CpuStep(p).finished && Good(CpuStep(p));
      } else if |p.scripts[p.kernel.current]| == 0 {
        StuckExit(p, used);
      } else {
        StuckTurn(p, used);
      }
      hide CpuStep, Stuck, Good, AsInt;
      StuckEnds(CpuStep(p), used, n - 1);
    }
  }

  // ---- What it then leaves ----

  /** No worker is alive in the slots before the running one; at the shell's turn, none at all. */
  ghost predicate Drained(p: Machine)
    requires SaneMachine(p)
  {
    forall i :: 0 < i < MAX_TASKS && (p.kernel.current == 0 || i < p.kernel.current) ==> !Live(p.kernel.tasks[i])
  }

  lemma StuckHoused(p: Machine, used: nat, shell: Task)
    requires Stuck(p, used) && Good(p) && Afterwards.Housed(p, shell) && AsInt(used) <= 0
    ensures Good(CpuStep(p)) && Afterwards.Housed(CpuStep(p), shell)
  {
    if p.finished || p.kernel.current == 0 {
      Afterwards.ShellStops(p, shell);
    } else if |p.scripts[p.kernel.current]| == 0 {
      assert Unforced(p);
      Afterwards.HousedStep(p, shell);
    } else {
      StuckTurn(p, used);
      LiveFromUpdate(p.kernel.tasks, CpuStep(p).kernel.tasks, p.kernel.current, 1);
      hide AsInt, NextReady, OtherValues;
    }
  }

  /** If yields lead nowhere, the workers run out in turn. */
  lemma DrainedStep(p: Machine, used: nat)
    requires Stuck(p, used) && Good(p) && Drained(p) && AsInt(used) < 0
    ensures Drained(CpuStep(p))
  {
    var c := p.kernel.current;
    if !p.finished && c != 0 && |p.scripts[c]| == 0 {
      assert Unforced(p);
      StepMoves(p);
      SuccessorExists(p);
      hide CpuStep;
      var n := NextReady(p.kernel);
      forall i | 0 < i < MAX_TASKS && (n == 0 || i < n)
        ensures !Live(CpuStep(p).kernel.tasks[i])
      {
        if i > c {
          assert !IsReady(p.kernel.tasks[i]);
        }
      }
    } else {
      hide AsInt, NextReady, OtherValues;
    }
  }

  lemma {:induction false} StuckLeaves(p: Machine, used: nat, shell: Task, n: nat)
    requires Stuck(p, used) && Good(p) && Afterwards.Housed(p, shell) && AsInt(used) <= 0
    ensures Good(Cpus(p, n)) && Afterwards.Housed(Cpus(p, n), shell)
    ensures AsInt(used) < 0 && Drained(p) ==> Drained(Cpus(p, n))
    decreases n
  {
    if n > 0 {
      StuckStep(p, used);
      StuckHoused(p, used, shell);
      if AsInt(used) < 0 && Drained(p) {
        DrainedStep(p, used);
      }
      hide CpuStep, Stuck, Good, AsInt, Afterwards.Housed, Drained;
      StuckLeaves(CpuStep(p), used, shell, n - 1);
    }
  }

  lemma DrainedNoneLeft(p: Machine)
    requires Good(p) && Drained(p) && p.kernel.current == 0
    ensures p.active == 0
  {
    LiveFromWitness(p.kernel.tasks, 1);
  }

  /** If they lead to the shell, the shell stops at once, with every worker alive. */
  lemma ZeroStops(p: Machine, used: nat, n: nat)
    requires Stuck(p, used) && Good(p) && Yields(p) && AsInt(used) == 0
    ensures var q := Cpus(p, n);
            (q.finished <==> n >= 2) && q.active == p.active &&
            forall i :: 0 <= i < MAX_TASKS ==>
              (Live(q.kernel.tasks[i]) <==> Live(p.kernel.tasks[i])) && q.kernel.tasks[i].pid == p.kernel.tasks[i].pid
  {
    var p1 := CpuStep(p);
    StuckStep(p, used);
    hide AsInt, NextReady, OtherValues;
    assert p1.kernel.current == 0 && !p1.finished && !p1.wild;
    var p2 := CpuStep(p1);
    assert p2 == p1.(finished := true);
    hide CpuStep;
    if n >= 2 {
      assert Cpus(p, n) == Cpus(p2, n - 2);
      FinishedStays(p2, n - 2);
    } else {
      assert n == 1 ==> Cpus(p, n) == p1;
    }
  }

  // ---- The replay of a session ----

  lemma {:induction false} RoundsValues(w: Worker, n: nat)
    requires w.Sysload?
    ensures |Rounds(w, n)| == 2 * n
    ensures forall k :: 0 <= k < 2 * n ==> Rounds(w, n)[k].Say? ==> Rounds(w, n)[k].data1 == w.used
    ensures n >= 1 ==> Rounds(w, n)[0] == Say(SCHED, w.slot * 1000, w.used) && Rounds(w, n)[1] == Pause
  {
    if n > 0 {
      RoundsValues(w, n - 1);
    }
  }

  /** Two steps into a replay whose first worker says something else than the log. */
  lemma Mismatch(p: Machine, shell: Task, t: TraceState, ws: seq<Script>, used: nat)
    requires Launched(p, shell, t, ws) && |ws| > 0 && shell.used && shell.pid == 1 && shell.state == Running
    requires t.replay.active && !t.replay.failed && t.replay.index == 0 && |t.replay.log| >= 2
    requires SigOf(t.replay.log[0]) == Sig(2, SCHED, 0, 1) && SigOf(t.replay.log[1]) == Sig(2, SCHED, 0, used)
    requires OtherValues(p.scripts, used) && |ws[0]| >= 2 && ws[0][0].Say? && ws[0][0].kind == SCHED && ws[0][1] == Pause
    ensures var p1, p2 := CpuStep(p), CpuStep(CpuStep(p));
            !p.wild && !p1.wild && !p1.finished && !p1.kernel.trace.replay.failed &&
            Stuck(p2, used) && Good(p2) && Yields(p2) && p2.kernel.current == 1 &&
            StepsLeft(p2) == LeftFrom(p.kernel.tasks, p.scripts, 1)
    ensures var p2 := CpuStep(CpuStep(p));
            p2.active == |ws| && Afterwards.Housed(p2, shell) &&
            forall i :: 0 < i < MAX_TASKS ==>
              (Live(p2.kernel.tasks[i]) <==> i <= |ws|) && (i <= |ws| ==> p2.kernel.tasks[i].pid == i + 1)
  {
    Afterwards.LaunchedHomed(p, shell, t, ws);
    var p1, p2 := CpuStep(p), CpuStep(CpuStep(p));
    Opening(p, shell, t, ws);
    assert Unforced(p);
    StepMoves(p);
    MovesKeepGood(p, p1);
    assert p1.scripts == p.scripts && p1.kernel.current == 1 && p1.kernel.trace.replay.index == 1;
    LeftUpdate(p.kernel.tasks, p.scripts, p1.kernel.tasks, p1.scripts, 1, 1);
    ShorterScript(p1.scripts, 1, used);
    SaysOther(p1.scripts, used, 1);
    assert p2.scripts == p1.scripts[1 := p1.scripts[1][1..]] && p2.kernel.tasks == p1.kernel.tasks;
    LeftUpdate(p1.kernel.tasks, p1.scripts, p2.kernel.tasks, p2.scripts, 1, 1);
    assert Unforced(p1);
    hide CpuStep;
    Afterwards.HousedStep(p, shell);
    Afterwards.HousedStep(p1, shell);
  }

  lemma SysloadScripts(m: Machine, shell: Task, t: TraceState, used: nat, other: nat)
    requires Launched(m, shell, t, ProfileScripts(SYSLOAD, used)) && used != other && shell.pid == 1
    ensures OtherValues(m.scripts, other) && LeftFrom(m.kernel.tasks, m.scripts, 1) == 195
    ensures var w := m.scripts[1]; |w| >= 2 && w[0] == Say(SCHED, 0, used) && w[1] == Pause
  {
    RoundsValues(Sysload(0, used), 32);
    RoundsValues(Sysload(1, used), 32);
    RoundsValues(Sysload(2, used), 32);
    hide Rounds;
    var ts, ss := m.kernel.tasks, m.scripts;
    assert LeftFrom(ts, ss, 8) == 0 && LeftFrom(ts, ss, 7) == 0 && LeftFrom(ts, ss, 6) == 0;
    assert LeftFrom(ts, ss, 5) == 0 && LeftFrom(ts, ss, 4) == 0;
    assert LeftFrom(ts, ss, 3) == 65 && LeftFrom(ts, ss, 2) == 130;
  }

  /** The failing replay step by step: it fails at the second step; at the third it leaves the table exactly
      when the recorded number, as an int, is no slot; if that number is not positive, it ends. */
  lemma SysloadDiverges(j: Kernel, log: seq<Event>, start: nat, used: nat, used': nat, n: nat)
    requires Quiescent(j) && |log| >= 2 && used != used'
    requires SigOf(log[0]) == Sig(2, SCHED, 0, 1) && SigOf(log[1]) == Sig(2, SCHED, 0, used)
    ensures var p := Cpus(ReplayStart(j, log, start, ProfileScripts(SYSLOAD, used')), n);
            (p.kernel.trace.replay.failed <==> n >= 2) &&
            (p.wild <==> n >= 3 && AsInt(used) >= MAX_TASKS) &&
            (p.wild ==> !p.finished) &&
            (AsInt(used) < 0 && n >= 197 ==> p.finished) &&
            (AsInt(used) == 0 ==> (p.finished <==> n >= 4))
  {
    assert Sane(j);
    hide *;
    var p := ReplayStart(j, log, start, ProfileScripts(SYSLOAD, used'));
    SysloadMismatch(j, log, start, used, used');
    Diverged(p, used, j.tasks[0], n);
  }

  lemma SysloadMismatch(j: Kernel, log: seq<Event>, start: nat, used: nat, used': nat)
    requires Quiescent(j) && |log| >= 2 && used != used'
    requires SigOf(log[0]) == Sig(2, SCHED, 0, 1) && SigOf(log[1]) == Sig(2, SCHED, 0, used)
    ensures FailsSecond(ReplayStart(j, log, start, ProfileScripts(SYSLOAD, used')), used, j.tasks[0])
  {
    hide ReplayStart, SharedKernelSpace, CpuStep, Stuck, Good, LeftFrom;
    var ws := ProfileScripts(SYSLOAD, used');
    var p := ReplayStart(j, log, start, ws);
    var t := j.trace.(replay := Begin(log, start), nextEventId := 1);
    SysloadLaunch(j, log, start, used');
    SysloadScripts(p, j.tasks[0], t, used', used);
    Mismatch(p, j.tasks[0], t, ws, used);
  }

  /** One step as recorded, then the mismatch, before a worker's yield. */
  ghost predicate FailsSecond(p: Machine, used: nat, shell: Task)
  {
    SaneMachine(p) &&
    var p1, p2 := CpuStep(p), CpuStep(CpuStep(p));
    !p.wild && !p.kernel.trace.replay.failed && !p1.wild && !p1.kernel.trace.replay.failed &&
    Stuck(p2, used) && Good(p2) && Yields(p2) && StepsLeft(p2) == 195 && !p.finished && !p1.finished &&
    Afterwards.Housed(p2, shell) && Drained(p2) && p2.active == 3 && ThreeWorkers(p2.kernel)
  }

  /** The workers of a sysload run, all alive. */
  ghost predicate ThreeWorkers(k: Kernel)
    requires Sane(k)
  {
    forall i :: 0 < i < MAX_TASKS ==> (Live(k.tasks[i]) <==> i <= 3) && (i <= 3 ==> k.tasks[i].pid == i + 1)
  }

  lemma Diverged(p0: Machine, used: nat, shell: Task, n: nat)
    requires FailsSecond(p0, used, shell)
    ensures var p := Cpus(p0, n);
            (p.kernel.trace.replay.failed <==> n >= 2) &&
            (p.wild <==> n >= 3 && AsInt(used) >= MAX_TASKS) &&
            (p.wild ==> !p.finished) &&
            (AsInt(used) < 0 && n >= 197 ==> p.finished) &&
            (AsInt(used) == 0 ==> (p.finished <==> n >= 4))
  {
    hide CpuStep, Stuck, Good, AsInt, StepsLeft;
    var p, p2 := p0, CpuStep(CpuStep(p0));
    if n >= 2 {
      assert Cpus(p, n) == Cpus(p2, n - 2);
      StuckForever(p2, used, n - 2);
      FailedIfStuck(Cpus(p2, n - 2), used);
      StuckStep(p2, used);
      if n >= 3 && AsInt(used) >= MAX_TASKS {
        assert Cpus(p2, n - 2) == Cpus(CpuStep(p2), n - 3);
        WildStays(CpuStep(p2), n - 3);
        StillRunning(p2);
      }
      if AsInt(used) == 0 {
        ZeroStops(p2, used, n - 2);
      } else if AsInt(used) < 0 && n >= 197 {
        StuckEnds(p2, used, n - 2);
      }
    } else {
      assert n == 1 ==> Cpus(p, n) == CpuStep(p);
    }
  }

  /** What a failing replay leaves once it has finished. */
  lemma DivergedLeaves(p0: Machine, used: nat, shell: Task, n: nat)
    requires FailsSecond(p0, used, shell) && AsInt(used) <= 0 && shell.used && shell.pid == 1 && Cpus(p0, n).finished
    ensures var p := Cpus(p0, n);
            p.kernel.tasks[0] == shell && (Quiescent(p.kernel) <==> AsInt(used) < 0) &&
            Good(p) && Afterwards.Housed(p, shell) &&
            (AsInt(used) == 0 ==> n >= 4 && p.active == 3 && ThreeWorkers(p.kernel))
  {
    hide CpuStep, Stuck, AsInt, StepsLeft;
    var p2 := CpuStep(CpuStep(p0));
    if n < 2 {
      NotYet(p0, used, shell, n);
    }
    assert Cpus(p0, n) == Cpus(p2, n - 2);
    StuckLeaves(p2, used, shell, n - 2);
    var p := Cpus(p2, n - 2);
    if AsInt(used) < 0 {
      DrainedNoneLeft(p);
    } else {
      ZeroStops(p2, used, n - 2);
    }
    Afterwards.FinishedQuiescent(p, shell);
  }

  lemma NotYet(p0: Machine, used: nat, shell: Task, n: nat)
    requires FailsSecond(p0, used, shell) && n < 2
    ensures !Cpus(p0, n).finished
  {
    hide CpuStep;
    assert n == 1 ==> Cpus(p0, n) == CpuStep(p0);
  }

  lemma FailedIfStuck(p: Machine, used: nat)
    requires Stuck(p, used)
    ensures p.kernel.trace.replay.failed
  {
  }

  lemma StillRunning(p: Machine)
    requires SaneMachine(p) && Yields(p)
    ensures !CpuStep(p).finished
  {
  }

  /** The replay of a sysload session that was recorded with `used` bytes in use, when `used'` are. It fails
      exactly if these differ. If so, and if the low half of `used` is a positive int of 8 or more, the third
      step switches to that slot, outside the table; if it is 0, the fourth step ends the replay; if it is negative, the
      replay ends when the workers have run out. */
  lemma SysloadReplay(k: Kernel, used: nat, ls: seq<Label>, j: Kernel, used': nat, ls': seq<Label>)
    requires Quiescent(k) && !k.trace.replay.active && Quiescent(j) && j.tasks[0] == k.tasks[0]
    requires Run(RecordStart(k, SYSLOAD, ProfileScripts(SYSLOAD, used)), ls).finished
    ensures var t := Run(RecordStart(k, SYSLOAD, ProfileScripts(SYSLOAD, used)), ls).kernel.trace;
            var p := Run(ReplayStart(j, t.log, t.startTicks, ProfileScripts(SYSLOAD, used')), ls');
            (CpuCount(ls') >= 2 ==> (p.kernel.trace.replay.failed <==> used != used')) &&
            (p.wild <==> used != used' && AsInt(used) >= MAX_TASKS && CpuCount(ls') >= 3) &&
            (CpuCount(ls') >= CpuCount(ls) ==>
               (used == used' ==> p.finished && Succeeded(p.kernel.trace.replay)) &&
               (used != used' && AsInt(used) >= MAX_TASKS ==> !p.finished) &&
               (used != used' && AsInt(used) < 0 ==> p.finished)) &&
            (used != used' && AsInt(used) == 0 ==> (p.finished <==> CpuCount(ls') >= 4))
  {
    hide ProfileScripts, RecordStart, ReplayStart, Run, SharedKernelSpace, AsInt;
    var ws := ProfileScripts(SYSLOAD, used);
    var t := Run(RecordStart(k, SYSLOAD, ws), ls).kernel.trace;
    ProfileTotals(SYSLOAD, used);
    if used == used' {
      ProfilesReplay(k, SYSLOAD, used, ls, j, ls');
    } else {
      ProfileTotals(SYSLOAD, used');
      SysloadOpening(k, used, ls);
      RecordingTerminates(k, SYSLOAD, ws, ls);
      SysloadDiverges(j, t.log, t.startTicks, used, used', CpuCount(ls'));
      ReplayActive(j, t.log, t.startTicks, ProfileScripts(SYSLOAD, used'));
      ReplayIgnoresIrqs(ReplayStart(j, t.log, t.startTicks, ProfileScripts(SYSLOAD, used')), ls');
    }
  }

  /** What a sysload replay leaves that has failed and finished: a quiescent kernel exactly if the recorded number is
      negative as an int. If it is 0, all three workers are still alive, and counted as active. */
  lemma SysloadLeaves(k: Kernel, used: nat, ls: seq<Label>, j: Kernel, used': nat, ls': seq<Label>)
    requires Quiescent(k) && !k.trace.replay.active && Quiescent(j) && j.tasks[0] == k.tasks[0]
    requires Run(RecordStart(k, SYSLOAD, ProfileScripts(SYSLOAD, used)), ls).finished && used != used' && AsInt(used) <= 0
    requires var t := Run(RecordStart(k, SYSLOAD, ProfileScripts(SYSLOAD, used)), ls).kernel.trace;
             Run(ReplayStart(j, t.log, t.startTicks, ProfileScripts(SYSLOAD, used')), ls').finished
    ensures var t := Run(RecordStart(k, SYSLOAD, ProfileScripts(SYSLOAD, used)), ls).kernel.trace;
            var p := Run(ReplayStart(j, t.log, t.startTicks, ProfileScripts(SYSLOAD, used')), ls');
            p.kernel.tasks[0] == k.tasks[0] && (Quiescent(p.kernel) <==> AsInt(used) < 0) &&
            Good(p) && Afterwards.Housed(p, k.tasks[0]) &&
            (AsInt(used) == 0 ==> p.active == 3 && ThreeWorkers(p.kernel))
  {
    var ws, shell := ProfileScripts(SYSLOAD, used), k.tasks[0];
    assert shell.used && shell.pid == 1;
    hide ProfileScripts, RecordStart, ReplayStart, Run, SharedKernelSpace, AsInt, Good, Afterwards.Housed, ThreeWorkers;
    var t := Run(RecordStart(k, SYSLOAD, ws), ls).kernel.trace;
    var p0 := ReplayStart(j, t.log, t.startTicks, ProfileScripts(SYSLOAD, used'));
    ProfileTotals(SYSLOAD, used');
    SysloadOpening(k, used, ls);
    SysloadMismatch(j, t.log, t.startTicks, used, used');
    ReplayActive(j, t.log, t.startTicks, ProfileScripts(SYSLOAD, used'));
    ReplayIgnoresIrqs(p0, ls');
    hide FailsSecond, Quiescent;
    DivergedLeaves(p0, used, shell, CpuCount(ls'));
  }

  /** The state that the next demo then starts from: its first worker gets the pid of one that is still alive. */
  lemma NextDemoDuplicatesPid(p: Machine, shell: Task)
    requires Good(p) && Afterwards.Housed(p, shell) && p.finished && ThreeWorkers(p.kernel)
    ensures var k := Prepare(p.kernel.(trace := p.kernel.trace.(replay := p.kernel.trace.replay.(active := false))));
            var (pid, k') := Spawn(k);
            pid == 2 && Live(k'.tasks[1]) && Live(k'.tasks[4]) && k'.tasks[1].pid == k'.tasks[4].pid == 2
  {
    var k := Prepare(p.kernel.(trace := p.kernel.trace.(replay := p.kernel.trace.replay.(active := false))));
    assert k.tasks[0] == p.kernel.tasks[0] && k.tasks[1] == p.kernel.tasks[1];
    assert forall i :: 1 <= i <= 3 ==> Live(k.tasks[i]);
    assert !Live(k.tasks[4]);
    assert FreeSlotFrom(k.tasks, 1) == 4 by {
      assert Live(k.tasks[1]) && Live(k.tasks[2]) && Live(k.tasks[3]);
    }
    hide FreeSlotFrom, Prepare;
    RefsOfSpawn(k.spaces, shell.aspaceId);
  }

  lemma ReplayActive(j: Kernel, log: seq<Event>, start: nat, ws: seq<Script>)
    requires Quiescent(j) && |ws| < MAX_TASKS
    ensures ReplayStart(j, log, start, ws).kernel.trace.replay.active
  {
    var t := j.trace.(replay := Begin(log, start), nextEventId := 1);
    assert Prepare(j.(trace := t)) == Prepare(j).(trace := t);
    StartLaunches(j, t, ws);
  }

  /** Memory is used in whole pages, so one of the two cases of a failing replay always applies. */
  lemma WholePages(used: nat)
    requires used % Memory.PAGE == 0
    ensures AsInt(used) % Memory.PAGE == 0 && (AsInt(used) <= 0 || AsInt(used) >= MAX_TASKS)
  {
    var q, p := used / TWO_32, used / Memory.PAGE;
    assert used % TWO_32 == (p - 0x10_0000 * q) * Memory.PAGE;
    WholeMultiple(p - 0x10_0000 * q);
    WholeMultiple(p - 0x10_0000 * q - 0x10_0000);
  }

  lemma WholeMultiple(n: int)
    ensures n * Memory.PAGE % Memory.PAGE == 0 && (n * Memory.PAGE <= 0 || n * Memory.PAGE >= MAX_TASKS)
  {
  }
}
