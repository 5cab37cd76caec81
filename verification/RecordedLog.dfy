/** What a recording contains, event by event: ids, times and contents, and what the clock of its replay shows. For
    workers that trace one event a round (kernel/workload.c), the whole log in closed form. */
module RecordedLog {
  import opened Events
  import opened Trace
  import opened Sched
  import opened Replay
  import opened Workload

  // ---- Any workload ----

  /** A recording traces an event at every step while events remain. */
  lemma {:induction false} TracesWhile(m: Machine, q: nat)
    requires RecordsWell(m) && !m.finished && q < Remaining(m)
    ensures Traces(m, q)
    decreases q
  {
    Busy(m);
    if q > 0 {
      StepCounts(m, Cpu);
      StepStored(m);
      TracesUnfold(m, q);
      hide CpuStep, Remaining, NextMove, Traces, RecordsWell;
      TracesWhile(CpuStep(m), q - 1);
    }
  }

  lemma TracesUnfold(m: Machine, q: nat)
    requires SaneMachine(m) && q > 0
    ensures Traces(CpuStep(m), q - 1) ==> Traces(m, q)
  {
    hide CpuStep, NextMove;
  }

  lemma Busy(m: Machine)
    requires RecordsWell(m) && !m.finished && Remaining(m) > 0
    ensures !NextMove(m).Halt? && Traces(m, 0)
  {
    LiveFromWitness(m.kernel.tasks, 1);
    if m.active == 0 {
      NoneLiveNothingLeft(m.kernel.tasks, m.scripts, m.kernel.current, 1);
    }
    SuccessorExists(m);
  }

  lemma StepStored(m: Machine)
    requires RecordsWell(m) && !m.finished && !NextMove(m).Halt?
    ensures RecordsWell(CpuStep(m)) && !CpuStep(m).finished && Emitted(CpuStep(m)) == Emitted(m) + 1
  {
    RecordStep(m, Cpu);
    MoveSigQuiet(m);
    hide CpuStep, NextMove, HopTasks;
  }

  lemma RecordingTraces(k: Kernel, profile: nat, ws: seq<Script>, q: nat)
    requires Quiescent(k) && |ws| < MAX_TASKS && profile != PROFILE_NONE && AllQuiet(ws) && !k.trace.replay.active
    requires q < TotalEvents(ws)
    ensures var m := RecordStart(k, profile, ws);
            RecordsWell(m) && TracesUpTo(m, q) && m.kernel.trace.log == [] && m.kernel.ticks == k.ticks &&
            m.kernel.trace.nextEventId == k.trace.nextEventId && m.kernel.trace.dropped == k.trace.dropped
  {
    StartId(k, profile, ws);
    hide RecordStart, TotalEvents, Remaining, CpuStep, Traces, RecordsWell, Quiescent, Launched, Cpus;
    var m := RecordStart(k, profile, ws);
    RecordStartGood(k, profile, ws);
    StartTicks(k, profile, ws);
    forall i: nat | i <= q
      ensures Traces(m, i)
    {
      TracesWhile(m, i);
    }
  }

  /** Event number `q` of a recording: the next id but `q`, the clock of the step that traced it, and what that step
      does, which interrupts do not influence. */
  lemma RecordedEvent(k: Kernel, profile: nat, ws: seq<Script>, ls: seq<Label>, q: nat)
    requires Quiescent(k) && |ws| < MAX_TASKS && profile != PROFILE_NONE && AllQuiet(ws) && !k.trace.replay.active
    requires CpuCount(ls) > TotalEvents(ws) && q < TotalEvents(ws) && q < BUFFER_CAP
    ensures var m := RecordStart(k, profile, ws);
            var log := Run(m, ls).kernel.trace.log;
            RecordsWell(Cpus(m, q)) && Traces(m, q) && |log| > q &&
            log[q] == EventOf(k.trace.nextEventId + q, k.ticks + IrqsBefore(ls, q), MoveSig(Cpus(m, q)))
  {
    hide RecordStart, TotalEvents, CpuStep, Traces, TracesUpTo, RecordsWell, Quiescent, Cpus, EventStored, Run, MoveSig;
    QuiescentSane(k);
    RecordingTraces(k, profile, ws, q);
    var m := RecordStart(k, profile, ws);
    StoredEvent(m, ls, q);
    FromStored(m, ls, q);
  }

  lemma ReadyNow(r: Machine, p: Machine, ls: seq<Label>, n: nat)
    requires RecordsWell(r) && Follows(r, p) && 0 < n <= CpuCount(ls) && TracesUpTo(r, n - 1)
    requires Run(r, ls).kernel.trace.log == p.kernel.trace.replay.log
    requires Run(r, ls).kernel.trace.dropped == r.kernel.trace.dropped
    ensures ClockReady(r, p, ls, n)
  {
  }

  lemma Shown(q: Machine, log: seq<Event>, i: nat)
    requires ShowsTime(q, log, i)
    ensures q.kernel.trace.replay.active && i < |log| && PitTicks(q.kernel.trace, q.kernel.ticks) == log[i].timestamp
  {
  }

  lemma QuiescentSane(k: Kernel)
    requires Quiescent(k)
    ensures Sane(k)
  {
  }

  lemma FromStored(m: Machine, ls: seq<Label>, q: nat)
    requires SaneMachine(m) && EventStored(m, ls, q) && m.kernel.trace.log == []
    ensures RecordsWell(Cpus(m, q)) && Traces(m, q)
    ensures var log := Run(m, ls).kernel.trace.log;
            |log| > q && log[q] == EventOf(m.kernel.trace.nextEventId + q, m.kernel.ticks + IrqsBefore(ls, q), MoveSig(Cpus(m, q)))
  {
    hide CpuStep, NextMove;
  }

  lemma StartId(k: Kernel, profile: nat, ws: seq<Script>)
    requires Quiescent(k) && |ws| < MAX_TASKS && profile != PROFILE_NONE && AllQuiet(ws) && !k.trace.replay.active
    ensures RecordStart(k, profile, ws).kernel.trace.nextEventId == k.trace.nextEventId
    ensures SaneMachine(RecordStart(k, profile, ws)) && Sane(k)
  {
    StartLaunches(k, StartProfile(k.trace, profile, k.ticks), ws);
  }

  lemma {:induction false} LaunchTicks(m: Machine, ws: seq<Script>)
    requires SaneMachine(m)
    ensures Launch(m, ws).kernel.ticks == m.kernel.ticks
    decreases |ws|
  {
    if |ws| > 0 {
      var slot := FreeSlotFrom(m.kernel.tasks, 1);
      var (pid, k) := Spawn(m.kernel);
      assert k.ticks == m.kernel.ticks;
      hide Spawn, FreeSlotFrom;
      LaunchTicks(m.(active := m.active + 1, kernel := k,
                     scripts := if pid >= 0 && slot >= 0 then m.scripts[slot := ws[0]] else m.scripts), ws[1..]);
    }
  }

  lemma StartTicks(k: Kernel, profile: nat, ws: seq<Script>)
    requires Sane(k)
    ensures RecordStart(k, profile, ws).kernel.ticks == k.ticks
  {
    LaunchTicks(Machine(Prepare(k).(trace := StartProfile(k.trace, profile, k.ticks)), seq(MAX_TASKS, _ => []), 0, false, false), ws);
  }

  /** The clock of `q` shows the time of entry `i` of its log. */
  ghost predicate ShowsTime(q: Machine, log: seq<Event>, i: nat)
  {
    var x := q.kernel.trace;
    i < |log| && x.replay.active && x.replay.virtualTicks == log[i].timestamp
  }

  lemma ClockStep(r: Machine, p: Machine)
    requires RecordsWell(r) && Follows(r, p) && Traces(r, 0) && CpuStep(r).kernel.trace.log <= p.kernel.trace.replay.log
    requires CpuStep(r).kernel.trace.dropped == r.kernel.trace.dropped
    ensures Follows(CpuStep(r), CpuStep(p)) && CpuStep(p).kernel.trace.replay.log == p.kernel.trace.replay.log
    ensures |CpuStep(r).kernel.trace.log| == |r.kernel.trace.log| + 1
    ensures ShowsTime(CpuStep(p), p.kernel.trace.replay.log, |r.kernel.trace.log|)
  {
    StepGrows(r);
    FollowStep(r, p);
    hide CpuStep, RecordsWell, SameShape;
  }

  lemma FollowsSane(r: Machine, p: Machine)
    requires RecordsWell(r) && Follows(r, p)
    ensures SaneMachine(r) && SaneMachine(p)
  {
  }

  /** `p` follows `r`, whose run `ls` stores the log of `p` and traces an event at each of its first `n` steps. */
  ghost predicate ClockReady(r: Machine, p: Machine, ls: seq<Label>, n: nat)
  {
    RecordsWell(r) && Follows(r, p) && 0 < n <= CpuCount(ls) && TracesUpTo(r, n - 1) &&
    Run(r, ls).kernel.trace.log == p.kernel.trace.replay.log && Run(r, ls).kernel.trace.dropped == r.kernel.trace.dropped
  }

  lemma IrqReady(r: Machine, p: Machine, ls: seq<Label>, n: nat)
    requires ClockReady(r, p, ls, n) && ls[0] == Irq
    ensures ClockReady(Step(r, Irq), p, ls[1..], n) && Step(r, Irq).kernel.trace == r.kernel.trace
  {
    FollowsSane(r, p);
    IrqTraces(r, n - 1);
    IrqFollows(r, p);
    RunUnfolds(r, ls);
    hide CpuStep, RecordsWell, TracesUpTo, Follows, Tick, Run;
  }

  lemma CpuReady(r: Machine, p: Machine, ls: seq<Label>, n: nat)
    requires ClockReady(r, p, ls, n) && ls[0] == Cpu
    ensures SaneMachine(r) && SaneMachine(p)
    ensures ShowsTime(CpuStep(p), p.kernel.trace.replay.log, |r.kernel.trace.log|)
    ensures CpuStep(p).kernel.trace.replay.log == p.kernel.trace.replay.log
    ensures |CpuStep(r).kernel.trace.log| == |r.kernel.trace.log| + 1
    ensures n > 1 ==> ClockReady(CpuStep(r), CpuStep(p), ls[1..], n - 1)
  {
    FollowsSane(r, p);
    hide CpuStep, RecordsWell, TracesUpTo, Follows, Run, ShowsTime, Traces, Moves;
    RunUnfolds(r, ls);
    RecordStep(r, Cpu);
    RecordRun(CpuStep(r), ls[1..]);
    StepTraces(r, n - 1);
    ClockStep(r, p);
  }

  lemma ReadyNonEmpty(r: Machine, p: Machine, ls: seq<Label>, n: nat)
    requires ClockReady(r, p, ls, n)
    ensures n > 0 && |ls| > 0 && SaneMachine(r) && SaneMachine(p)
  {
    FollowsSane(r, p);
  }

  /** After `n` replayed steps the clock shows the time of the last event that the recording had then stored. */
  lemma {:induction false} ClockAt(r: Machine, p: Machine, ls: seq<Label>, n: nat)
    requires ClockReady(r, p, ls, n)
    ensures SaneMachine(p) && ShowsTime(Cpus(p, n), p.kernel.trace.replay.log, |r.kernel.trace.log| + n - 1)
    decreases |ls|
  {
    hide ClockReady, ShowsTime, CpuStep, Tick;
    ReadyNonEmpty(r, p, ls, n);
    if ls[0] == Irq {
      IrqReady(r, p, ls, n);
      ClockAt(Step(r, Irq), p, ls[1..], n);
    } else {
      CpuReady(r, p, ls, n);
      if n > 1 {
        ClockAt(CpuStep(r), CpuStep(p), ls[1..], n - 1);
      }
    }
  }

  lemma IrqFollows(r: Machine, p: Machine)
    requires RecordsWell(r) && Follows(r, p)
    ensures Follows(Step(r, Irq), p) && Step(r, Irq).kernel.trace == r.kernel.trace
  {
    IrqOnlyTicks(r);
  }

  lemma RunUnfolds(m: Machine, ls: seq<Label>)
    requires SaneMachine(m) && |ls| > 0
    ensures Run(m, ls) == Run(Step(m, ls[0]), ls[1..])
  {
  }

  lemma StepGrows(r: Machine)
    requires RecordsWell(r) && Traces(r, 0) && CpuStep(r).kernel.trace.dropped == r.kernel.trace.dropped
    ensures |CpuStep(r).kernel.trace.log| == |r.kernel.trace.log| + 1
  {
    StepStored(r);
  }

  /** Virtual time during a replay: after step `q` it is the time at which the recording traced event `q`, whatever the
      hardware clock shows. */
  lemma ReplayClock(k: Kernel, profile: nat, ws: seq<Script>, ls: seq<Label>, j: Kernel, q: nat)
    requires Quiescent(k) && |ws| < MAX_TASKS && profile != PROFILE_NONE && AllQuiet(ws) && !k.trace.replay.active
    requires Quiescent(j) && j.tasks[0] == k.tasks[0] && TotalEvents(ws) <= BUFFER_CAP
    requires CpuCount(ls) > TotalEvents(ws) > q
    ensures var t := Run(RecordStart(k, profile, ws), ls).kernel.trace;
            var p := Cpus(ReplayStart(j, t.log, t.startTicks, ws), q + 1).kernel;
            p.trace.replay.active && PitTicks(p.trace, p.ticks) == k.ticks + IrqsBefore(ls, q)
  {
    hide RecordStart, ReplayStart, TotalEvents, CpuStep, Traces, TracesUpTo, RecordsWell, Follows, Run, Cpus, Quiescent;
    hide MoveSig, AllQuiet, ShowsTime, ClockReady;
    QuiescentSane(k);
    QuiescentSane(j);
    var m := RecordStart(k, profile, ws);
    var t := Run(m, ls).kernel.trace;
    RecordingTerminates(k, profile, ws, ls);
    RecordedLength(k, profile, ws, ls);
    ReplayStartFollows(k, profile, ws, j, t.log, t.startTicks);
    RecordedEvent(k, profile, ws, ls, q);
    RecordingTraces(k, profile, ws, q);
    var p := ReplayStart(j, t.log, t.startTicks, ws);
    ReadyNow(m, p, ls, q + 1);
    ClockAt(m, p, ls, q + 1);
    Shown(Cpus(p, q + 1), t.log, q);
  }
}
