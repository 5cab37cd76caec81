/** Recording and replaying a workload: the kernel as a step machine over tasks that are finite
    scripts (kernel/workload.c), driven by the shell's loop (kernel/shell.c). */
module Replay {
  import opened Events
  import opened Trace
  import opened Aspace
  import opened Sched

  /** One step of a worker: trace an event for itself, or call sched_yield. */
  datatype Instr = Say(kind: nat, data0: nat, data1: nat) | Pause

  type Script = seq<Instr>

  /** What counting down from 0 makes of the 32-bit counter of active workloads. */
  const ALL_ONES: nat := 0xffff_ffff

  /** `scripts[i]` is what the worker in slot `i` has left to do; slot 0 is the shell, which loops in
      run_workloads_until_idle until `finished`. `wild` is set when a log forces a slot outside the table. */
  datatype Machine = Machine(kernel: Kernel, scripts: seq<Script>, active: nat, finished: bool, wild: bool)

  predicate SaneMachine(m: Machine)
  {
    Sane(m.kernel) && |m.scripts| == MAX_TASKS
  }

  /** The loop of run_workloads_until_idle ends: nothing to run, or the replay has failed. */
  predicate Stops(m: Machine)
    requires SaneMachine(m)
  {
    (m.active == 0 && NextReady(m.kernel) < 0) || (m.kernel.trace.replay.active && m.kernel.trace.replay.failed)
  }

  function YieldStep(m: Machine): (r: Machine)
    requires SaneMachine(m)
    ensures SaneMachine(r)
  {
    if YieldTarget(m.kernel) >= MAX_TASKS then m.(wild := true) else m.(kernel := Yield(m.kernel))
  }

  /** The running task's next step. A worker at the end of its script counts itself out and exits. */
  function CpuStep(m: Machine): (r: Machine)
    requires SaneMachine(m)
    ensures SaneMachine(r)
  {
    var c := m.kernel.current;
    if m.finished || m.wild then m
    else if c == 0 then
      if Stops(m) then m.(finished := true) else YieldStep(m)
    else if |m.scripts[c]| == 0 then
      m.(active := if m.active > 0 then m.active - 1 else ALL_ONES, kernel := Exit(m.kernel))
    else
      var m1 := m.(scripts := m.scripts[c := m.scripts[c][1..]]);
      match m.scripts[c][0]
      case Say(kind, d0, d1) => m1.(kernel := Emit(m.kernel, kind, d0, d1))
      case Pause => YieldStep(m1)
  }

  /** Timer interrupts may come between any two steps. */
  datatype Label = Cpu | Irq

  function Step(m: Machine, l: Label): (r: Machine)
    requires SaneMachine(m)
    ensures SaneMachine(r)
  {
    match l
    case Cpu => CpuStep(m)
    case Irq => m.(kernel := Tick(m.kernel))
  }

  function Run(m: Machine, ls: seq<Label>): (r: Machine)
    requires SaneMachine(m)
    ensures SaneMachine(r)
    decreases |ls|
  {
    if |ls| == 0 then m else Run(Step(m, ls[0]), ls[1..])
  }

  function CpuCount(ls: seq<Label>): nat
  {
    if |ls| == 0 then 0 else (if ls[0] == Cpu then 1 else 0) + CpuCount(ls[1..])
  }

  /** `n` steps without interrupts. */
  function Cpus(m: Machine, n: nat): (r: Machine)
    requires SaneMachine(m)
    ensures SaneMachine(r)
    decreases n
  {
    if n == 0 then m else Cpus(CpuStep(m), n - 1)
  }

  // ---- The shape of a run ----

  /** Workers still alive in slots `i`, `i + 1`, ... */
  function LiveFrom(tasks: seq<Task>, i: nat): nat
    decreases |tasks| - i
  {
    if i >= |tasks| then 0 else (if Live(tasks[i]) then 1 else 0) + LiveFrom(tasks, i + 1)
  }

  /** The shell and the workers: only the current task runs, the shell never exits, and
      `active` counts the workers alive. */
  ghost predicate Good(m: Machine)
  {
    SaneMachine(m) && !m.wild &&
    (forall i :: 0 <= i < MAX_TASKS ==> m.kernel.tasks[i] == EMPTY_TASK || Visible(m.kernel.tasks[i])) &&
    (forall i :: 0 <= i < MAX_TASKS ==> (m.kernel.tasks[i].state == Running <==> i == m.kernel.current)) &&
    Live(m.kernel.tasks[0]) &&
    m.active == LiveFrom(m.kernel.tasks, 1)
  }

  lemma {:induction false} LiveFromUpdate(ts: seq<Task>, us: seq<Task>, c: nat, i: nat)
    requires |ts| == |us| && c < |ts| && forall j :: 0 <= j < |ts| && j != c ==> (Live(ts[j]) <==> Live(us[j]))
    ensures LiveFrom(us, i) == LiveFrom(ts, i) +
              (if i <= c then (if Live(us[c]) then 1 else 0) - (if Live(ts[c]) then 1 else 0) else 0)
    decreases |ts| - i
  {
    if i < |ts| {
      LiveFromUpdate(ts, us, c, i + 1);
    }
  }

  lemma {:induction false} LiveFromWitness(ts: seq<Task>, i: nat)
    ensures LiveFrom(ts, i) > 0 ==> exists j :: i <= j < |ts| && Live(ts[j])
    ensures LiveFrom(ts, i) == 0 ==> forall j :: i <= j < |ts| ==> !Live(ts[j])
    decreases |ts| - i
  {
    if i < |ts| {
      LiveFromWitness(ts, i + 1);
    }
  }

  /** While anything is left to do, the task that runs always finds another one READY. */
  lemma SuccessorExists(m: Machine)
    requires Good(m) && (m.kernel.current != 0 || !(m.active == 0 && NextReady(m.kernel) < 0))
    ensures 0 <= NextReady(m.kernel) && NextReady(m.kernel) != m.kernel.current
    ensures m.kernel.current == 0 ==> m.active > 0
  {
    LiveFromWitness(m.kernel.tasks, 1);
    if m.kernel.current != 0 {
      assert IsReady(m.kernel.tasks[0]);
    } else if m.active > 0 {
      var j :| 1 <= j < MAX_TASKS && Live(m.kernel.tasks[j]);
      assert IsReady(m.kernel.tasks[j]);
    }
  }

  // ---- One step, free of interrupts and of replay ----

  /** What the next step does to the scheduler when no log forces anything. */
  datatype Move = Halt | Talk(sig: Sig) | Hop(next: nat)

  function NextMove(m: Machine): Move
    requires SaneMachine(m)
  {
    var c := m.kernel.current;
    if c == 0 then
      if m.active == 0 && NextReady(m.kernel) < 0 then Halt
      else if NextReady(m.kernel) >= 0 then Hop(NextReady(m.kernel)) else Halt
    else if |m.scripts[c]| > 0 && m.scripts[c][0].Say? then
      Talk(Sig(m.kernel.tasks[c].pid, m.scripts[c][0].kind, m.scripts[c][0].data0, m.scripts[c][0].data1))
    else if NextReady(m.kernel) >= 0 then Hop(NextReady(m.kernel)) else Halt
  }

  /** The event that a move traces. */
  function MoveSig(m: Machine): Sig
    requires SaneMachine(m) && !NextMove(m).Halt?
    requires NextMove(m).Hop? ==> NextMove(m).next < MAX_TASKS
  {
    match NextMove(m)
    case Talk(s) => s
    case Hop(n) => Sig(m.kernel.tasks[n].pid, SCHED, m.kernel.current, n)
  }

  function HopTasks(m: Machine, n: nat): seq<Task>
    requires SaneMachine(m) && n < MAX_TASKS
  {
    var c := m.kernel.current;
    var ts := m.kernel.tasks[c := m.kernel.tasks[c].(state := if c != 0 && |m.scripts[c]| == 0 then Zombie else Ready)];
    ts[n := ts[n].(state := Running)]
  }

  /** Everything about the machine but its recorder and its address spaces. */
  ghost predicate SameShape(a: Machine, b: Machine)
  {
    a.kernel.tasks == b.kernel.tasks && a.kernel.current == b.kernel.current &&
    a.scripts == b.scripts && a.active == b.active && a.finished == b.finished && a.wild == b.wild
  }

  /** The shape that a move leads to, and the one event that it traces. */
  ghost predicate Moves(m: Machine, r: Machine)
    requires SaneMachine(m)
  {
    match NextMove(m)
    case Halt =>
      SameShape(r, m.(finished := true)) && r.kernel.trace == m.kernel.trace
    case Talk(s) =>
      var c := m.kernel.current;
      SameShape(r, m.(scripts := m.scripts[c := m.scripts[c][1..]])) &&
      r.kernel.trace == Record(m.kernel.trace, s, m.kernel.ticks)
    case Hop(n) =>
      var c := m.kernel.current;
      n < MAX_TASKS && n != c &&
      r.kernel.tasks == HopTasks(m, n) && r.kernel.current == n && r.finished == m.finished && r.wild == m.wild &&
      r.scripts == (if c != 0 && |m.scripts[c]| > 0 then m.scripts[c := m.scripts[c][1..]] else m.scripts) &&
      r.active == (if c != 0 && |m.scripts[c]| == 0 && m.active > 0 then m.active - 1 else m.active) &&
      r.kernel.trace == Record(m.kernel.trace, MoveSig(m), m.kernel.ticks)
  }

  /** Zombies do not change what the scan finds: exit and yield pick the same successor. */
  lemma ScanIgnoresCurrent(ts: seq<Task>, us: seq<Task>, c: nat, i: nat)
    requires |ts| == |us| == MAX_TASKS && c < MAX_TASKS && 1 <= i <= MAX_TASKS + 1
    requires forall j :: 0 <= j < MAX_TASKS && j != c ==> ts[j] == us[j]
    requires !IsReady(ts[c]) && !IsReady(us[c])
    ensures Scan(ts, c, i) == Scan(us, c, i)
    decreases MAX_TASKS + 1 - i
  {
    if i <= MAX_TASKS {
      ScanIgnoresCurrent(ts, us, c, i + 1);
    }
  }

  /** Where the log, if one is being replayed, agrees with the round robin. */
  ghost predicate Unforced(m: Machine)
    requires SaneMachine(m)
  {
    var k := m.kernel;
    !(k.trace.replay.active && k.trace.replay.failed && k.current == 0) &&
    (ForcedNext(k.trace).Forced? && NextMove(m).Hop? && (k.current == 0 || |m.scripts[k.current]| > 0) ==>
       ForcedNext(k.trace).next == NextReady(k))
  }

  lemma StepMoves(m: Machine)
    requires Good(m) && !m.finished && Unforced(m)
    ensures Moves(m, CpuStep(m))
  {
    var c := m.kernel.current;
    if c != 0 || !(m.active == 0 && NextReady(m.kernel) < 0) {
      SuccessorExists(m);
    }
    LiveFromWitness(m.kernel.tasks, 1);
    if c != 0 && |m.scripts[c]| == 0 {
      ScanIgnoresCurrent(m.kernel.tasks, m.kernel.tasks[c := m.kernel.tasks[c].(state := Zombie)], c, 1);
    }
  }

  lemma MovesKeepGood(m: Machine, r: Machine)
    requires Good(m) && !m.finished && Moves(m, r) && SaneMachine(r)
    ensures Good(r)
  {
    var c := m.kernel.current;
    match NextMove(m) {
      case Halt =>
      case Talk(_) =>
      case Hop(n) =>
        LiveFromWitness(m.kernel.tasks, 1);
        LiveFromUpdate(m.kernel.tasks, r.kernel.tasks, c, 1);
    }
  }

  // ---- Recording ----

  ghost predicate Recording(t: TraceState)
  {
    t.recording && t.profile != PROFILE_NONE && !t.replay.active && |t.log| <= BUFFER_CAP
  }

  /** No script traces events of interrupt type. */
  predicate Quiet(s: Script)
  {
    forall i :: 0 <= i < |s| && s[i].Say? ==> s[i].kind != IRQ
  }

  predicate AllQuiet(ss: seq<Script>)
  {
    forall i :: 0 <= i < |ss| ==> Quiet(ss[i])
  }

  /** A machine that records: a good shape, a recorder that runs, and scripts that are recordable. */
  ghost predicate RecordsWell(m: Machine)
  {
    Good(m) && Recording(m.kernel.trace) && AllQuiet(m.scripts)
  }

  /** Events traced so far: stored, or counted as dropped. */
  function Emitted(m: Machine): nat
  {
    |m.kernel.trace.log| + m.kernel.trace.dropped
  }

  lemma RecordStep(m: Machine, l: Label)
    requires RecordsWell(m)
    ensures var r := Step(m, l);
            RecordsWell(r) && m.kernel.trace.log <= r.kernel.trace.log &&
            m.kernel.trace.dropped <= r.kernel.trace.dropped &&
            (m.kernel.trace.dropped < r.kernel.trace.dropped ==> |r.kernel.trace.log| == BUFFER_CAP)
    ensures l == Irq || m.finished ==>
              SameShape(m, Step(m, l)) && Step(m, l).kernel.trace == m.kernel.trace
    ensures l == Cpu && !m.finished ==> Moves(m, Step(m, l))
  {
    if l == Cpu && !m.finished {
      StepMoves(m);
      MovesKeepGood(m, CpuStep(m));
      QuietStep(m);
    }
  }

  lemma QuietStep(m: Machine)
    requires SaneMachine(m) && AllQuiet(m.scripts)
    ensures AllQuiet(CpuStep(m).scripts)
  {
    var c := m.kernel.current;
    if |m.scripts[c]| > 0 {
      assert Quiet(m.scripts[c][1..]);
    }
  }

  lemma {:induction false} RecordRun(m: Machine, ls: seq<Label>)
    requires RecordsWell(m)
    ensures var r := Run(m, ls);
            RecordsWell(r) && m.kernel.trace.log <= r.kernel.trace.log &&
            m.kernel.trace.dropped <= r.kernel.trace.dropped &&
            (m.kernel.trace.dropped < r.kernel.trace.dropped ==> |r.kernel.trace.log| == BUFFER_CAP)
    decreases |ls|
  {
    if |ls| > 0 {
      RecordStep(m, ls[0]);
      RecordRun(Step(m, ls[0]), ls[1..]);
    }
  }

  // ---- Every event of a recording ----

  /** The interrupts before step number `q` of the processor. */
  function IrqsBefore(ls: seq<Label>, q: nat): nat
  {
    if |ls| == 0 then 0
    else if ls[0] == Irq then 1 + IrqsBefore(ls[1..], q)
    else if q == 0 then 0
    else IrqsBefore(ls[1..], q - 1)
  }

  function EventOf(id: nat, ticks: nat, s: Sig): Event
  {
    Event(id, ticks, s.pid, s.kind, EVENT_BYTES, s.data0, s.data1)
  }

  lemma RecordStores(t: TraceState, s: Sig, ticks: nat)
    requires Recording(t) && s.kind != IRQ && |t.log| < BUFFER_CAP
    ensures var u := Record(t, s, ticks);
            u.log == t.log + [EventOf(t.nextEventId, ticks, s)] && u.nextEventId == t.nextEventId + 1 && u.dropped == t.dropped
  {
  }

  lemma ShapeStep(a: Machine, b: Machine)
    requires RecordsWell(a) && RecordsWell(b) && SameShape(a, b)
    ensures RecordsWell(CpuStep(a)) && RecordsWell(CpuStep(b)) && SameShape(CpuStep(a), CpuStep(b))
  {
    RecordStep(a, Cpu);
    RecordStep(b, Cpu);
    hide CpuStep;
    if !a.finished {
      SameMoves(a, b, CpuStep(a), CpuStep(b));
    }
  }

  /** Recording machines of the same shape go the same way. */
  lemma {:induction false} ShapeCpus(a: Machine, b: Machine, q: nat)
    requires RecordsWell(a) && RecordsWell(b) && SameShape(a, b)
    ensures RecordsWell(Cpus(a, q)) && RecordsWell(Cpus(b, q)) && SameShape(Cpus(a, q), Cpus(b, q))
    decreases q
  {
    hide *;
    RecordsSane(a);
    RecordsSane(b);
    if q > 0 {
      FirstCpu(a, q);
      FirstCpu(b, q);
      ShapeStep(a, b);
      ShapeCpus(CpuStep(a), CpuStep(b), q - 1);
    } else {
      NoCpu(a);
      NoCpu(b);
    }
  }

  lemma RecordsSane(m: Machine)
    requires RecordsWell(m)
    ensures SaneMachine(m)
  {
  }

  lemma FirstCpu(m: Machine, q: nat)
    requires SaneMachine(m) && q > 0
    ensures SaneMachine(CpuStep(m)) && Cpus(m, q) == Cpus(CpuStep(m), q - 1)
  {
    hide CpuStep;
  }

  lemma NoCpu(m: Machine)
    requires SaneMachine(m)
    ensures Cpus(m, 0) == m
  {
  }

  lemma ShapeSig(a: Machine, b: Machine)
    requires RecordsWell(a) && RecordsWell(b) && SameShape(a, b)
    ensures NextMove(a) == NextMove(b) && (!NextMove(a).Halt? ==> MoveSig(a) == MoveSig(b))
  {
  }

  /** The machine that has taken `q` steps is about to trace an event. */
  ghost predicate Traces(m: Machine, q: nat)
    requires SaneMachine(m)
  {
    !Cpus(m, q).finished && !NextMove(Cpus(m, q)).Halt?
  }

  /** Every step up to number `q` traces an event. */
  ghost predicate TracesUpTo(m: Machine, q: nat)
    requires SaneMachine(m)
  {
    forall i: nat :: i <= q ==> Traces(m, i)
  }

  lemma SameTraces(a: Machine, b: Machine, q: nat)
    requires RecordsWell(a) && RecordsWell(b) && SameShape(a, b) && Traces(a, q)
    ensures RecordsWell(Cpus(a, q)) && RecordsWell(Cpus(b, q)) && Traces(b, q)
    ensures MoveSig(Cpus(b, q)) == MoveSig(Cpus(a, q))
  {
    ShapeCpus(a, b, q);
    ShapeSig(Cpus(a, q), Cpus(b, q));
    hide CpuStep, Cpus, MoveSig, NextMove;
  }

  /** An interrupt changes nothing of this. */
  lemma IrqTraces(m: Machine, q: nat)
    requires RecordsWell(m) && TracesUpTo(m, q)
    ensures var i := Step(m, Irq);
            RecordsWell(i) && TracesUpTo(i, q) && RecordsWell(Cpus(m, q)) && Traces(m, q) && Traces(i, q) &&
            MoveSig(Cpus(i, q)) == MoveSig(Cpus(m, q))
  {
    hide CpuStep, Tick, NextMove, Cpus;
    var i := Step(m, Irq);
    IrqOnlyTicks(m);
    forall n: nat | n <= q
      ensures Traces(i, n)
    {
      assert Traces(m, n);
      SameTraces(m, i, n);
    }
    assert Traces(m, q);
    SameTraces(m, i, q);
  }

  lemma StepTraces(m: Machine, q: nat)
    requires RecordsWell(m) && TracesUpTo(m, q)
    ensures Traces(m, 0) && (q > 0 ==> TracesUpTo(CpuStep(m), q - 1))
  {
    assert Traces(m, 0);
    forall n: nat | n < q
      ensures Traces(CpuStep(m), n)
    {
      assert Traces(m, n + 1);
      hide CpuStep, NextMove;
    }
  }

  /** The event that a step stores. */
  lemma StepStores(m: Machine)
    requires RecordsWell(m) && Traces(m, 0) && |m.kernel.trace.log| < BUFFER_CAP
    ensures var t, u := m.kernel.trace, CpuStep(m).kernel.trace;
            RecordsWell(CpuStep(m)) && u.log == t.log + [EventOf(t.nextEventId, m.kernel.ticks, MoveSig(m))] &&
            u.nextEventId == t.nextEventId + 1 && CpuStep(m).kernel.ticks == m.kernel.ticks
  {
    RecordStep(m, Cpu);
    StepTicks(m);
    hide CpuStep, Record, NextMove;
    MoveSigQuiet(m);
    RecordStores(m.kernel.trace, MoveSig(m), m.kernel.ticks);
  }

  /** The `q`-th event after those in `t` is stored in `log` with the next id but `q`, this time and this content. */
  ghost predicate StoredAt(t: TraceState, log: seq<Event>, q: nat, ticks: nat, s: Sig)
  {
    |log| > |t.log| + q && log[|t.log| + q] == EventOf(t.nextEventId + q, ticks, s)
  }

  lemma StoredLater(t: TraceState, u: TraceState, e: Event, log: seq<Event>, q: nat, ticks: nat, s: Sig)
    requires u.log == t.log + [e] && u.nextEventId == t.nextEventId + 1
    ensures u.log <= log && e == EventOf(t.nextEventId, ticks, s) ==> StoredAt(t, log, 0, ticks, s)
    ensures StoredAt(u, log, q, ticks, s) ==> StoredAt(t, log, q + 1, ticks, s)
  {
  }

  /** Event number `q` of a recording carries the next id but `q`, the clock of the step that traced it, and what that
      step does, which interrupts do not influence. */
  ghost predicate EventStored(m: Machine, ls: seq<Label>, q: nat)
    requires SaneMachine(m)
  {
    RecordsWell(Cpus(m, q)) && Traces(m, q) &&
    StoredAt(m.kernel.trace, Run(m, ls).kernel.trace.log, q, m.kernel.ticks + IrqsBefore(ls, q), MoveSig(Cpus(m, q)))
  }

  lemma {:induction false} StoredEvent(m: Machine, ls: seq<Label>, q: nat)
    requires RecordsWell(m) && q < CpuCount(ls) && |m.kernel.trace.log| + q < BUFFER_CAP && TracesUpTo(m, q)
    ensures EventStored(m, ls, q)
    decreases |ls|
  {
    assert SaneMachine(m);
    hide RecordsWell, TracesUpTo, EventStored, CpuStep, Tick;
    var m1 := Step(m, ls[0]);
    if ls[0] == Irq {
      IrqOnlyTicks(m);
      IrqTraces(m, q);
      StoredEvent(m1, ls[1..], q);
      IrqStored(m, ls, q);
    } else {
      StepTraces(m, q);
      StepStores(m);
      if q > 0 {
        StoredEvent(m1, ls[1..], q - 1);
      }
      CpuStored(m, ls, q);
    }
  }

  lemma IrqStored(m: Machine, ls: seq<Label>, q: nat)
    requires RecordsWell(m) && TracesUpTo(m, q) && |ls| > 0 && ls[0] == Irq && EventStored(Step(m, Irq), ls[1..], q)
    ensures EventStored(m, ls, q)
  {
    IrqTraces(m, q);
    IrqOnlyTicks(m);
    hide CpuStep, RecordsWell, Traces, Tick, MoveSig, Cpus;
  }

  lemma CpuStored(m: Machine, ls: seq<Label>, q: nat)
    requires RecordsWell(m) && Traces(m, 0) && |ls| > 0 && ls[0] == Cpu && |m.kernel.trace.log| < BUFFER_CAP
    requires q > 0 ==> EventStored(CpuStep(m), ls[1..], q - 1)
    ensures EventStored(m, ls, q)
  {
    hide CpuStep, RecordsWell, NextMove, MoveSig, Run, Cpus, IrqsBefore, StoredAt, Traces, Good;
    RecordsSane(m);
    var m1 := CpuStep(m);
    StepStores(m);
    RecordsSane(m1);
    RecordRun(m1, ls[1..]);
    CpuUnfolds(m, ls, q);
    NoCpu(m);
    MovesOn(m, 0);
    if q > 0 {
      MovesOn(m1, q - 1);
      SameMachine(m, m1, q);
    }
    var e := EventOf(m.kernel.trace.nextEventId, m.kernel.ticks, MoveSig(m));
    var log, irqs, s := Run(m, ls).kernel.trace.log, IrqsBefore(ls, q), MoveSig(Cpus(m, q));
    StoredLater(m.kernel.trace, m1.kernel.trace, e, log, if q == 0 then 0 else q - 1, m.kernel.ticks + irqs, s);
  }

  lemma MovesOn(m: Machine, q: nat)
    requires SaneMachine(m)
    ensures Traces(m, q) ==> !NextMove(Cpus(m, q)).Halt? && (NextMove(Cpus(m, q)).Hop? ==> NextMove(Cpus(m, q)).next < MAX_TASKS)
  {
  }

  lemma SameMachine(m: Machine, m1: Machine, q: nat)
    requires SaneMachine(m) && SaneMachine(m1) && q > 0 && Cpus(m, q) == Cpus(m1, q - 1)
    ensures Traces(m, q) == Traces(m1, q - 1)
  {
  }

  lemma CpuUnfolds(m: Machine, ls: seq<Label>, q: nat)
    requires SaneMachine(m) && |ls| > 0 && ls[0] == Cpu
    ensures Run(m, ls) == Run(CpuStep(m), ls[1..]) && Cpus(m, q) == (if q == 0 then m else Cpus(CpuStep(m), q - 1))
    ensures IrqsBefore(ls, q) == if q == 0 then 0 else IrqsBefore(ls[1..], q - 1)
  {
    hide CpuStep;
  }

  lemma IrqOnlyTicks(m: Machine)
    requires RecordsWell(m)
    ensures var i := Step(m, Irq);
            RecordsWell(i) && SameShape(m, i) && i.kernel.trace == m.kernel.trace && i.kernel.ticks == m.kernel.ticks + 1
  {
    RecordStep(m, Irq);
  }

  /** Only interrupts move the clock. */
  lemma StepTicks(m: Machine)
    requires SaneMachine(m)
    ensures CpuStep(m).kernel.ticks == m.kernel.ticks
  {
  }

  // ---- The simulation ----

  /** The replaying machine `p` has come as far as the recording machine `r`: same shape, a cursor that stands
      where `r` has its end of log, and a clock that shows when `r` traced its last event. */
  ghost predicate Follows(r: Machine, p: Machine)
  {
    SameShape(r, p) && SaneMachine(p) &&
    var x, log := p.kernel.trace.replay, r.kernel.trace.log;
    x.active && !x.failed && x.index == |log| && log <= x.log && (|log| > 0 ==> x.virtualTicks == log[|log| - 1].timestamp)
  }

  /** A replay that has run past the end of its log: it has failed and nothing is forced any more. */
  ghost predicate Overrun(p: Machine)
  {
    SaneMachine(p) && !p.wild &&
    var x := p.kernel.trace.replay;
    x.active && x.failed && x.index >= |x.log|
  }

  /** The simulation lemma: wherever the recording run switches, the entry at the cursor of the log is
      that very switch, so the slot it forces is the round-robin choice. */
  lemma LogForcesRoundRobin(r: Machine, p: Machine)
    requires RecordsWell(r) && !r.finished && Follows(r, p) && NextMove(r).Hop?
    requires CpuStep(r).kernel.trace.log <= p.kernel.trace.replay.log
    requires CpuStep(r).kernel.trace.dropped == r.kernel.trace.dropped
    ensures ForcedNext(p.kernel.trace) == Forced(NextReady(p.kernel))
  {
    assert SaneMachine(r) && Recording(r.kernel.trace);
    hide CpuStep, RecordsWell, NextReady, HopTasks, Recording;
    RecordStep(r, Cpu);
    HopForces(r, CpuStep(r), p);
  }

  lemma HopForces(r: Machine, r': Machine, p: Machine)
    requires SaneMachine(r) && Moves(r, r') && Follows(r, p) && NextMove(r).Hop? && Recording(r.kernel.trace)
    requires r'.kernel.trace.log <= p.kernel.trace.replay.log && r'.kernel.trace.dropped == r.kernel.trace.dropped
    ensures ForcedNext(p.kernel.trace) == Forced(NextReady(p.kernel))
  {
    hide HopTasks, Scan;
    assert SCHED != IRQ;
  }

  /** Moves of the same shape are the same move, and trace the same event. */
  lemma SameMoves(r: Machine, p: Machine, r': Machine, p': Machine)
    requires SaneMachine(r) && SaneMachine(p) && SaneMachine(p') && SameShape(r, p) && Moves(r, r') && Moves(p, p')
    ensures NextMove(r) == NextMove(p) && SameShape(r', p')
    ensures !NextMove(r).Halt? ==> MoveSig(r) == MoveSig(p)
  {
  }

  /** If the recorder stores the event that the replay compares, the cursor moves past it. */
  lemma StoredMatches(t: TraceState, x: TraceState, s: Sig, ticks: nat, ticks': nat)
    requires Recording(t) && s.kind != IRQ && x.replay.active && !x.replay.failed
    requires x.replay.index == |t.log| && Record(t, s, ticks).dropped == t.dropped
    requires Record(t, s, ticks).log <= x.replay.log
    ensures var y := Record(x, s, ticks').replay;
            y.active && !y.failed && y.index == |Record(t, s, ticks).log| && y.log == x.replay.log
    ensures Record(x, s, ticks').replay.virtualTicks == ticks
    ensures var log := Record(t, s, ticks).log; |log| > 0 && log[|log| - 1].timestamp == ticks
  {
  }

  lemma MoveSigQuiet(r: Machine)
    requires SaneMachine(r) && AllQuiet(r.scripts) && !NextMove(r).Halt?
    ensures MoveSig(r).kind != IRQ
  {
  }

  lemma FollowerMoves(r: Machine, p: Machine)
    requires RecordsWell(r) && Follows(r, p) && !r.finished
    requires CpuStep(r).kernel.trace.log <= p.kernel.trace.replay.log
    requires CpuStep(r).kernel.trace.dropped == r.kernel.trace.dropped
    ensures Moves(p, CpuStep(p))
  {
    if NextMove(r).Hop? {
      LogForcesRoundRobin(r, p);
    }
    assert Good(p);
    assert Unforced(p);
    StepMoves(p);
  }

  /** One step of the recording and one of the replay; afterwards the clock of the replay shows the time at which the
      recording traced the event. */
  lemma FollowStep(r: Machine, p: Machine)
    requires RecordsWell(r) && Follows(r, p)
    requires CpuStep(r).kernel.trace.log <= p.kernel.trace.replay.log
    requires CpuStep(r).kernel.trace.dropped == r.kernel.trace.dropped
    ensures Follows(CpuStep(r), CpuStep(p)) && CpuStep(p).kernel.trace.replay.log == p.kernel.trace.replay.log
    ensures !CpuStep(r).finished ==>
              PitTicks(CpuStep(p).kernel.trace, CpuStep(p).kernel.ticks) == r.kernel.ticks
  {
    if !r.finished {
      RecordStep(r, Cpu);
      FollowerMoves(r, p);
      FollowMove(r, p, CpuStep(r), CpuStep(p));
    }
  }

  lemma FollowMove(r: Machine, p: Machine, r': Machine, p': Machine)
    requires RecordsWell(r) && Follows(r, p) && !r.finished && SaneMachine(p') && Moves(r, r') && Moves(p, p')
    requires r'.kernel.trace.log <= p.kernel.trace.replay.log && r'.kernel.trace.dropped == r.kernel.trace.dropped
    ensures Follows(r', p') && p'.kernel.trace.replay.log == p.kernel.trace.replay.log
    ensures !r'.finished ==> PitTicks(p'.kernel.trace, p'.kernel.ticks) == r.kernel.ticks
  {
    hide NextMove, Record, Good, HopTasks;
    SameMoves(r, p, r', p');
    if !NextMove(r).Halt? {
      MoveSigQuiet(r);
      StoredMatches(r.kernel.trace, p.kernel.trace, MoveSig(r), r.kernel.ticks, p.kernel.ticks);
    }
  }

  /** The first event that the recorder had to drop is the one that the replay cannot match. */
  lemma OverrunStep(r: Machine, p: Machine)
    requires RecordsWell(r) && Follows(r, p)
    requires |p.kernel.trace.replay.log| <= BUFFER_CAP
    requires CpuStep(r).kernel.trace.log <= p.kernel.trace.replay.log
    requires CpuStep(r).kernel.trace.dropped > r.kernel.trace.dropped
    ensures Overrun(CpuStep(p)) && CpuStep(p).kernel.trace.replay.log == p.kernel.trace.replay.log
    ensures SameShape(CpuStep(r), CpuStep(p))
  {
    RecordStep(r, Cpu);
    assert Good(p);
    assert ForcedNext(p.kernel.trace) == NotForced;
    StepMoves(p);
    hide CpuStep, NextMove, MoveSig, Record, Overrun;
    SameMoves(r, p, CpuStep(r), CpuStep(p));
  }

  /** A replay that has run past its log goes on in step until the shell's turn, where it stops. */
  lemma OverrunMoves(r: Machine, p: Machine)
    requires RecordsWell(r) && Overrun(p) && SameShape(r, p) && !r.finished
    ensures if p.kernel.current == 0 then CpuStep(p).finished else SameShape(CpuStep(r), CpuStep(p))
  {
    if p.kernel.current != 0 {
      RecordStep(r, Cpu);
      assert Good(p);
      assert Unforced(p);
      StepMoves(p);
      hide CpuStep, NextMove, MoveSig, Record, Overrun;
      SameMoves(r, p, CpuStep(r), CpuStep(p));
    }
  }

  /** So it ends, no later than the recording did. */
  lemma {:induction false} OverrunEnds(r: Machine, p: Machine, ls: seq<Label>)
    requires RecordsWell(r) && Overrun(p) && SameShape(r, p) && Run(r, ls).finished
    ensures Cpus(p, CpuCount(ls)).finished
    decreases |ls|
  {
    if p.finished {
      FinishedStays(p, CpuCount(ls));
    } else {
      var r1 := Step(r, ls[0]);
      RecordStep(r, ls[0]);
      if ls[0] == Irq {
        hide CpuStep, RecordsWell, Overrun;
        OverrunEnds(r1, p, ls[1..]);
      } else {
        OverrunMoves(r, p);
        OverrunStays(p);
        hide CpuStep, RecordsWell, Overrun;
        if p.kernel.current == 0 {
          FinishedStays(CpuStep(p), CpuCount(ls[1..]));
        } else {
          OverrunEnds(r1, CpuStep(p), ls[1..]);
        }
      }
    }
  }

  lemma OverrunStays(p: Machine)
    requires Overrun(p)
    ensures Overrun(CpuStep(p))
  {
  }

  lemma {:induction false} OverrunForever(p: Machine, n: nat)
    requires Overrun(p)
    ensures Overrun(Cpus(p, n))
    decreases n
  {
    if n > 0 {
      OverrunStays(p);
      OverrunForever(CpuStep(p), n - 1);
    }
  }

  /** Over a whole run: after as many steps, the replay has followed the recording; or the
      recorder has dropped an event and the replay has failed for good. */
  lemma {:induction false} FollowRun(r: Machine, p: Machine, ls: seq<Label>)
    requires RecordsWell(r) && Follows(r, p)
    requires Run(r, ls).kernel.trace.log == p.kernel.trace.replay.log
    ensures var r' := Run(r, ls);
            var p' := Cpus(p, CpuCount(ls));
            if r'.kernel.trace.dropped == r.kernel.trace.dropped
            then Follows(r', p') && p'.kernel.trace.replay.log == p.kernel.trace.replay.log
            else Overrun(p') && (r'.finished ==> p'.finished)
    decreases |ls|
  {
    hide CpuStep, RecordsWell, Moves, Overrun;
    RecordRun(r, ls);
    if |ls| > 0 {
      var r1 := Step(r, ls[0]);
      RecordStep(r, ls[0]);
      RecordRun(r1, ls[1..]);
      if ls[0] == Irq {
        FollowRun(r1, p, ls[1..]);
      } else if r1.kernel.trace.dropped == r.kernel.trace.dropped {
        FollowStep(r, p);
        FollowRun(r1, CpuStep(p), ls[1..]);
      } else {
        OverrunStep(r, p);
        OverrunForever(CpuStep(p), CpuCount(ls[1..]));
        if Run(r, ls).finished {
          OverrunEnds(r1, CpuStep(p), ls[1..]);
        }
      }
    }
  }

  /** A replay without a mismatch so far. */
  ghost predicate OnTrack(p: Machine)
  {
    SaneMachine(p) && !p.wild && p.kernel.trace.replay.active && !p.kernel.trace.replay.failed
  }

  lemma FollowsOnTrack(r: Machine, p: Machine)
    requires RecordsWell(r) && Follows(r, p)
    ensures OnTrack(p)
  {
  }

  /** Nothing bad happens on the way either: at every earlier step too. */
  lemma {:induction false} FollowPrefix(r: Machine, p: Machine, ls: seq<Label>, n: nat)
    requires RecordsWell(r) && Follows(r, p) && n <= CpuCount(ls)
    requires Run(r, ls).kernel.trace.log == p.kernel.trace.replay.log
    ensures OnTrack(Cpus(p, n)) ||
            (Run(r, ls).kernel.trace.dropped > r.kernel.trace.dropped && Overrun(Cpus(p, n)))
    decreases |ls|
  {
    hide CpuStep, RecordsWell, Moves, Overrun, OnTrack;
    RecordRun(r, ls);
    if n == 0 {
      FollowsOnTrack(r, p);
    } else {
      var r1 := Step(r, ls[0]);
      RecordStep(r, ls[0]);
      RecordRun(r1, ls[1..]);
      if ls[0] == Irq {
        FollowPrefix(r1, p, ls[1..], n);
      } else if r1.kernel.trace.dropped == r.kernel.trace.dropped {
        FollowStep(r, p);
        FollowPrefix(r1, CpuStep(p), ls[1..], n - 1);
      } else {
        OverrunStep(r, p);
        OverrunForever(CpuStep(p), n - 1);
      }
    }
  }

  lemma {:induction false} FinishedStays(m: Machine, n: nat)
    requires SaneMachine(m) && m.finished
    ensures Cpus(m, n) == m
    decreases n
  {
    if n > 0 {
      FinishedStays(m, n - 1);
    }
  }

  lemma {:induction false} CpusAdd(m: Machine, a: nat, b: nat)
    requires SaneMachine(m)
    ensures Cpus(m, a + b) == Cpus(Cpus(m, a), b)
    decreases a
  {
    hide CpuStep;
    if a > 0 {
      CpusAdd(CpuStep(m), a - 1, b);
    }
  }

  /** While a replay is active, interrupts are dropped: a run is its processor steps. */
  lemma {:induction false} ReplayIgnoresIrqs(p: Machine, ls: seq<Label>)
    requires SaneMachine(p) && p.kernel.trace.replay.active
    ensures Run(p, ls) == Cpus(p, CpuCount(ls)) && Run(p, ls).kernel.trace.replay.active
    decreases |ls|
  {
    hide CpuStep, Tick;
    if |ls| > 0 {
      ReplayStaysActive(p);
      TickIgnored(p);
      ReplayIgnoresIrqs(Step(p, ls[0]), ls[1..]);
    }
  }

  lemma TickIgnored(p: Machine)
    requires SaneMachine(p) && p.kernel.trace.replay.active
    ensures Step(p, Irq) == p
  {
  }

  lemma ReplayStaysActive(p: Machine)
    requires SaneMachine(p) && p.kernel.trace.replay.active
    ensures CpuStep(p).kernel.trace.replay.active
  {
    hide NextReady, Scan, ForcedNext;
  }
}
