/** The events of a recording fit the fields in which they are stored, from bounds on its inputs alone:
    on the scripts, on the first event id and on the number of ticks. */
module Sizes {
  import opened Bytes
  import opened Events
  import opened Trace
  import opened Sched
  import opened Replay
  import opened Workload
  import opened RecordedLog

  predicate SizedScript(s: Script)
  {
    forall i :: 0 <= i < |s| && s[i].Say? ==> s[i].kind < TWO_16 && s[i].data0 < TWO_64 && s[i].data1 < TWO_64
  }

  predicate SizedScripts(ss: seq<Script>)
  {
    forall i :: 0 <= i < |ss| ==> SizedScript(ss[i])
  }

  function IrqCount(ls: seq<Label>): nat
  {
    if |ls| == 0 then 0 else (if ls[0] == Irq then 1 else 0) + IrqCount(ls[1..])
  }

  /** Everything stored so far fits, and so will every event that is still to come. */
  ghost predicate SizedMachine(m: Machine)
  {
    SaneMachine(m) && AllSized(m.kernel.trace.log) && SizedScripts(m.scripts) &&
    (forall i :: 0 <= i < MAX_TASKS ==> m.kernel.tasks[i].pid < TWO_32) &&
    m.kernel.trace.nextEventId + Remaining(m) < TWO_64
  }

  /** The event of a move fits, if its id and its time do. */
  lemma SizedSig(m: Machine)
    requires Good(m) && SizedScripts(m.scripts) && !NextMove(m).Halt?
    requires forall i :: 0 <= i < MAX_TASKS ==> m.kernel.tasks[i].pid < TWO_32
    ensures var s := MoveSig(m); s.pid < TWO_32 && s.kind < TWO_16 && s.data0 < TWO_64 && s.data1 < TWO_64
  {
    if NextMove(m).Talk? {
      assert SizedScript(m.scripts[m.kernel.current]);
    }
  }

  lemma SizedRecord(t: TraceState, s: Sig, ticks: nat)
    requires Recording(t) && s.kind != IRQ && AllSized(t.log) && t.nextEventId < TWO_64 && ticks < TWO_64
    requires s.pid < TWO_32 && s.kind < TWO_16 && s.data0 < TWO_64 && s.data1 < TWO_64
    ensures var u := Record(t, s, ticks);
            AllSized(u.log) && u.nextEventId == t.nextEventId + 1 && |u.log| + u.dropped == |t.log| + t.dropped + 1 &&
            u.startTicks == t.startTicks && u.profile == t.profile
  {
  }

  lemma SizedTails(ss: seq<Script>, c: nat)
    requires SizedScripts(ss) && c < |ss| && |ss[c]| > 0
    ensures SizedScripts(ss[c := ss[c][1..]])
  {
    assert SizedScript(ss[c]);
    var tail := ss[c][1..];
    assert forall i :: 0 <= i < |tail| ==> tail[i] == ss[c][i + 1];
    assert SizedScript(tail);
  }

  lemma SizedMove(m: Machine, r: Machine)
    requires RecordsWell(m) && SizedMachine(m) && !m.finished && Moves(m, r) && SaneMachine(r) && m.kernel.ticks < TWO_64
    requires Emitted(r) + Remaining(r) == Emitted(m) + Remaining(m)
    ensures SizedMachine(r) && r.kernel.trace.startTicks == m.kernel.trace.startTicks
    ensures r.kernel.trace.profile == m.kernel.trace.profile
  {
    hide Remaining, AllSized, SizedScripts, NextReady, Record;
    var c := m.kernel.current;
    if !NextMove(m).Halt? {
      SizedSig(m);
      MoveSigQuiet(m);
      SizedRecord(m.kernel.trace, MoveSig(m), m.kernel.ticks);
      if |m.scripts[c]| > 0 {
        SizedTails(m.scripts, c);
      }
    }
  }

  lemma SizedStep(m: Machine, l: Label)
    requires RecordsWell(m) && SizedMachine(m) && m.kernel.ticks < TWO_64
    ensures var r := Step(m, l);
            SizedMachine(r) && r.kernel.trace.startTicks == m.kernel.trace.startTicks &&
            r.kernel.trace.profile == m.kernel.trace.profile &&
            r.kernel.ticks == m.kernel.ticks + if l == Irq then 1 else 0
  {
    RecordStep(m, l);
    StepCounts(m, l);
    StepTicks(m);
    hide CpuStep, Remaining, SizedScripts;
    if l == Cpu && !m.finished {
      SizedMove(m, CpuStep(m));
    } else {
      SameRemaining(m, Step(m, l));
    }
  }

  lemma SameRemaining(m: Machine, r: Machine)
    requires SaneMachine(m) && SaneMachine(r) && SameShape(m, r)
    ensures Remaining(r) == Remaining(m)
  {
  }

  lemma {:induction false} SizedRun(m: Machine, ls: seq<Label>)
    requires RecordsWell(m) && SizedMachine(m) && m.kernel.ticks + IrqCount(ls) < TWO_64
    ensures var r := Run(m, ls);
            SizedMachine(r) && r.kernel.trace.startTicks == m.kernel.trace.startTicks &&
            r.kernel.trace.profile == m.kernel.trace.profile && r.kernel.ticks == m.kernel.ticks + IrqCount(ls)
    decreases |ls|
  {
    if |ls| > 0 {
      SizedStep(m, ls[0]);
      RecordStep(m, ls[0]);
      hide Step, RecordsWell, SizedMachine;
      SizedRun(Step(m, ls[0]), ls[1..]);
    }
  }

  /** What a recording leaves fits the fields of a stored session. */
  lemma RecordingFits(k: Kernel, profile: nat, ws: seq<Script>, ls: seq<Label>)
    requires Quiescent(k) && |ws| < MAX_TASKS && profile != PROFILE_NONE && AllQuiet(ws) && !k.trace.replay.active
    requires SizedScripts(ws) && k.trace.nextEventId + TotalEvents(ws) < TWO_64 && k.ticks + IrqCount(ls) < TWO_64
    ensures var r := Run(RecordStart(k, profile, ws), ls).kernel;
            AllSized(r.trace.log) && r.trace.startTicks == k.ticks && r.trace.profile == profile &&
            r.ticks == k.ticks + IrqCount(ls)
  {
    var m := RecordStart(k, profile, ws);
    RecordStartGood(k, profile, ws);
    LaunchedSized(m, k.tasks[0], StartProfile(k.trace, profile, k.ticks), ws);
    StartTicks(k, profile, ws);
    hide RecordStart, Remaining, TotalEvents;
    SizedRun(m, ls);
  }

  lemma StepProfile(m: Machine, l: Label)
    requires SaneMachine(m)
    ensures Step(m, l).kernel.trace.profile == m.kernel.trace.profile
  {
    hide NextReady, ForcedNext;
  }

  lemma {:induction false} RunProfile(m: Machine, ls: seq<Label>)
    requires SaneMachine(m)
    ensures Run(m, ls).kernel.trace.profile == m.kernel.trace.profile
    decreases |ls|
  {
    if |ls| > 0 {
      StepProfile(m, ls[0]);
      hide Step;
      RunProfile(Step(m, ls[0]), ls[1..]);
    }
  }

  /** A recording is made under the profile it was started with. */
  lemma RecordingKeepsProfile(k: Kernel, profile: nat, ws: seq<Script>, ls: seq<Label>)
    requires Quiescent(k) && |ws| < MAX_TASKS
    ensures Run(RecordStart(k, profile, ws), ls).kernel.trace.profile == profile
  {
    StartLaunches(k, StartProfile(k.trace, profile, k.ticks), ws);
    RunProfile(RecordStart(k, profile, ws), ls);
  }

  lemma LaunchedSized(m: Machine, shell: Task, t: TraceState, ws: seq<Script>)
    requires Launched(m, shell, t, ws) && SizedScripts(ws) && shell.pid == 1
    ensures SizedScripts(m.scripts) && forall i :: 0 <= i < MAX_TASKS ==> m.kernel.tasks[i].pid < TWO_32
  {
    forall i | 0 <= i < MAX_TASKS
      ensures SizedScript(m.scripts[i]) && m.kernel.tasks[i].pid < TWO_32
    {
      assert i == 0 || 1 <= i <= |ws| || |ws| < i;
    }
  }

  /** The scripts of the demo profiles are of the right sizes. */
  lemma ProfilesSized(profile: nat, used: nat)
    requires used < TWO_64
    ensures SizedScripts(ProfileScripts(profile, used))
  {
    RoundsSized(Attack, 16);
    forall slot: nat | slot < 3
      ensures SizedScript(Rounds(Sysload(slot, used), 32)) && SizedScript(Rounds(Lifecycle(slot), 4))
    {
      RoundsSized(Sysload(slot, used), 32);
      RoundsSized(Lifecycle(slot), 4);
    }
    hide Rounds, SizedScript;
  }

  lemma {:induction false} RoundsSized(w: Worker, n: nat)
    requires n <= 32 && (w.Sysload? ==> w.slot < 3 && w.used < TWO_64) && (w.Lifecycle? ==> w.slot < 3)
    ensures SizedScript(Rounds(w, n))
  {
    if n > 0 {
      RoundsSized(w, n - 1);
    }
  }
}
