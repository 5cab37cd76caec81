/** The whole log of a recording of workers that trace one event and yield, round after round, as the demo profiles do
    (kernel/workload.c): which slot hands over to which, and what each worker traces, in closed form. */
module RoundLog {
  import opened Bytes
  import opened Events
  import opened Trace
  import opened Sched
  import opened Replay
  import opened Workload
  import opened RecordedLog

  /** The scripts of workers with `n` rounds each. */
  function Scripts(ws: seq<Worker>, n: nat): (ss: seq<Script>)
    ensures |ss| == |ws|
  {
    seq(|ws|, i requires 0 <= i < |ws| => Rounds(ws[i], n))
  }

  /** Round `r` of `k` workers has 2 * k + 1 events: slot 0 hands over to slot 1, worker 1 traces its event, slot 1 hands
      over to slot 2, and so on back to slot 0. In the last round, number `n`, the workers only end: k + 1 events. */
  function FormSig(ws: seq<Worker>, n: nat, r: nat, o: nat): Sig
    requires r < n ==> o <= 2 * |ws|
  {
    if r < n && o % 2 == 1 then
      var w := ws[o / 2];
      var e := RoundEvent(w, r);
      Sig(o / 2 + 2, e.kind, e.data0, e.data1)
    else
      var from := if r < n then o / 2 else o;
      var to := if from < |ws| then from + 1 else 0;
      Sig(to + 1, SCHED, from, to)
  }

  lemma {:induction false} RoundsAt(w: Worker, n: nat, r: nat)
    requires r < n
    ensures |Rounds(w, n)| == 2 * n && Rounds(w, n)[2 * r] == RoundEvent(w, r) && Rounds(w, n)[2 * r + 1] == Pause
  {
    RoundsLength(w, n);
    if r < n - 1 {
      RoundsLength(w, n - 1);
      RoundsAt(w, n - 1, r);
    } else {
      RoundsLength(w, n - 1);
    }
  }

  lemma {:induction false} RoundsLength(w: Worker, n: nat)
    ensures |Rounds(w, n)| == 2 * n
  {
    if n > 0 {
      RoundsLength(w, n - 1);
    }
  }

  /** The slot that runs at event `o` of round `r`. */
  function RunsNow(n: nat, r: nat, o: nat): nat
  {
    if r < n then (o + 1) / 2 else o
  }

  /** How much of its script worker `i` has done by then. */
  function Done(n: nat, r: nat, o: nat, i: nat): nat
  {
    if r >= n then 2 * n
    else if 2 * i < o then 2 * r + 2
    else if 2 * i == o then 2 * r + 1
    else 2 * r
  }

  /** The machine is about to trace event `o` of round `r`. */
  ghost predicate At(m: Machine, ws: seq<Worker>, n: nat, r: nat, o: nat)
  {
    RecordsWell(m) && !m.finished && 0 < |ws| < MAX_TASKS && r <= n && o <= (if r < n then 2 * |ws| else |ws|) &&
    m.kernel.current == RunsNow(n, r, o) && TasksAt(m.kernel.tasks, |ws|, n, r, o) && ScriptsAt(m.scripts, ws, n, r, o)
  }

  ghost predicate TasksAt(ts: seq<Task>, k: nat, n: nat, r: nat, o: nat)
    requires |ts| == MAX_TASKS
  {
    (forall i :: 0 <= i < MAX_TASKS ==> ts[i].pid == if i <= k then i + 1 else 0) &&
    forall i :: 0 <= i < MAX_TASKS ==> (Live(ts[i]) <==> i == 0 || (i <= k && (r < n || o <= i)))
  }

  ghost predicate ScriptsAt(ss: seq<Script>, ws: seq<Worker>, n: nat, r: nat, o: nat)
    requires |ss| == MAX_TASKS && |ws| < MAX_TASKS
  {
    forall i :: 0 < i <= |ws| ==> LeftOf(ss[i], ws[i - 1], n, Done(n, r, o, i))
  }

  /** `s` is what is left of the script once its first `d` instructions are done. */
  ghost predicate LeftOf(s: Script, w: Worker, n: nat, d: nat)
  {
    d <= 2 * n && |Rounds(w, n)| == 2 * n && s == Rounds(w, n)[d..]
  }

  lemma LeftNext(s: Script, w: Worker, n: nat, d: nat)
    requires LeftOf(s, w, n, d) && d < 2 * n
    ensures |s| > 0 && LeftOf(s[1..], w, n, d + 1)
    ensures d % 2 == 0 ==> s[0] == RoundEvent(w, d / 2)
    ensures d % 2 == 1 ==> s[0] == Pause
  {
    RoundsAt(w, n, d / 2);
  }

  lemma LeftNone(s: Script, w: Worker, n: nat)
    requires LeftOf(s, w, n, 2 * n)
    ensures s == []
  {
  }

  /** The next event's place. */
  function NextPlace(k: nat, n: nat, r: nat, o: nat): (nat, nat)
  {
    if r < n && o == 2 * k then (r + 1, 0) else (r, o + 1)
  }

  lemma NextSlot(m: Machine, ws: seq<Worker>, n: nat, r: nat, o: nat)
    requires At(m, ws, n, r, o)
    ensures var c := m.kernel.current;
            NextReady(m.kernel) == if c < |ws| then c + 1 else 0
  {
    var c := m.kernel.current;
    var t := if c < |ws| then c + 1 else 0;
    assert Live(m.kernel.tasks[t]);
    assert IsReady(m.kernel.tasks[t]);
    assert Ahead(c, t) == 1 || (c == |ws| && t == 0);
    if c == |ws| {
      var x := NextReady(m.kernel);
      assert Live(m.kernel.tasks[x]);
    }
  }

  /** What it traces. */
  lemma AtSig(m: Machine, ws: seq<Worker>, n: nat, r: nat, o: nat)
    requires At(m, ws, n, r, o)
    ensures !NextMove(m).Halt? && MoveSig(m) == FormSig(ws, n, r, o)
  {
    NextSlot(m, ws, n, r, o);
    hide NextReady, RecordsWell, Rounds, LeftOf;
    CurrentScript(m, ws, n, r, o);
  }

  /** What the running worker has left. */
  lemma CurrentScript(m: Machine, ws: seq<Worker>, n: nat, r: nat, o: nat)
    requires At(m, ws, n, r, o)
    ensures var c := m.kernel.current;
            c > 0 ==>
              if r == n then m.scripts[c] == []
              else |m.scripts[c]| > 0 && m.scripts[c][0] == if o % 2 == 1 then RoundEvent(ws[o / 2], r) else Pause
  {
    hide RecordsWell, Rounds, LeftOf;
    AtWell(m, ws, n, r, o);
    var c := m.kernel.current;
    if c > 0 {
      assert LeftOf(m.scripts[c], ws[c - 1], n, Done(n, r, o, c));
      if r == n {
        LeftNone(m.scripts[c], ws[c - 1], n);
      } else {
        LeftNext(m.scripts[c], ws[c - 1], n, Done(n, r, o, c));
      }
    }
  }

  lemma AtNext(m: Machine, ws: seq<Worker>, n: nat, r: nat, o: nat)
    requires At(m, ws, n, r, o) && !(r == n && o == |ws|)
    ensures var (r', o') := NextPlace(|ws|, n, r, o); At(CpuStep(m), ws, n, r', o')
  {
    AtWell(m, ws, n, r, o);
    hide CpuStep, NextReady, RecordsWell, FormSig;
    NextSlot(m, ws, n, r, o);
    AtSig(m, ws, n, r, o);
    RecordStep(m, Cpu);
    MovesOn(m, CpuStep(m), ws, n, r, o);
  }

  lemma AtWell(m: Machine, ws: seq<Worker>, n: nat, r: nat, o: nat)
    requires At(m, ws, n, r, o)
    ensures RecordsWell(m) && SaneMachine(m) && !m.finished
  {
  }

  lemma MovesOn(m: Machine, m': Machine, ws: seq<Worker>, n: nat, r: nat, o: nat)
    requires SaneMachine(m) && SaneMachine(m') && RecordsWell(m')
    requires At(m, ws, n, r, o) && !(r == n && o == |ws|) && Moves(m, m') && !NextMove(m).Halt?
    requires NextReady(m.kernel) == if m.kernel.current < |ws| then m.kernel.current + 1 else 0
    ensures var (r', o') := NextPlace(|ws|, n, r, o); At(m', ws, n, r', o')
  {
    hide NextReady, RecordsWell, MoveSig, TasksAt, ScriptsAt, Record;
    CurrentScript(m, ws, n, r, o);
    MovesTasks(m, m', ws, n, r, o);
    MovesScripts(m, m', ws, n, r, o);
  }

  lemma MovesTasks(m: Machine, m': Machine, ws: seq<Worker>, n: nat, r: nat, o: nat)
    requires SaneMachine(m) && SaneMachine(m')
    requires At(m, ws, n, r, o) && !(r == n && o == |ws|) && Moves(m, m') && !NextMove(m).Halt?
    requires NextReady(m.kernel) == if m.kernel.current < |ws| then m.kernel.current + 1 else 0
    ensures var (r', o') := NextPlace(|ws|, n, r, o); TasksAt(m'.kernel.tasks, |ws|, n, r', o')
  {
    hide NextReady, RecordsWell, MoveSig, ScriptsAt, Record;
    CurrentScript(m, ws, n, r, o);
  }

  lemma MovesScripts(m: Machine, m': Machine, ws: seq<Worker>, n: nat, r: nat, o: nat)
    requires SaneMachine(m) && SaneMachine(m')
    requires At(m, ws, n, r, o) && !(r == n && o == |ws|) && Moves(m, m') && !NextMove(m).Halt?
    ensures var (r', o') := NextPlace(|ws|, n, r, o); ScriptsAt(m'.scripts, ws, n, r', o')
  {
    hide NextReady, RecordsWell, MoveSig, TasksAt, Record, Rounds, LeftOf, HopTasks;
    CurrentScript(m, ws, n, r, o);
    var c := m.kernel.current;
    var (r', o') := NextPlace(|ws|, n, r, o);
    assert m'.scripts == if c > 0 && r < n then m.scripts[c := m.scripts[c][1..]] else m.scripts;
    forall i | 0 < i <= |ws|
      ensures LeftOf(m'.scripts[i], ws[i - 1], n, Done(n, r', o', i))
    {
      assert LeftOf(m.scripts[i], ws[i - 1], n, Done(n, r, o, i));
      if i == c && r < n {
        LeftNext(m.scripts[i], ws[i - 1], n, Done(n, r, o, i));
      }
    }
  }

  // ---- The theorem ----

  /** Rounds `0` to `n - 1`, and the last one, in which the workers end. */
  predicate IsPlace(k: nat, n: nat, r: nat, o: nat)
  {
    if r < n then o <= 2 * k else r == n && o <= k
  }

  function Index(k: nat, r: nat, o: nat): nat
  {
    r * (2 * k + 1) + o
  }

  lemma AtStart(k: Kernel, profile: nat, ws: seq<Worker>, n: nat)
    requires Quiescent(k) && 0 < |ws| < MAX_TASKS && profile != PROFILE_NONE && !k.trace.replay.active
    ensures AllQuiet(Scripts(ws, n)) && TotalEvents(Scripts(ws, n)) == Index(|ws|, n, |ws|) + 1
    ensures At(RecordStart(k, profile, Scripts(ws, n)), ws, n, 0, 0)
  {
    var ss := Scripts(ws, n);
    forall i | 0 <= i < |ss|
      ensures Says(ss[i]) == n && Turns(ss[i]) == n + 1 && Quiet(ss[i]) && |ss[i]| == 2 * n && ss[i] == Rounds(ws[i], n)
    {
      RoundsCounts(ws[i], n);
      RoundsLength(ws[i], n);
    }
    UniformTotal(ss, n);
    TotalIsIndex(|ws|, n);
    hide RecordStart, TotalEvents, Rounds, Says, Turns, Remaining;
    RecordStartGood(k, profile, ss);
    LaunchedAt(RecordStart(k, profile, ss), k.tasks[0], StartProfile(k.trace, profile, k.ticks), ws, n);
  }

  lemma TotalIsIndex(k: nat, n: nat)
    ensures k * n + (k + 1) * (n + 1) == Index(k, n, k) + 1
  {
  }

  lemma LaunchedAt(m: Machine, shell: Task, t: TraceState, ws: seq<Worker>, n: nat)
    requires Launched(m, shell, t, Scripts(ws, n)) && RecordsWell(m) && !m.finished && 0 < |ws| < MAX_TASKS
    requires shell.used && shell.pid == 1 && shell.state == Running
    requires forall i :: 0 <= i < |ws| ==> |Rounds(ws[i], n)| == 2 * n
    ensures At(m, ws, n, 0, 0)
  {
    hide RecordsWell, Rounds;
    var k := |ws|;
    forall i | 0 <= i < MAX_TASKS
      ensures m.kernel.tasks[i].pid == if i <= k then i + 1 else 0
      ensures Live(m.kernel.tasks[i]) <==> i <= k
    {
      assert i == 0 || 1 <= i <= k || k < i;
    }
  }

  /** The machine gets to every place, after as many steps as there are events before it. */
  lemma {:induction false} Reaches(m: Machine, ws: seq<Worker>, n: nat, r: nat, o: nat)
    requires At(m, ws, n, 0, 0) && IsPlace(|ws|, n, r, o)
    ensures SaneMachine(m) && At(Cpus(m, Index(|ws|, r, o)), ws, n, r, o)
    decreases r, o
  {
    hide At, CpuStep;
    AtSane(m, ws, n);
    if o > 0 {
      Reaches(m, ws, n, r, o - 1);
      AtNext(Cpus(m, Index(|ws|, r, o - 1)), ws, n, r, o - 1);
      CpusAdd(m, Index(|ws|, r, o - 1), 1);
      OneMore(Cpus(m, Index(|ws|, r, o - 1)));
    } else if r > 0 {
      var o1 := 2 * |ws|;
      Reaches(m, ws, n, r - 1, o1);
      AtNext(Cpus(m, Index(|ws|, r - 1, o1)), ws, n, r - 1, o1);
      NextRound(|ws|, r);
      CpusAdd(m, Index(|ws|, r - 1, o1), 1);
      OneMore(Cpus(m, Index(|ws|, r - 1, o1)));
    }
  }

  lemma AtSane(m: Machine, ws: seq<Worker>, n: nat)
    requires At(m, ws, n, 0, 0)
    ensures SaneMachine(m)
  {
  }

  lemma NextRound(k: nat, r: nat)
    requires r > 0
    ensures Index(k, r, 0) == Index(k, r - 1, 2 * k) + 1
  {
  }

  lemma OneMore(m: Machine)
    requires SaneMachine(m)
    ensures Cpus(m, 1) == CpuStep(m)
  {
    hide CpuStep;
    assert Cpus(CpuStep(m), 0) == CpuStep(m);
  }

  lemma IndexBound(k: nat, n: nat, r: nat, o: nat)
    requires IsPlace(k, n, r, o)
    ensures Index(k, r, o) <= Index(k, n, k)
  {
    if r < n {
      var d := 2 * k + 1;
      MulMonotone(d, r + 1, n);
      assert d * (r + 1) == d * r + d;
    }
  }

  /** The log of a finished recording, entry by entry: what each holds, under which id, and at what time. */
  lemma LogInClosedForm(k: Kernel, profile: nat, ws: seq<Worker>, n: nat, ls: seq<Label>, r: nat, o: nat)
    requires Quiescent(k) && 0 < |ws| < MAX_TASKS && profile != PROFILE_NONE && !k.trace.replay.active
    requires IsPlace(|ws|, n, r, o) && Index(|ws|, r, o) < BUFFER_CAP && CpuCount(ls) > Index(|ws|, n, |ws|) + 1
    ensures var q := Index(|ws|, r, o);
            var log := Run(RecordStart(k, profile, Scripts(ws, n)), ls).kernel.trace.log;
            q < |log| && log[q] == EventOf(k.trace.nextEventId + q, k.ticks + IrqsBefore(ls, q), FormSig(ws, n, r, o))
  {
    hide RecordStart, TotalEvents, At, Run, Cpus, MoveSig, Traces, RecordsWell, Quiescent, AllQuiet, Scripts, Index, FormSig;
    QuiescentSane(k);
    AtStart(k, profile, ws, n);
    IndexBound(|ws|, n, r, o);
    var m, q := RecordStart(k, profile, Scripts(ws, n)), Index(|ws|, r, o);
    RecordedEvent(k, profile, Scripts(ws, n), ls, q);
    Reaches(m, ws, n, r, o);
    AtSig(Cpus(m, q), ws, n, r, o);
  }

  /** The demo profiles are such workloads. */
  lemma ProfileIsRounds(profile: nat, used: nat)
    ensures ProfileScripts(ATTACK, used) == Scripts([Attack], 16)
    ensures ProfileScripts(SYSLOAD, used) == Scripts([Sysload(0, used), Sysload(1, used), Sysload(2, used)], 32)
    ensures ProfileScripts(LIFECYCLE, used) == Scripts([Lifecycle(0), Lifecycle(1), Lifecycle(2)], 4)
  {
    hide Rounds;
  }

  /** What attack_task traces in round `r`. */
  lemma AttackEvents(k: Kernel, used: nat, ls: seq<Label>, r: nat)
    requires Quiescent(k) && !k.trace.replay.active && CpuCount(ls) > 50 && r < 16
    ensures var log := Run(RecordStart(k, ATTACK, ProfileScripts(ATTACK, used)), ls).kernel.trace.log;
            3 * r + 1 < |log| && SigOf(log[3 * r + 1]) == Sig(2, WORKLOAD, 0x1000 + r, 0x2000 + 4 * r)
  {
    hide Run, RecordStart, Rounds, Scripts, ProfileScripts;
    ProfileIsRounds(ATTACK, used);
    LogInClosedForm(k, ATTACK, [Attack], 16, ls, r, 1);
  }

  /** What sysload_task and lifecycle_child trace in round `r`, in slots 1 to 3. */
  lemma TripleEvents(k: Kernel, used: nat, ls: seq<Label>, r: nat, i: nat)
    requires Quiescent(k) && !k.trace.replay.active && CpuCount(ls) > 228 && i < 3
    ensures r < 32 ==>
              var log := Run(RecordStart(k, SYSLOAD, ProfileScripts(SYSLOAD, used)), ls).kernel.trace.log;
              7 * r + 2 * i + 1 < |log| && SigOf(log[7 * r + 2 * i + 1]) == Sig(i + 2, SCHED, i * 1000 + r, used)
    ensures r < 4 ==>
              var log := Run(RecordStart(k, LIFECYCLE, ProfileScripts(LIFECYCLE, used)), ls).kernel.trace.log;
              7 * r + 2 * i + 1 < |log| && SigOf(log[7 * r + 2 * i + 1]) == Sig(i + 2, WORKLOAD, 0x5000 + i, r)
  {
    hide Run, RecordStart, Rounds, Scripts, ProfileScripts;
    ProfileIsRounds(SYSLOAD, used);
    if r < 32 {
      LogInClosedForm(k, SYSLOAD, [Sysload(0, used), Sysload(1, used), Sysload(2, used)], 32, ls, r, 2 * i + 1);
    }
    if r < 4 {
      LogInClosedForm(k, LIFECYCLE, [Lifecycle(0), Lifecycle(1), Lifecycle(2)], 4, ls, r, 2 * i + 1);
    }
  }
}
