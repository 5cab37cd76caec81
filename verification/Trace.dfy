/** The flight recorder (kernel/trace.c): recording into a bounded buffer, and replay as an
    event-by-event comparison against a loaded log. */
module Trace {
  import opened Bytes
  import opened Events

  const BUFFER_CAP: nat := 4096
  const PROFILE_NONE: nat := 0

  /** `replay_state`, with `replay_buffer[..event_count]` as `log`. */
  datatype Replay = Replay(active: bool, failed: bool, log: seq<Event>, index: nat, virtualTicks: nat)

  /** The recorder, with `buffer[..current_events]` as `log`. */
  datatype TraceState = TraceState(
    recording: bool, profile: nat, nextEventId: nat, log: seq<Event>, startTicks: nat, dropped: nat, replay: Replay)

  // ---- Replay ----

  function Begin(log: seq<Event>, startTicks: nat): Replay
  {
    Replay(true, false, log, 0, startTicks)
  }

  /** The replay branch of trace_record. */
  function Compare(r: Replay, s: Sig): Replay
  {
    if r.index >= |r.log| then
      r.(failed := true)
    else
      var e := r.log[r.index];
      var r1 := r.(virtualTicks := e.timestamp);
      if SigOf(e) != s then r1.(failed := true) else r1.(index := r.index + 1)
  }

  /** trace_replay_end: the replay has succeeded when nothing failed and the log is used up. */
  predicate Succeeded(r: Replay)
  {
    !r.failed && r.index == |r.log|
  }

  function CompareAll(r: Replay, ss: seq<Sig>): Replay
  {
    if |ss| == 0 then r else Compare(CompareAll(r, ss[..|ss| - 1]), ss[|ss| - 1])
  }

  lemma {:induction false} CompareAllPrefix(log: seq<Event>, start: nat, ss: seq<Sig>)
    ensures var r := CompareAll(Begin(log, start), ss);
            r.log == log && r.index <= |log| &&
            (r.failed <==> !(ss <= Sigs(log))) && (!r.failed ==> r.index == |ss|)
  {
    if |ss| > 0 {
      var n := |ss| - 1;
      CompareAllPrefix(log, start, ss[..n]);
      if ss <= Sigs(log) {
        assert ss[..n] <= Sigs(log);
      } else if ss[..n] <= Sigs(log) && n < |log| && ss[n] == Sigs(log)[n] {
        assert false;
      }
    }
  }

  /** The verdict is exact: success if and only if the events emitted are those of the log. */
  lemma VerdictExact(log: seq<Event>, start: nat, ss: seq<Sig>)
    ensures Succeeded(CompareAll(Begin(log, start), ss)) <==> ss == Sigs(log)
  {
    CompareAllPrefix(log, start, ss);
  }

  /** Virtual time is the time of the entry at the cursor when the last event was emitted, whether it matched or not;
      past the end of the log it stands still. */
  lemma VirtualTimeIs(log: seq<Event>, start: nat, ss: seq<Sig>)
    requires |ss| > 0
    ensures var before := CompareAll(Begin(log, start), ss[..|ss| - 1]);
            var after := CompareAll(Begin(log, start), ss);
            after.virtualTicks == if before.index < |log| then log[before.index].timestamp else before.virtualTicks
  {
    CompareAllPrefix(log, start, ss[..|ss| - 1]);
  }

  /** So while nothing has failed, it is the time at which the last event emitted was recorded. */
  lemma ReplayedTime(log: seq<Event>, start: nat, ss: seq<Sig>)
    requires ss <= Sigs(log)
    ensures CompareAll(Begin(log, start), ss).virtualTicks == if |ss| == 0 then start else log[|ss| - 1].timestamp
  {
    if |ss| > 0 {
      CompareAllPrefix(log, start, ss[..|ss| - 1]);
      VirtualTimeIs(log, start, ss);
    }
  }

  ghost predicate Subsequence(a: seq<Sig>, b: seq<Sig>)
  {
    |a| == 0 ||
    (|b| > 0 &&
     ((a[|a| - 1] == b[|b| - 1] && Subsequence(a[..|a| - 1], b[..|b| - 1])) || Subsequence(a, b[..|b| - 1])))
  }

  lemma {:induction false} SubsequenceOfPrefix(a: seq<Sig>, b: seq<Sig>, k: nat)
    requires Subsequence(a, b) && k <= |a|
    ensures Subsequence(a[..k], b)
    decreases |b|
  {
    if k == |a| {
      assert a[..k] == a;
    } else if k > 0 {
      var b1 := b[..|b| - 1];
      if a[|a| - 1] == b[|b| - 1] && Subsequence(a[..|a| - 1], b1) {
        SubsequenceOfPrefix(a[..|a| - 1], b1, k);
        assert a[..|a| - 1][..k] == a[..k];
      } else {
        SubsequenceOfPrefix(a, b1, k);
      }
    }
  }

  lemma {:induction false} GreedyStep(log: seq<Event>, start: nat, ss: seq<Sig>)
    ensures var r := CompareAll(Begin(log, start), ss);
            r.log == log && r.index <= |log| && Subsequence(Sigs(log)[..r.index], ss) &&
            (r.index < |log| ==> !Subsequence(Sigs(log)[..r.index + 1], ss))
  {
    if |ss| > 0 {
      var n := |ss| - 1;
      var all := Sigs(log);
      GreedyStep(log, start, ss[..n]);
      var i := CompareAll(Begin(log, start), ss[..n]).index;
      hide Subsequence;
      OneMoreSig(all, i, ss);
    }
  }

  /** The longest prefix of `all` in `ss`, from the longest in all of `ss` but its last element. */
  lemma OneMoreSig(all: seq<Sig>, i: nat, ss: seq<Sig>)
    requires |ss| > 0 && i <= |all|
    requires Subsequence(all[..i], ss[..|ss| - 1]) && (i < |all| ==> !Subsequence(all[..i + 1], ss[..|ss| - 1]))
    ensures var j := if i < |all| && all[i] == ss[|ss| - 1] then i + 1 else i;
            Subsequence(all[..j], ss) && (j < |all| ==> !Subsequence(all[..j + 1], ss))
  {
    hide Subsequence;
    var before, last := ss[..|ss| - 1], ss[|ss| - 1];
    if i < |all| && all[i] == last {
      assert all[..i + 1][..i] == all[..i];
      SubsequenceMatches(all[..i + 1], ss);
      if i + 2 <= |all| {
        NoLongerSig(all, i, before);
        assert all[..i + 2][..i + 1] == all[..i + 1];
        SubsequenceMatches(all[..i + 2], ss);
      }
    } else {
      SubsequenceGrows(all[..i], ss);
      if i < |all| {
        SubsequenceMisses(all[..i + 1], ss);
      }
    }
  }

  /** The last element of `a` is matched by that of `ss` or by none. */
  lemma SubsequenceMatches(a: seq<Sig>, ss: seq<Sig>)
    requires |a| > 0 && |ss| > 0
    ensures Subsequence(a, ss) ==> Subsequence(a[..|a| - 1], ss[..|ss| - 1]) || Subsequence(a, ss[..|ss| - 1])
    ensures a[|a| - 1] == ss[|ss| - 1] && Subsequence(a[..|a| - 1], ss[..|ss| - 1]) ==> Subsequence(a, ss)
  {
  }

  lemma SubsequenceMisses(a: seq<Sig>, ss: seq<Sig>)
    requires |a| > 0 && |ss| > 0 && a[|a| - 1] != ss[|ss| - 1]
    ensures Subsequence(a, ss) ==> Subsequence(a, ss[..|ss| - 1])
  {
  }

  lemma SubsequenceGrows(a: seq<Sig>, ss: seq<Sig>)
    requires |ss| > 0 && Subsequence(a, ss[..|ss| - 1])
    ensures Subsequence(a, ss)
  {
  }

  lemma NoLongerSig(all: seq<Sig>, i: nat, ss: seq<Sig>)
    requires i + 2 <= |all| && !Subsequence(all[..i + 1], ss)
    ensures !Subsequence(all[..i + 2], ss)
  {
    assert all[..i + 2][..i + 1] == all[..i + 1];
    if Subsequence(all[..i + 2], ss) {
      SubsequenceOfPrefix(all[..i + 2], ss, i + 1);
    }
  }

  /** Even through mismatches, the cursor is the length of the longest prefix of the log that is a
      subsequence of the events emitted so far. */
  lemma CursorIsGreedy(log: seq<Event>, start: nat, ss: seq<Sig>, k: nat)
    requires k <= |log|
    ensures k <= CompareAll(Begin(log, start), ss).index <==> Subsequence(Sigs(log)[..k], ss)
  {
    GreedyStep(log, start, ss);
    var i := CompareAll(Begin(log, start), ss).index;
    var all := Sigs(log);
    if k <= i {
      SubsequenceOfPrefix(all[..i], ss, k);
      assert all[..i][..k] == all[..k];
    } else if Subsequence(all[..k], ss) {
      assert all[..k][..i + 1] == all[..i + 1];
      SubsequenceOfPrefix(all[..k], ss, i + 1);
    }
  }

  // ---- Recording ----

  /** pit_ticks (kernel/pit.c): time is virtual while a replay is active. */
  function PitTicks(t: TraceState, ticks: nat): nat
  {
    if t.replay.active then t.replay.virtualTicks else ticks
  }

  /** trace_record, with the pid already resolved. */
  function Record(t: TraceState, s: Sig, ticks: nat): TraceState
  {
    if t.recording && t.profile != PROFILE_NONE && s.kind == IRQ then
      t
    else
      var t1 := t.(nextEventId := t.nextEventId + 1);
      if t.replay.active then
        t1.(replay := Compare(t.replay, s))
      else if !t.recording then
        t1
      else if |t.log| >= BUFFER_CAP then
        t1.(dropped := t.dropped + 1)
      else
        t1.(log := t.log + [Event(t.nextEventId, ticks, s.pid, s.kind, EVENT_BYTES, s.data0, s.data1)])
  }

  function StartProfile(t: TraceState, profile: nat, ticks: nat): TraceState
  {
    t.(recording := true, log := [], startTicks := PitTicks(t, ticks), profile := profile)
  }

  /** The slot number that the log asks for, if the entry at the cursor is a scheduler event. */
  datatype Expected = NotForced | Forced(next: int)

  /** The cast of a 64-bit value to a 32-bit int: the low half, in two's complement. */
  function AsInt(v: nat): (r: int)
    ensures -0x8000_0000 <= r < 0x8000_0000 && (v - r) % TWO_32 == 0
  {
    var low := v % TWO_32;
    if low < 0x8000_0000 then low else low - TWO_32
  }

  /** trace_replay_expected_next_task: the task index that the log forces, if any. */
  function ForcedNext(t: TraceState): (r: Expected)
    ensures r.Forced? ==> -0x8000_0000 <= r.next < 0x8000_0000 &&
                          exists e :: e in t.replay.log && e.kind == SCHED && (e.data1 - r.next) % TWO_32 == 0
  {
    if !t.replay.active || t.replay.index >= |t.replay.log| then NotForced
    else
      var e := t.replay.log[t.replay.index];
      if e.kind != SCHED then NotForced else Forced(AsInt(e.data1))
  }

  /** What recording keeps about time: contiguous ids, and timestamps that never go back and lie
      between the start of the session and now. */
  ghost predicate Ordered(log: seq<Event>, startTicks: nat)
  {
    (forall i :: 0 <= i < |log| ==> log[i].eventId == log[0].eventId + i && startTicks <= log[i].timestamp) &&
    (forall i, j :: 0 <= i <= j < |log| ==> log[i].timestamp <= log[j].timestamp)
  }

  ghost predicate WellRecorded(t: TraceState, ticks: nat)
  {
    Ordered(t.log, t.startTicks) && t.startTicks <= ticks && |t.log| <= BUFFER_CAP &&
    (0 < |t.log| ==> t.log[|t.log| - 1].timestamp <= ticks) &&
    (0 < |t.log| < BUFFER_CAP ==> t.nextEventId == t.log[0].eventId + |t.log|)
  }

  /** A recording session: events, and timer ticks that only move the clock. */
  datatype Act = Traced(sig: Sig) | TimerTick

  function Session(t: TraceState, ticks: nat, acts: seq<Act>): (TraceState, nat)
    decreases |acts|
  {
    if |acts| == 0 then (t, ticks)
    else
      match acts[0]
      case Traced(s) => Session(Record(t, s, ticks), ticks, acts[1..])
      case TimerTick => Session(t, ticks + 1, acts[1..])
  }

  lemma RecordKeepsOrder(t: TraceState, s: Sig, ticks: nat)
    requires WellRecorded(t, ticks) && !t.replay.active && t.recording
    ensures WellRecorded(Record(t, s, ticks), ticks)
    ensures Record(t, s, ticks).recording && !Record(t, s, ticks).replay.active
  {
  }

  lemma {:induction false} SessionKeepsOrder(t: TraceState, ticks: nat, acts: seq<Act>)
    requires WellRecorded(t, ticks) && !t.replay.active && t.recording
    ensures var (u, now) := Session(t, ticks, acts); WellRecorded(u, now) && ticks <= now && u.startTicks == t.startTicks
    decreases |acts|
  {
    if |acts| > 0 {
      match acts[0] {
        case Traced(s) =>
          RecordKeepsOrder(t, s, ticks);
          SessionKeepsOrder(Record(t, s, ticks), ticks, acts[1..]);
        case TimerTick =>
          SessionKeepsOrder(t, ticks + 1, acts[1..]);
      }
    }
  }

  lemma {:induction false} VirtualTimeBounded(log: seq<Event>, start: nat, ss: seq<Sig>)
    requires Ordered(log, start)
    ensures var r := CompareAll(Begin(log, start), ss);
            r.log == log && r.index <= |log| && start <= r.virtualTicks &&
            (forall i :: r.index <= i < |log| ==> r.virtualTicks <= log[i].timestamp)
  {
    if |ss| > 0 {
      VirtualTimeBounded(log, start, ss[..|ss| - 1]);
    }
  }

  /** Replaying an ordered log never moves virtual time back, whatever is emitted and whatever fails. */
  lemma {:induction false} VirtualTimeMonotone(log: seq<Event>, start: nat, ss: seq<Sig>, n: nat)
    requires Ordered(log, start) && n <= |ss|
    ensures start <= CompareAll(Begin(log, start), ss[..n]).virtualTicks
            <= CompareAll(Begin(log, start), ss).virtualTicks
    decreases |ss|
  {
    VirtualTimeBounded(log, start, ss[..n]);
    if n == |ss| {
      assert ss[..n] == ss;
    } else {
      var m := |ss| - 1;
      VirtualTimeMonotone(log, start, ss[..m], n);
      assert ss[..m][..n] == ss[..n];
      VirtualTimeBounded(log, start, ss[..m]);
    }
  }

  /** Every session that starts a fresh recording produces a log whose replay has monotone time. */
  lemma RecordedSessionReplaysInOrder(t: TraceState, profile: nat, ticks: nat, acts: seq<Act>, ss: seq<Sig>, n: nat)
    requires !t.replay.active && n <= |ss|
    ensures var u := Session(StartProfile(t, profile, ticks), ticks, acts).0;
            Ordered(u.log, u.startTicks) && u.startTicks == ticks &&
            CompareAll(Begin(u.log, u.startTicks), ss[..n]).virtualTicks
            <= CompareAll(Begin(u.log, u.startTicks), ss).virtualTicks
  {
    var t0 := StartProfile(t, profile, ticks);
    SessionKeepsOrder(t0, ticks, acts);
    var u := Session(t0, ticks, acts).0;
    VirtualTimeMonotone(u.log, u.startTicks, ss, n);
  }

  // ---- The recorder as the kernel keeps it ----

  class Recorder {
    var recording: bool
    var profile: nat
    var nextEventId: nat
    const buffer: array<Event>
    var currentEvents: nat
    var startTicks: nat
    var dropped: nat

    var replayActive: bool
    var replayFailed: bool
    const replayBuffer: array<Event>
    var eventCount: nat
    var eventIndex: nat
    var virtualTicks: nat

    ghost predicate Valid()
      reads this
    {
      buffer.Length == BUFFER_CAP && replayBuffer.Length == BUFFER_CAP && buffer != replayBuffer &&
      currentEvents <= BUFFER_CAP && eventCount <= BUFFER_CAP
    }

    ghost function View(): TraceState
      requires Valid()
      reads this, buffer, replayBuffer
    {
      TraceState(recording, profile, nextEventId, buffer[..currentEvents], startTicks, dropped,
                 Replay(replayActive, replayFailed, replayBuffer[..eventCount], eventIndex, virtualTicks))
    }

    constructor ()
      ensures Valid() && fresh(buffer) && fresh(replayBuffer)
      ensures View() == TraceState(false, PROFILE_NONE, 1, [], 0, 0, Replay(false, false, [], 0, 0))
    {
      recording, profile, nextEventId, currentEvents, startTicks, dropped := false, PROFILE_NONE, 1, 0, 0, 0;
      replayActive, replayFailed, eventCount, eventIndex, virtualTicks := false, false, 0, 0, 0;
      var blank := Event(0, 0, 0, 0, 0, 0, 0);
      buffer := new Event[BUFFER_CAP](_ => blank);
      replayBuffer := new Event[BUFFER_CAP](_ => blank);
    }

    method CurrentTicks(ticks: nat) returns (now: nat)
      requires Valid()
      ensures now == PitTicks(View(), ticks)
    {
      now := if replayActive then virtualTicks else ticks;
    }

    /** trace_record. A zero `pid` stands for the running task's. */
    method Emit(kind: nat, pid: nat, data0: nat, data1: nat, currentPid: nat, ticks: nat)
      requires Valid()
      modifies this, buffer
      ensures Valid()
      ensures View() == Record(old(View()), Sig(if pid == 0 then currentPid else pid, kind, data0, data1), ticks)
    {
      var p := if pid == 0 then currentPid else pid;
      if recording && profile != PROFILE_NONE && kind == IRQ {
        return;
      }
      var now := CurrentTicks(ticks);
      var event := Event(nextEventId, now, p, kind, EVENT_BYTES, data0, data1);
      nextEventId := nextEventId + 1;
      if replayActive {
        if eventIndex >= eventCount {
          replayFailed := true;
          return;
        }
        var expected := replayBuffer[eventIndex];
        virtualTicks := expected.timestamp;
        if event.pid != expected.pid || event.kind != expected.kind ||
           event.data0 != expected.data0 || event.data1 != expected.data1 {
          replayFailed := true;
          return;
        }
        eventIndex := eventIndex + 1;
        return;
      }
      if !recording {
        return;
      }
      if currentEvents >= BUFFER_CAP {
        dropped := dropped + 1;
        return;
      }
      buffer[currentEvents] := event;
      currentEvents := currentEvents + 1;
    }

    method Start(newProfile: nat, ticks: nat)
      requires Valid()
      modifies this
      ensures Valid() && View() == StartProfile(old(View()), newProfile, ticks)
    {
      recording := true;
      currentEvents := 0;
      startTicks := CurrentTicks(ticks);
      profile := newProfile;
    }

    method ExpectedNextTask() returns (next: Expected)
      requires Valid()
      ensures next == ForcedNext(View())
    {
      if !replayActive || eventIndex >= eventCount {
        return NotForced;
      }
      var event := replayBuffer[eventIndex];
      if event.kind != SCHED {
        return NotForced;
      }
      next := Forced(AsInt(event.data1));
    }

    /** trace_replay_end: the verdict, and the end of virtual time. Without a replay it does nothing. */
    method End() returns (ok: bool)
      requires Valid()
      modifies this
      ensures Valid()
      ensures ok == (old(replayActive) && Succeeded(old(View()).replay))
      ensures View() == if !old(replayActive) then old(View())
                        else old(View()).(replay := old(View()).replay.(active := false, failed := !ok))
    {
      if !replayActive {
        return false;
      }
      if !replayFailed && eventIndex != eventCount {
        replayFailed := true;
      }
      ok := !replayFailed;
      replayActive := false;
    }
  }
}
