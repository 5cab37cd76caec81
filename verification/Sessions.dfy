/** From the recorder's buffer to the disk and back (trace_stop, trace_replay_session and
    trace_replay_begin in kernel/trace.c). */
module Sessions {
  import opened Bytes
  import opened Events
  import opened Trace
  import opened Fs

  /** The stored session `id` is this log, with this hash, these times and this duration. */
  ghost predicate Saved(s: FsState, id: nat, log: seq<Event>, profile: nat, startTicks: nat, duration: nat)
  {
    var c := SessionAt(s, id);
    c.Content? && c.bytes == EncodeLog(log) && AllSized(log) && |log| <= BUFFER_CAP &&
    c.node.hash == HashLog(log) && c.node.events == |log| && c.node.profile == profile && c.node.created == startTicks &&
    c.node.duration == duration
  }

  /** The recorder's values fit the fields of a stored session. */
  ghost predicate Saveable(t: TraceState, ticks: nat)
  {
    AllSized(t.log) && t.profile < TWO_32 && t.startTicks <= ticks < TWO_64
  }

  /** What the write in trace_stop achieves. */
  lemma {:induction false} StopSaves(s: FsState, log: seq<Event>, info: Info, outs: nat -> Outcome)
    requires Inv(s) && AllSized(log) && |log| <= BUFFER_CAP && InfoFits(info)
    requires info.hash == HashLog(log) && info.events == |log|
    ensures s.sb.nextSession + 1 < TWO_32
    ensures var (ok, t) := WriteSession(s, EncodeLog(log), info, outs);
            Inv(t) &&
            (ok ==> OnDisk(t) && Saved(t, s.sb.nextSession, log, info.profile, info.start, info.duration)) &&
            forall other: nat :: other < s.sb.nextSession ==> SessionAt(t, other) == SessionAt(s, other)
  {
    var data := EncodeLog(log);
    JobStep(s, Job(data, info, outs));
    hide WriteSession, HashLog, EncodeLog, Inv;
    var (ok, t) := WriteSession(s, data, info, outs);
    if ok {
      SuccessIsOnDisk(s, data, info, outs);
      SessionsAfterWrite(s, data, info, outs, s.sb.nextSession);
    }
    forall other: nat | other < s.sb.nextSession
      ensures SessionAt(t, other) == SessionAt(s, other)
    {
      SessionsAfterWrite(s, data, info, outs, other);
    }
  }

  /** trace_stop. Outside replay, so that pit_ticks is the hardware's. */
  method StopRecording(rec: Recorder, fs: TraceFs, ticks: nat, outs: nat -> Outcome) returns (saved: bool, id: nat)
    requires rec.Valid() && !rec.replayActive && Saveable(rec.View(), ticks) && Inv(fs.View())
    modifies rec, fs
    ensures rec.Valid() && rec.View() == old(rec.View()).(recording := false)
    ensures Inv(fs.View())
    ensures saved ==> id == old(fs.sb.nextSession) && OnDisk(fs.View()) &&
                      Saved(fs.View(), id, old(rec.View()).log, old(rec.profile), old(rec.startTicks),
                            ticks - old(rec.startTicks))
    ensures forall other: nat :: other < old(fs.sb.nextSession) ==>
              SessionAt(fs.View(), other) == SessionAt(old(fs.View()), other)
  {
    hide WriteSession, HashLog, EncodeLog, SessionAt, Saved, Tiled, Numbered, OnDisk;
    rec.recording := false;
    var hash := HashEvents(rec.buffer, rec.currentEvents);
    var log := rec.buffer[..rec.currentEvents];
    var info := Info(rec.profile, rec.startTicks, ticks - rec.startTicks, rec.currentEvents, hash);
    StopSaves(fs.View(), log, info, outs);
    saved, id := fs.WriteTraceSession(EncodeLog(log), info, outs);
  }

  /** trace_replay_begin: the cursor at the start of the events read back. */
  method BeginReplay(rec: Recorder, fs: TraceFs, id: nat, readable: nat -> bool) returns (ok: bool)
    requires rec.Valid() && Inv(fs.View())
    requires SessionAt(fs.View(), id).Content? ==> |SessionAt(fs.View(), id).bytes| <= BUFFER_CAP * EVENT_BYTES
    modifies rec, rec.replayBuffer
    ensures rec.Valid()
    ensures ok ==> SessionAt(fs.View(), id).Content? &&
                   rec.View() == old(rec.View()).(nextEventId := 1,
                     replay := Begin(DecodeLog(SessionAt(fs.View(), id).bytes), SessionAt(fs.View(), id).node.created))
    ensures !ok ==> rec.View() == old(rec.View())
  {
    hide Tiled, Numbered, FileBytes, DecodeLog;
    var bytes;
    ok, bytes := fs.ReadTraceSession(id, readable);
    if !ok {
      return;
    }
    var i := fs.FindSession(id);
    var events := DecodeLog(bytes);
    forall k | 0 <= k < |events| {
      rec.replayBuffer[k] := events[k];
    }
    rec.replayActive, rec.replayFailed := true, false;
    rec.eventCount, rec.eventIndex := |bytes| / EVENT_BYTES, 0;
    rec.virtualTicks := fs.inodes[i].created;
    rec.nextEventId := 1;
    assert rec.replayBuffer[..rec.eventCount] == events;
  }

  /** What was saved is what a replay starts from. */
  lemma SavedReplays(s: FsState, id: nat, log: seq<Event>, profile: nat, startTicks: nat, duration: nat)
    requires Saved(s, id, log, profile, startTicks, duration)
    ensures var c := SessionAt(s, id);
            |c.bytes| <= BUFFER_CAP * EVENT_BYTES && Begin(DecodeLog(c.bytes), c.node.created) == Begin(log, startTicks)
  {
    LogRoundTrip(log);
  }

  /** trace_replay_session: a saved session read back always hashes to its stored hash. */
  method CheckSession(fs: TraceFs, id: nat, readable: nat -> bool) returns (found: bool, matches: bool)
    requires Inv(fs.View())
    ensures found ==> SessionAt(fs.View(), id).Content? &&
                      (matches <==> HashLog(DecodeLog(SessionAt(fs.View(), id).bytes)) == SessionAt(fs.View(), id).node.hash)
    ensures forall log, profile, startTicks, duration ::
              found && Saved(fs.View(), id, log, profile, startTicks, duration) ==> matches
  {
    var bytes;
    found, bytes := fs.ReadTraceSession(id, readable);
    matches := false;
    if found {
      var i := fs.FindSession(id);
      var events := DecodeLog(bytes);
      var buffer := new Event[|events|](k requires 0 <= k < |events| => events[k]);
      assert buffer[..|events|] == events;
      var hash := HashEvents(buffer, |events|);
      matches := hash == fs.inodes[i].hash;
      forall log, profile, startTicks, duration | Saved(fs.View(), id, log, profile, startTicks, duration)
        ensures matches
      {
        LogRoundTrip(log);
      }
    }
  }

  /** Later session writes, whatever fails, and a reboot after a successful one leave a saved session saved. */
  lemma SavedSurvives(s: FsState, jobs: seq<Job>, seeds: seq<Seed>, outs: nat -> Outcome, loads: nat -> bool,
                      id: nat, log: seq<Event>, profile: nat, startTicks: nat, duration: nat)
    requires Inv(s) && (forall k :: 0 <= k < |jobs| ==> JobFits(jobs[k])) && SeedsFit(seeds)
    requires Saved(s, id, log, profile, startTicks, duration)
    ensures var t := RunJobs(s, jobs);
            Inv(t) && Saved(t, id, log, profile, startTicks, duration) &&
            (OnDisk(t) && Seeded(t.inodes, seeds) && loads(0) ==>
               Saved(Mount(t.disk, seeds, outs, loads), id, log, profile, startTicks, duration))
  {
    SessionIdBelow(s, id);
    RunJobsKeeps(s, jobs, id);
    var t := RunJobs(s, jobs);
    if OnDisk(t) && Seeded(t.inodes, seeds) && loads(0) {
      RebootPreserves(t, seeds, outs, loads, id);
    }
  }

  lemma SessionIdBelow(s: FsState, id: nat)
    requires Inv(s) && SessionAt(s, id).Content?
    ensures id < s.sb.nextSession
  {
  }
}
