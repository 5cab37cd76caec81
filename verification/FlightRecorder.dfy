/** The flight recorder from end to end: record a workload, save the session, go on writing sessions,
    reboot, read the session back and replay it ("demo record" and "demo replay" in kernel/shell.c). */
module FlightRecorder {
  import opened Bytes
  import Events
  import Trace
  import Fs
  import FreshDisk
  import Sched
  import Machine = Replay
  import Workload
  import Sizes
  import Sessions
  import Afterwards
  import Lifecycle
  import Memory

  /** A workload and the states it is recorded and replayed from; `ls` interleaves its steps with interrupts. */
  datatype Demo = Demo(record: Sched.Kernel, replay: Sched.Kernel, profile: nat, scripts: seq<Machine.Script>,
                       ls: seq<Machine.Label>)

  /** At most seven workers whose events fit the buffer, recorded to the end. */
  ghost predicate Ready(d: Demo)
  {
    Workload.Quiescent(d.record) && !d.record.trace.replay.active &&
    Workload.Quiescent(d.replay) && d.replay.tasks[0] == d.record.tasks[0] &&
    |d.scripts| < Sched.MAX_TASKS && d.profile != Trace.PROFILE_NONE && Machine.AllQuiet(d.scripts) &&
    Workload.TotalEvents(d.scripts) <= Trace.BUFFER_CAP && Machine.CpuCount(d.ls) > Workload.TotalEvents(d.scripts)
  }

  /** Nothing wraps: the scripts, the event ids and the ticks up to `ticks`, when the recording is stopped. */
  ghost predicate Bounded(d: Demo, ticks: nat)
  {
    Sizes.SizedScripts(d.scripts) && d.profile < TWO_32 &&
    d.record.trace.nextEventId + Workload.TotalEvents(d.scripts) < TWO_64 &&
    d.record.ticks + Sizes.IrqCount(d.ls) <= ticks < TWO_64
  }

  /** What the recording leaves in the recorder. */
  ghost function Recorded(d: Demo): (t: Trace.TraceState)
    requires Ready(d)
    ensures |t.log| == Workload.TotalEvents(d.scripts) && t.dropped == d.record.trace.dropped
    ensures t.profile == d.profile
  {
    Sizes.RecordingKeepsProfile(d.record, d.profile, d.scripts, d.ls);
    Workload.RecordingTerminates(d.record, d.profile, d.scripts, d.ls);
    Workload.RecordedLength(d.record, d.profile, d.scripts, d.ls);
    Machine.Run(Workload.RecordStart(d.record, d.profile, d.scripts), d.ls).kernel.trace
  }

  /** It fits the fields of a stored session. */
  lemma RecordedSaveable(d: Demo, ticks: nat)
    requires Ready(d) && Bounded(d, ticks)
    ensures Sessions.Saveable(Recorded(d), ticks)
  {
    Sizes.RecordingFits(d.record, d.profile, d.scripts, d.ls);
  }

  ghost function InfoAt(t: Trace.TraceState, ticks: nat): Fs.Info
    requires t.startTicks <= ticks
  {
    Fs.Info(t.profile, t.startTicks, ticks - t.startTicks, |t.log|, Events.HashLog(t.log))
  }

  /** The write in trace_stop, at time `ticks`. */
  ghost function Save(s: Fs.FsState, t: Trace.TraceState, ticks: nat, outs: nat -> Fs.Outcome): (r: (bool, Fs.FsState))
    requires Fs.Inv(s) && Sessions.Saveable(t, ticks) && |t.log| <= Trace.BUFFER_CAP
    ensures Fs.Inv(r.1)
    ensures r.0 ==> Fs.OnDisk(r.1) && Sessions.Saved(r.1, s.sb.nextSession, t.log, t.profile, t.startTicks, ticks - t.startTicks)
  {
    Sessions.StopSaves(s, t.log, InfoAt(t, ticks), outs);
    Fs.WriteSession(s, Events.EncodeLog(t.log), InfoAt(t, ticks), outs)
  }

  /** Recording and saving. */
  ghost function SaveDemo(d: Demo, s: Fs.FsState, ticks: nat, outs: nat -> Fs.Outcome): (r: (bool, Fs.FsState))
    requires Ready(d) && Bounded(d, ticks) && Fs.Inv(s)
    ensures Fs.Inv(r.1)
    ensures r.0 ==> Fs.OnDisk(r.1)
  {
    RecordedSaveable(d, ticks);
    Save(s, Recorded(d), ticks, outs)
  }

  /** The stored session names the profile, passes its integrity check and replays the workload without divergence; given as many
      steps as the recording, the replay ends, and it ends with success. */
  ghost predicate Replays(c: Fs.Content, d: Demo, ls: seq<Machine.Label>)
    requires Ready(d)
  {
    c.Content? && c.node.profile == d.profile && Events.HashLog(Events.DecodeLog(c.bytes)) == c.node.hash &&
    var p := Machine.Run(Workload.ReplayStart(d.replay, Events.DecodeLog(c.bytes), c.node.created, d.scripts), ls);
    !p.wild && !p.kernel.trace.replay.failed && (p.finished ==> Trace.Succeeded(p.kernel.trace.replay)) &&
    (Machine.CpuCount(ls) >= Machine.CpuCount(d.ls) ==> p.finished)
  }

  lemma SavedSessionReplays(s: Fs.FsState, id: nat, d: Demo, duration: nat, ls: seq<Machine.Label>)
    requires Ready(d)
    requires var t := Recorded(d); Sessions.Saved(s, id, t.log, t.profile, t.startTicks, duration)
    ensures Replays(Fs.SessionAt(s, id), d, ls)
  {
    Workload.RecordingTerminates(d.record, d.profile, d.scripts, d.ls);
    Workload.DeterministicReplay(d.record, d.profile, d.scripts, d.ls, d.replay, ls);
    Events.LogRoundTrip(Recorded(d).log);
  }

  lemma SaveKeepsSeeds(d: Demo, s: Fs.FsState, ticks: nat, outs: nat -> Fs.Outcome, seeds: seq<Fs.Seed>)
    requires Ready(d) && Bounded(d, ticks) && Fs.Inv(s) && Fs.Seeded(s.inodes, seeds)
    ensures Fs.Seeded(SaveDemo(d, s, ticks, outs).1.inodes, seeds)
  {
    assert |Recorded(d).log| <= Trace.BUFFER_CAP;
    RecordedSaveable(d, ticks);
    hide Ready, Bounded, Recorded, Sessions.Saveable, Save, Fs.Inv, Fs.Seeded;
    AnySaveKeepsSeeds(s, Recorded(d), ticks, outs, seeds);
  }

  lemma AnySaveKeepsSeeds(s: Fs.FsState, t: Trace.TraceState, ticks: nat, outs: nat -> Fs.Outcome, seeds: seq<Fs.Seed>)
    requires Fs.Inv(s) && Sessions.Saveable(t, ticks) && |t.log| <= Trace.BUFFER_CAP && Fs.Seeded(s.inodes, seeds)
    ensures Fs.Seeded(Save(s, t, ticks, outs).1.inodes, seeds)
  {
    hide Events.EncodeLog, Events.HashLog, Fs.WriteSession, Fs.Seeded, Fs.Tiled, Fs.Numbered;
    Sessions.StopSaves(s, t.log, InfoAt(t, ticks), outs);
    FreshDisk.WriteKeepsSeeds(s, Events.EncodeLog(t.log), InfoAt(t, ticks), outs, seeds);
  }

  /** A workload that fits the buffer, recorded and saved, replays without divergence and to the end: at once,
      after any further session writes, whatever fails in them, and after a reboot that follows a successful one. */
  lemma {:induction false} RecordSaveRebootReplay(
    d: Demo, s: Fs.FsState, ticks: nat, outs: nat -> Fs.Outcome, jobs: seq<Fs.Job>, seeds: seq<Fs.Seed>,
    mountOuts: nat -> Fs.Outcome, loads: nat -> bool, ls: seq<Machine.Label>)
    requires Ready(d) && Bounded(d, ticks) && Fs.Inv(s) && SaveDemo(d, s, ticks, outs).0
    requires (forall n :: 0 <= n < |jobs| ==> Fs.JobFits(jobs[n])) && Fs.SeedsFit(seeds)
    ensures var id := s.sb.nextSession;
            var s1 := SaveDemo(d, s, ticks, outs).1;
            var s2 := Fs.RunJobs(s1, jobs);
            Replays(Fs.SessionAt(s1, id), d, ls) && Replays(Fs.SessionAt(s2, id), d, ls) && Fs.Inv(s2) &&
            (Fs.OnDisk(s2) && Fs.Seeded(s.inodes, seeds) && loads(0) ==>
               Replays(Fs.SessionAt(Fs.Mount(s2.disk, seeds, mountOuts, loads), id), d, ls))
  {
    hide Ready, Bounded, Recorded, SaveDemo, Sessions.Saved, Replays, Fs.SessionAt, Fs.OnDisk, Fs.Mount, Fs.Seeded;
    var t, id := Recorded(d), s.sb.nextSession;
    var s1 := SaveDemo(d, s, ticks, outs).1;
    var s2 := Fs.RunJobs(s1, jobs);
    DemoSaved(d, s, ticks, outs);
    var duration := ticks - t.startTicks;
    Sessions.SavedSurvives(s1, jobs, seeds, mountOuts, loads, id, t.log, t.profile, t.startTicks, duration);
    SavedSessionReplays(s1, id, d, duration, ls);
    SavedSessionReplays(s2, id, d, duration, ls);
    if Fs.OnDisk(s2) && Fs.Seeded(s.inodes, seeds) && loads(0) {
      SaveKeepsSeeds(d, s, ticks, outs, seeds);
      FreshDisk.RunKeepsSeeds(s1, jobs, seeds);
      SavedSessionReplays(Fs.Mount(s2.disk, seeds, mountOuts, loads), id, d, duration, ls);
    }
  }

  lemma DemoSaved(d: Demo, s: Fs.FsState, ticks: nat, outs: nat -> Fs.Outcome)
    requires Ready(d) && Bounded(d, ticks) && Fs.Inv(s) && SaveDemo(d, s, ticks, outs).0
    ensures var t := Recorded(d);
            t.startTicks <= ticks &&
            Sessions.Saved(SaveDemo(d, s, ticks, outs).1, s.sb.nextSession, t.log, t.profile, t.startTicks, ticks - t.startTicks)
  {
    RecordedSaveable(d, ticks);
    hide Recorded, Ready, Bounded, Save, Sessions.Saved, Fs.Inv;
  }

  /** The save succeeds exactly when the disk has room for the events, a free inode, and stores every write. */
  lemma SaveSucceeds(d: Demo, s: Fs.FsState, ticks: nat, outs: nat -> Fs.Outcome)
    requires Ready(d) && Bounded(d, ticks) && Fs.Inv(s)
    ensures var n := Fs.SectorsFor(Events.EVENT_BYTES * Workload.TotalEvents(d.scripts));
            SaveDemo(d, s, ticks, outs).0 <==>
            s.online && s.sb.nextFree + n <= Fs.FS_END &&
            (exists i :: 0 <= i < Fs.MAX_INODES && s.inodes[i].used == 0) &&
            forall j: nat :: j < n + 2 ==> outs(j).Stored?
  {
    RecordedSaveable(d, ticks);
    var t := Recorded(d);
    var info := InfoAt(t, ticks);
    Sessions.StopSaves(s, t.log, info, outs);
    hide Ready, Bounded, Recorded, Events.EncodeLog, Events.HashLog, Fs.WriteSession, Fs.SectorsFor, Fs.Tiled, Fs.Numbered;
    Fs.WriteSucceeds(s, Events.EncodeLog(t.log), info, outs);
  }

  // ---- From boot ----

  /** One of the three demo profiles, recorded after one boot and replayed after another. */
  ghost function BootedDemo(profile: nat, used: nat, m: Memory.Mem, cr3: nat, m': Memory.Mem, cr3': nat,
                            ls: seq<Machine.Label>): Demo
  {
    Demo(Lifecycle.Boot(m, cr3).kernel, Lifecycle.Boot(m', cr3').kernel, profile,
         Workload.ProfileScripts(profile, used), ls)
  }

  ghost predicate IsProfile(profile: nat)
  {
    profile == Workload.ATTACK || profile == Workload.SYSLOAD || profile == Workload.LIFECYCLE
  }

  lemma BootedReady(profile: nat, used: nat, m: Memory.Mem, cr3: nat, m': Memory.Mem, cr3': nat,
                    ls: seq<Machine.Label>, ticks: nat)
    requires IsProfile(profile) && used < TWO_64
    requires Machine.CpuCount(ls) > Workload.TotalEvents(Workload.ProfileScripts(profile, used))
    requires Sizes.IrqCount(ls) <= ticks < TWO_64
    ensures var d := BootedDemo(profile, used, m, cr3, m', cr3', ls);
            Ready(d) && Bounded(d, ticks) && Workload.TotalEvents(d.scripts) <= 228
  {
    Workload.ProfileTotals(profile, used);
    Sizes.ProfilesSized(profile, used);
    hide Workload.ProfileScripts, Workload.TotalEvents, Workload.Quiescent, Sizes.SizedScripts;
    Afterwards.BootQuiescent(m, cr3);
    Afterwards.BootQuiescent(m', cr3');
    BootShell(m, cr3, m', cr3');
  }

  lemma BootShell(m: Memory.Mem, cr3: nat, m': Memory.Mem, cr3': nat)
    ensures var k := Lifecycle.Boot(m, cr3).kernel;
            k.tasks[0] == Lifecycle.Boot(m', cr3').kernel.tasks[0] && k.trace.nextEventId == 1 && k.ticks == 0
  {
  }

  /** From boot: with a blank disk that stores what it is given, record any demo profile, with timer interrupts
      anywhere, long enough for the recording to finish (228 steps and one more are enough for every profile); stop it
      at any later time; boot again, whatever writes fail then; replay the workload of the stored profile, with
      interrupts anywhere and as many steps. The replay ends with success. */
  lemma BootRecordBootReplay(profile: nat, used: nat, m: Memory.Mem, cr3: nat, m': Memory.Mem, cr3': nat,
                             seeds: seq<Fs.Seed>, outs: nat -> Fs.Outcome, outs': nat -> Fs.Outcome, loads: nat -> bool,
                             ls: seq<Machine.Label>, ticks: nat, ls': seq<Machine.Label>)
    requires IsProfile(profile) && used < TWO_64 && FreshDisk.SmallSeeds(seeds) && FreshDisk.AllStored(outs)
    requires loads(0) && loads(1)
    requires Machine.CpuCount(ls') >= Machine.CpuCount(ls) > Workload.TotalEvents(Workload.ProfileScripts(profile, used))
    requires Sizes.IrqCount(ls) <= ticks < TWO_64
    ensures var d := BootedDemo(profile, used, m, cr3, m', cr3', ls);
            Fs.SeedsFit(seeds) && Ready(d) && Bounded(d, ticks) &&
            var s := Fs.Mount(map[], seeds, outs, loads);
            Fs.Inv(s) &&
            var (ok, s1) := SaveDemo(d, s, ticks, outs);
            var c := Fs.SessionAt(Fs.Mount(s1.disk, seeds, outs', loads), 1);
            ok && c.Content? &&
            var ws := Workload.ProfileScripts(c.node.profile, used);
            var p := Machine.Run(Workload.ReplayStart(d.replay, Events.DecodeLog(c.bytes), c.node.created, ws), ls');
            p.finished && Trace.Succeeded(p.kernel.trace.replay)
  {
    var d := BootedDemo(profile, used, m, cr3, m', cr3', ls);
    BootedReady(profile, used, m, cr3, m', cr3', ls, ticks);
    FreshDisk.FreshMount(seeds, outs, loads);
    var s := Fs.Mount(map[], seeds, outs, loads);
    FreshSaves(d, s, |seeds|, ticks, outs);
    FreshDisk.FirstSession(seeds, outs, loads);
    hide Ready, Bounded, Fs.Mount, Fs.SessionAt, SaveDemo, Fs.OnDisk, FreshDisk.Roomy, Fs.Seeded, Fs.SeedsFit;
    hide Lifecycle.Boot, Workload.ProfileScripts;
    RecordSaveRebootReplay(d, s, ticks, outs, [], seeds, outs', loads, ls');
  }

  /** On a fresh disk the save succeeds. */
  lemma FreshSaves(d: Demo, s: Fs.FsState, n: nat, ticks: nat, outs: nat -> Fs.Outcome)
    requires Ready(d) && Bounded(d, ticks) && Workload.TotalEvents(d.scripts) <= 228
    requires FreshDisk.AllStored(outs) && n < Fs.MAX_INODES && FreshDisk.Roomy(s, n)
    ensures SaveDemo(d, s, ticks, outs).0
  {
    assert s.inodes[n].used == 0;
    hide SaveDemo, Ready, Bounded, Workload.TotalEvents, Fs.Inv, Fs.SectorsFor;
    SaveSucceeds(d, s, ticks, outs);
    FewSectors(Workload.TotalEvents(d.scripts));
  }

  lemma FewSectors(n: nat)
    requires n <= 228
    ensures Fs.SectorsFor(Events.EVENT_BYTES * n) <= 18
  {
  }
}
