# A model of the BumbelBee kernel

BumbelBee is a small single-core kernel built around a flight recorder: it records what its cooperative
scheduler and its workloads do, keeps the recordings in a small filesystem, and replays them. This project
models the parts that carry that promise, and proves it.

| modules | source | what they model |
|---|---|---|
| Events, Trace, Layout | kernel/trace.c, kernel/fs.c | events and their byte image, the sequence hash, the recorder and the comparison during replay; the offsets of all stored fields |
| Sched, Lifecycle, Effects | kernel/sched.c, kernel/builtin_exec.c, kernel/aspace.c | the eight slots of the scheduler, spawning, yielding and ending; whole runs of these with address spaces; when single operations succeed and what they leave |
| Replay, Workload, RecordedLog, RoundLog, Sysload, RingDemo, Sizes | kernel/workload.c, kernel/shell.c, kernel/builtin_exec.c | workloads as finite scripts, the kernel as a step machine, recording and replaying them; what a log contains, event by event |
| Afterwards | kernel/shell.c, kernel/sched.c | what a finished recording or replay leaves behind |
| Fs, FreshDisk, Sessions, FlightRecorder | kernel/fs.c, kernel/trace.c | the extent store over an unreliable disk; stopping, checking and beginning a replay; the whole way from recording to replay |
| Memory, Paging, Aspace | kernel/memory.c, kernel/aspace.c | physical frames, the four-level walk, the table of address spaces and writes through it |
| Elf, ElfImages, Loader | kernel/elf.c, kernel/fs.c, kernel/builtin_exec.c | the parser, images laid out field by field, and the load sequence |
| Coalescing, Netfs | kernel/netfs.c, kernel/power.c | batching of key presses and packets by power mode |
| Paths | kernel/vfs.c | printing and parsing session paths |
| Bytes | | little-endian numbers |

Each mutable part of the kernel is a class (`Recorder`, `Scheduler`, `AddressSpaces`, `TraceFs`,
`PowerManager`, `NetDevice`) whose methods are proved against functions on a value, its `View()`; the
lemmas about runs are about those functions.

Conventions. Interrupt handlers are atomic steps between kernel operations. Counters, ids and ticks are
natural numbers, so they are assumed not to wrap; where the source's 32- or 64-bit arithmetic matters
(hash, sector rounding, path parsing, ELF ends, casts in the loader) it is written out. The disk maps
sector numbers to 512 bytes and a failed write may leave anything in the sectors it was aimed at: which
writes fail, and what they leave, is a parameter (`outs`). Which sectors can be read, the time, and the
memory in use are parameters too. A context switch is a change of the current slot and of the page-table root.

Where code and intention part, first what can happen:

- A sysload session carries `memory_used_bytes` in events of the type of scheduler events. When the number has
  changed, the replay fails at the first of them and then takes the recorded number for a slot: with any number
  of whole pages whose low half is a positive int, `switch_to` leaves the table (`Sysload.SysloadReplay`).
  `ring3demo` takes nine pages and gives none back, so one run of it before the recording and one between recording
  and replay are enough (`RingDemo.DemoRecordDemoReplay`).
- With no memory in use at the recording, one run of `ring3demo` before the replay is enough for the following: the
  number is then slot 0, and the replay stops at once, diverged, with all three workers alive and counted as active.
  They go on when the shell is idle, but a demo command that comes before they are done starts from a kernel that is
  not quiescent, and its workers get the pids of those that are still alive (`Sysload.SysloadLeaves`,
  `RingDemo.RecordDemoReplay`).
- A boot that cannot read the tables formats the disk and loses every session (`Fs.RebootExact`).

And what no caller in the repository can bring about:

- `elf_parse_image` uses 0 both for "no segment yet" and for an address, so a PT_LOAD at address 0 makes it
  forget what it has seen (`Elf.FirstIsLowest`, `Elf.ForgetsZero`), and it accepts an image whose program headers
  are placed beyond it by a sum that wraps (`Elf.HeadersInside`, `Elf.AcceptsOutside`). The only images are the
  kernel's own, which have one segment at a nonzero address and no such sum.
- Performance mode counts the bytes of a payload beyond the 256 that a packet carries, batching does not
  (`Coalescing.BatchingRefinesImmediate`, `Coalescing.LongPayloadDiffers`). The shell's line has 128 characters
  and the file interface passes on at most 256.
- `sched_task_set_aspace` on a zombie takes a reference that nothing gives back and returns one that was already
  returned (`Lifecycle.RehomeExact`, `Lifecycle.ZombieMoveLosesCount`), and on the running slot it does not load
  the new root (`Lifecycle.ApplyRooted`). Nothing calls it.
- A recording longer than 4096 events is saved without the rest and its replay fails at the first dropped event
  (`Workload.DeterministicReplay`, `Afterwards.TooLongFails`). The longest profile has 228.
- The rounding to sectors wraps for the last 511 sizes that 32 bits can express (`Fs.CapacityExact`,
  `Fs.CapacityWraps`). A session has at most 163840 bytes.

## Model

| member | source | states |
|---|---|---|
| FlightRecorder.RecordSaveRebootReplay | kernel/shell.c:668-697 | From bounds on the inputs alone: a workload that fits the buffer, recorded, stopped and saved, passes its integrity check and replays without divergence and, given as many steps, to a successful end: at once, after any further session writes whatever fails in them, and after a reboot that follows a successful write and can read the tables |
| FlightRecorder.SavedSessionReplays | kernel/trace.c:233-254 | Whatever is stored as the recorded session replays the workload without a mismatch, and given as many steps as the recording ends with the cursor at the end of the log |
| FlightRecorder.Save | kernel/trace.c:141-161 | The write of a stop keeps the filesystem invariant and, on success, the new session id names exactly this log, hash, profile, start time and duration |
| FlightRecorder.RecordedSaveable | kernel/trace.c:141-161 | What a recording leaves fits the fields of a stored session, from sized scripts, a first event id and a number of ticks that do not wrap |
| FlightRecorder.SaveSucceeds | kernel/trace.c:155-160 | The save succeeds if and only if the filesystem is online, has room for the events and a free inode, and the device stores every write |
| FlightRecorder.BootRecordBootReplay | kernel/shell.c:668-697 | From boot, with a blank disk that stores what it is given: record any of the three profiles with timer interrupts anywhere, stop at any later time, boot again, replay the workload of the stored profile with interrupts anywhere and as many steps; the replay finishes with success |
| Sizes.RecordingFits | kernel/trace.c:81-88 | Every event of a recording fits its 40 bytes, and the clock has moved by exactly the interrupts taken |
| Sizes.RecordingKeepsProfile | kernel/trace.c:128-135 | A recording is made under the profile it was started with |
| Sizes.ProfilesSized | kernel/workload.c:10-41 | The events of the three profiles fit their fields |
| FreshDisk.FreshMount | kernel/fs.c:338-357 | Mounting a blank disk that stores its writes leaves the invariant, every seeded executable, the tables on disk and room for sessions |
| FreshDisk.RunKeepsSeeds | kernel/fs.c:372-433 | No sequence of session writes loses a seeded executable |
| FreshDisk.FirstSession | kernel/fs.c:226-241 | The first session of a fresh disk is number 1 |
| Afterwards.RecordThenReplay | kernel/shell.c:668-697 | "demo record" and then "demo replay" of it on the same kernel: the replay finishes, succeeds and leaves a quiescent kernel with the same shell, on which both can be done again |
| Afterwards.RecordingLeavesQuiescent | kernel/shell.c:673-677 | A finished recording leaves nothing but the shell alive, in the kernel space, with its references intact |
| Afterwards.ReplayLeavesQuiescent | kernel/shell.c:691-696 | So does a finished replay of a recording that fits the buffer |
| Afterwards.ReplayLeaves | kernel/shell.c:691-696 | Any finished replay of a recording, too long for the buffer or not, leaves the shell unchanged, and a quiescent kernel if and only if no worker is left; none is if the recording fits |
| Afterwards.FinishedQuiescent | kernel/shell.c:299-306 | A run that has ended leaves a quiescent kernel exactly if no worker is counted as active |
| Afterwards.HomedStep | kernel/sched.c:86-99 | Every step keeps each live worker in the shell space with a reference of its own |
| Afterwards.BootQuiescent | kernel/sched.c:101-113 | The booted kernel is quiescent |
| Afterwards.TooManyRounds | kernel/trace.c:113-116 | A worker with more rounds than the buffer holds: the replay of its recording ends, and has failed |
| Afterwards.TooLongFails | kernel/trace.c:113-116 | 1365 rounds from boot are such an input |
| Workload.DeterministicReplay | kernel/trace.c:73-126 | For up to seven workers with any finite scripts and timer interrupts anywhere: the replay never leaves the table of slots, it ends given as many steps as the recording, and a finished replay succeeds if and only if the recording fits 4096 events; then it never fails on the way |
| Workload.RecordedLength | kernel/workload.c:10-68 | A finished recording traced exactly TotalEvents events; the log keeps the first 4096 and the rest are counted as dropped |
| RecordedLog.RecordedEvent | kernel/trace.c:81-119 | Event q of a recording from its start: its id is the first plus q, its time the clock at the start plus the interrupts before step q, its content what the workload does at step q without interrupts |
| RecordedLog.ReplayClock | kernel/pit.c:16-21 | After step q of the replay pit_ticks answers the time at which the recording traced event q, wherever its interrupts came |
| RoundLog.LogInClosedForm | kernel/workload.c:10-41 | The whole log of k workers of n rounds in closed form: id, time, pid, type and data of event o of round r |
| RoundLog.ProfileIsRounds | kernel/workload.c:43-84 | The three profiles are such workloads: one worker of 16 rounds, three of 32, three of 4 |
| RoundLog.AttackEvents | kernel/workload.c:21-30 | Entry 3r + 1 of the log of an attack session is that of attack_task in round r, by pid 2 with data 0x1000 + r and 0x2000 + 4r |
| RoundLog.TripleEvents | kernel/workload.c:10-41 | Entry 7r + 2i + 1 of a sysload or lifecycle session is that of worker i in round r, by pid i + 2, with its data |
| Workload.RecordingTerminates | kernel/shell.c:299-306 | The idle loop ends, and it has ended exactly when more processor steps than TotalEvents have been taken, whatever the interrupts |
| Workload.UniformTotal | kernel/workload.c:43-68 | k workers of n rounds each trace k*n + (k+1)*(n+1) events |
| Workload.ProfileTotals | kernel/workload.c:43-84 | The three profiles trace 50, 228 and 32 events |
| Workload.ProfilesReplay | kernel/workload.c:70-84 | Every demo profile, once recorded, replays without divergence and, given as many steps, to a successful end |
| Sysload.SysloadReplay | kernel/workload.c:32-41 | A sysload session recorded with used bytes and replayed with another number: from the second step it has failed if and only if they differ; it leaves the table of slots if and only if they differ, (int)used >= 8 and three steps are taken, and then never ends; with (int)used == 0 it ends at the fourth step exactly, with (int)used < 0 when the workers have run out; with equal numbers it ends with success |
| Sysload.SysloadDiverges | kernel/sched.c:182-191 | The failing replay step by step: mismatch at the second, the recorded bytes taken for a slot at the third |
| Sysload.StuckStep | kernel/trace.c:95-109 | After that mismatch the cursor never moves again, and a yield leaves the table exactly when the recorded number, as an int, is 8 or more |
| Sysload.StuckEnds | kernel/sched.c:188-193 | If that number is not positive, the workers run out and the replay ends |
| Sysload.WholePages | kernel/memory.c:34-43 | A number of whole pages is, as an int, either not positive or 8 or more |
| Sysload.SysloadLeaves | kernel/shell.c:299-306 | A failing sysload replay that has finished leaves a quiescent kernel exactly if (int)used is negative; if it is 0, all three workers are alive and counted |
| Sysload.NextDemoDuplicatesPid | kernel/sched.c:251-258 | On such a kernel the first worker of the next demo gets pid 2, which another live worker has |
| RingDemo.DemoTakesNinePages | kernel/builtin_exec.c:490-507 | A run of a one-page program takes nine pages, four tables, one page and four of stack, which nothing gives back, and leaves ownership and table in order |
| RingDemo.RecordingNoMore | kernel/workload.c:32-41 | A recording takes and gives back no memory, so memory_used_bytes is the same all along |
| RingDemo.DemoRecordDemoReplay | kernel/trace.c:273-279 | From boot: run ring3demo, record sysload, run ring3demo, replay; 0x9000 bytes are in use at the recording and 0x12000 at the replay, whose third step leaves the table |
| RingDemo.RecordDemoReplay | kernel/shell.c:299-306 | From boot: record sysload, run ring3demo, replay; the fourth step ends the failed replay with three live workers, active_workloads at 3, and the next demo duplicates pid 2 |
| RingDemo.SomeMachineBoots | kernel/memory.c:11-32 | There are machines from which these two runs start |
| Workload.StepCounts | kernel/sched.c:69-99 | Every step of a well-formed recording traces one event of those remaining, or ends the run when none remain |
| Workload.RunCounts | kernel/sched.c:179-194 | Events traced plus events remaining is constant over any run |
| Workload.RunProgress | kernel/shell.c:299-306 | After any run, the steps taken are exactly accounted for by the events traced, until the loop ends |
| Workload.RoundsCounts | kernel/workload.c:10-41 | A worker of n rounds traces n events of its own and takes n + 1 turns |
| Workload.StartLaunches | kernel/workload.c:43-68 | From a quiescent scheduler, spawning the workers puts them in slots 1, 2, ... with pids 2, 3, ... and counts them as active |
| Workload.LaunchCountsAll | kernel/workload.c:43-68 | active_workloads counts the workers asked for, spawned or not |
| Replay.LogForcesRoundRobin | kernel/sched.c:182-188 | Whenever a following replay yields to another worker, the log entry at the cursor is a switch event whose target is the round-robin choice |
| Replay.FollowStep | kernel/trace.c:89-109 | One step of the recording and one of the replay keep them in lockstep: same scheduler shape, cursor at the length of the log so far, no mismatch, and virtual time at the time of the event just recorded |
| Replay.FollowRun | kernel/trace.c:73-126 | Over whole runs: the replay has followed the recording, or the recorder dropped an event and the replay has failed for good |
| Replay.FollowPrefix | kernel/trace.c:89-109 | At every intermediate step the replay is without a mismatch, or has run past a log that the recorder had to truncate |
| Replay.StoredEvent | kernel/trace.c:81-88 | Event number q of a recording in progress is stored with the next id but q, the clock of the step that traced it, and what that step does |
| Replay.OverrunStep | kernel/trace.c:90-94 | The first event that the recorder had to drop is the one that the replay cannot match |
| Replay.OverrunEnds | kernel/shell.c:299-306 | A replay that has run past its log stops at the next turn of the shell, no later than the recording did |
| Replay.ReplayIgnoresIrqs | kernel/interrupts.c:25-28 | While a replay is active, interrupts on vectors 32-47 change nothing: a run equals its processor steps |
| Replay.RecordStep | kernel/trace.c:110-126 | Every step of a recording only appends to the log, keeps the machine well formed, and drops events only when the buffer is full |
| Replay.StepMoves | kernel/sched.c:179-194 | What a step does is determined by the next move: talk, hop to the round-robin successor, exit or halt, with the event it traces |
| Replay.SuccessorExists | kernel/sched.c:59-67 | While anything is left to do, the running worker finds another one ready |
| Trace.VerdictExact | kernel/trace.c:283-289 | A replay reports success if and only if the emitted (pid, type, data0, data1) sequence equals that of the log |
| Trace.CursorIsGreedy | kernel/trace.c:89-109 | At every moment, after mismatches too, event_index is the length of the longest log prefix that is a subsequence of what was emitted |
| Trace.GreedyStep | kernel/trace.c:95-109 | The matched prefix is a subsequence of what was emitted and no longer prefix is |
| Trace.SessionKeepsOrder | kernel/trace.c:81-126 | A recording session stores contiguous ids and nondecreasing timestamps between its start and now |
| Trace.VirtualTimeMonotone | kernel/trace.c:95-98 | Replaying an ordered log never moves virtual time back, whatever is emitted and whatever fails; what virtual time is: Trace.VirtualTimeIs |
| Trace.VirtualTimeIs | kernel/trace.c:95-98 | Virtual time is the timestamp of the entry that was at the cursor when the last event was emitted, matched or not, and stands still past the end of the log |
| Trace.ReplayedTime | kernel/trace.c:95-98 | While nothing has failed, virtual time is the time at which the last event emitted was recorded |
| Trace.RecordedSessionReplaysInOrder | kernel/trace.c:128-135 | Every freshly started session produces a log whose replay has monotone virtual time |
| Trace.ForcedNext | kernel/trace.c:268-281 | A forced index is the 32-bit int congruent to data1 of a scheduler event of the log |
| Trace.Recorder.constructor | kernel/trace.c:60-71 | Nothing recorded, no replay active |
| Trace.Recorder.CurrentTicks | kernel/pit.c:16-21 | Virtual time during replay, the hardware count otherwise |
| Trace.Recorder.Emit | kernel/trace.c:73-126 | The new recorder state is Record of the old one: compared, with the clock set to the entry at the cursor, stored, dropped or ignored |
| Trace.Recorder.Start | kernel/trace.c:128-135 | Empty log, the start time and the profile set, recording on |
| Trace.Recorder.ExpectedNextTask | kernel/trace.c:268-281 | The target of the switch event at the cursor, or none |
| Trace.Recorder.End | kernel/trace.c:283-289 | The verdict is that of the state before, which is then inactive |
| Events.EventRoundTrip | kernel/trace.c:141-156 | An event of the sizes of its fields survives its 40-byte image |
| Events.LogRoundTrip | kernel/trace.c:233-254 | A log survives the byte image in which it is stored, event by event |
| Layout.LogLayout | include/trace.h:17-25 | Event i of a log is at byte 40i of its image, each field little-endian at its offset |
| Layout.HashedLayout | kernel/trace.c:47-58 | The hash takes the events in order, each as the words id, time, pid, type, data0, data1 |
| Layout.HashUnfolds | kernel/trace.c:47-58 | It starts at TRACE_HASH_INIT and takes in one event after the other |
| Layout.XorBits | kernel/trace.c:41-41 | Bit i of the exclusive or is set exactly if one of the two bits is |
| Events.ScaleInjective | kernel/trace.c:39-45 | Multiplication by the odd prime is injective modulo 2^64 |
| Events.MixInjectiveInHash | kernel/trace.c:39-45 | One mixing step never merges two hashes |
| Events.MixInjectiveInByte | kernel/trace.c:39-45 | One mixing step never merges two bytes |
| Events.OneByteChangesHash | kernel/trace.c:39-58 | Two byte streams of equal length that differ in exactly one byte have different hashes |
| Events.OneFieldByteChangesLogHash | kernel/trace.c:47-58 | Two logs that differ in exactly one byte of one hashed field have different hashes |
| Events.HashMix | kernel/trace.c:39-45 | The loop over the eight bytes of a word computes HashBytes of its little-endian image |
| Events.HashEvents | kernel/trace.c:47-58 | The loop over the buffer computes HashLog of its first count events |
| Sessions.StopSaves | kernel/trace.c:141-161 | A stop that succeeds has put exactly the log, its hash, profile, start time and duration under the next id, on disk; every older session reads as before either way |
| Sessions.StopRecording | kernel/trace.c:141-161 | trace_stop on the recorder and the filesystem: recording off; saved as above with ticks - start_ticks as the duration, or older sessions untouched |
| Sessions.BeginReplay | kernel/trace.c:233-254 | On success the cursor is at the start of the decoded session and virtual time at its start; on failure nothing changes |
| Sessions.CheckSession | kernel/trace.c:194-231 | The comparison of hashes, and that it matches for every session that was saved by a stop |
| Sessions.SavedReplays | kernel/trace.c:233-254 | What was saved is what a replay starts from |
| Sessions.SavedSurvives | kernel/fs.c:372-433 | Later session writes, whatever fails, and a reboot after a successful one leave a saved session saved |
| Sched.Scan | kernel/sched.c:59-67 | The search finds the nearest ready slot after the current one, in cyclic order, or there is none |
| Sched.FreeSlotFrom | kernel/sched.c:130-138 | The first reusable slot, empty or zombie, or none |
| Sched.PidFrom | kernel/sched.c:338-345 | The first visible slot with that pid, or none |
| Sched.Scheduler.constructor | kernel/sched.c:101-113 | Slot 0 running with pid 1 in the kernel space |
| Sched.Scheduler.FindNextReady | kernel/sched.c:59-67 | The loop returns NextReady |
| Sched.Scheduler.Switch | kernel/sched.c:69-84 | The old slot is made ready if it was running, the new one runs, the processor gets the root of its space, and the switch is traced with both indices |
| Sched.Scheduler.SwitchSpace | kernel/aspace.c:161-170 | The root of the space is loaded, or nothing changes for a space that does not exist |
| Sched.Scheduler.YieldCpu | kernel/sched.c:179-194 | Yield of the old state, with the choice forced by the log during replay |
| Sched.Scheduler.ExitTask | kernel/sched.c:86-99 | The slot is a zombie, its space released, and the successor runs |
| Sched.Scheduler.SpawnWithAspace | kernel/sched.c:130-168 | A ready slot with the next pid and a reference of its own, or nothing changed when no slot is free or the space does not exist |
| Sched.Scheduler.SpawnTask | kernel/sched.c:115-128 | A spawn in a clone of the parent space |
| Sched.Scheduler.SpawnProgram | kernel/builtin_exec.c:438-470 | A spawn that shares the kernel space, or gives the reference back when it fails |
| Sched.Scheduler.SetTaskAspace | kernel/sched.c:338-354 | The new space is retained before the old one is released, or nothing changes |
| Sched.Scheduler.PrepareReplay | kernel/sched.c:251-258 | Zombies are forgotten and pids restart at 2 |
| Lifecycle.RunSafe | kernel/sched.c:59-168 | Over any run outside replay: exactly the current slot is running, slot 0 is alive with pid 1, visible pids are distinct and below the next one |
| Lifecycle.ExitFindsSuccessor | kernel/sched.c:86-99 | An exit always finds a ready successor, so the halt loop is never reached |
| Lifecycle.WaitStep | kernel/sched.c:59-84 | A ready slot gets to run, or stays ready and comes strictly nearer at every switch |
| Lifecycle.BoundedWaiting | kernel/sched.c:59-99 | A ready slot t has run after at most (t - current) mod 8 switches, whatever spawns, exits and ticks happen in between |
| Lifecycle.RunAccounted | kernel/aspace.c:100-135 | Over any run every count equals the live slots naming the space plus the references held elsewhere, and every live slot names an existing space, so the switch of address space never fails |
| Lifecycle.RehomeExact | kernel/sched.c:338-354 | sched_task_set_aspace keeps the counts right if and only if it does not move a zombie to another existing space |
| Lifecycle.ZombieMoveLosesCount | kernel/sched.c:346-351 | From boot: a worker is spawned, runs and exits, a space is made; moving that zombie to it loses count |
| Lifecycle.ApplyRooted | kernel/sched.c:77-83 | Every operation keeps the processor in the root of the running space, if and only if it does not move the running slot to a space with another root |
| Lifecycle.RunRooted | kernel/sched.c:77-83 | Over any run that moves no slot to another space, the processor uses the root of the running one |
| Lifecycle.BootAccounted | kernel/aspace.c:61-66 | The state after boot satisfies all three invariants, slot 0 owning the first reference |
| Lifecycle.SpawnCounts | kernel/sched.c:119-147 | A spawn, failed or not, changes references and live slots by the same amount |
| Lifecycle.SpawnExecCounts | kernel/builtin_exec.c:438-470 | builtin_exec_spawn leaves no reference behind on any of its paths |
| Effects.SpawnExecExact | kernel/builtin_exec.c:438-470 | builtin_exec_spawn succeeds if and only if a job slot and one of the slots 1 to 7 are free: the first of these is then a READY child of the caller with the next pid, in the kernel space, whose count alone grows, by one; otherwise nothing at all changes |
| Effects.SpawnExact | kernel/sched.c:115-168 | sched_spawn from the kernel space: the same, with a free slot as the only condition |
| Effects.SpawnFresh | kernel/sched.c:115-168 | sched_spawn from another space makes one of the same kind for the child, if and only if a slot, a space and four frames are free; otherwise no slot and no count changes |
| Effects.SetAspaceExact | kernel/sched.c:338-354 | sched_task_set_aspace succeeds if and only if the space is the own one or exists; exactly that slot moves, and one reference with it |
| Effects.NoSuchTask | kernel/sched.c:338-345 | Without such a pid it fails and changes nothing |
| Effects.CreateExact | kernel/aspace.c:72-98 | aspace_create succeeds if and only if a slot is free and, unless it is a kernel space, four frames: the first free slot gets the next id, the kind, one reference, and its root and window table; no other slot changes |
| Effects.ForkExact | kernel/aspace.c:100-112 | Fails without a parent, shares a kernel space, and creates a space of the kind of the parent otherwise |
| Effects.TickStores | kernel/interrupts.c:25-36 | A timer interrupt stops at a replay; otherwise time moves on, and it is stored with vector 32 at the time it came exactly if a session without a profile is recorded and has room |
| Effects.EventIgnored | kernel/trace.c:73-113 | While nothing is recorded and nothing replayed, an event costs an id and no more |
| Lifecycle.ExitCounts | kernel/sched.c:86-99 | An exit gives back exactly the reference of its slot |
| Lifecycle.SetAspaceCounts | kernel/sched.c:338-354 | Outside the zombie case the move takes one reference and gives one back |
| Lifecycle.RetainCounts | kernel/aspace.c:114-121 | Exactly the count of the retained space grows, by one |
| Lifecycle.ReleaseCounts | kernel/aspace.c:123-135 | Exactly the count of the released space shrinks; a space at 0 disappears unless it is the kernel space |
| Lifecycle.CreateCounts | kernel/aspace.c:72-98 | A new space has count 1 and a fresh id; no other count changes |
| Lifecycle.ForkCounts | kernel/aspace.c:100-112 | A clone costs one reference, on the kernel space or on a new one |
| Aspace.RunInv | kernel/aspace.c:72-245 | In every state that any run of create, clone, retain, release and write reaches, each allocated frame has one role in one address space |
| Aspace.InitInv | kernel/aspace.c:61-66 | The state after aspace_init satisfies the ownership invariant |
| Aspace.CreateInv | kernel/aspace.c:72-98 | aspace_create keeps ownership, whether it succeeds, finds no slot or runs out of frames |
| Aspace.CreateRoles | kernel/aspace.c:72-98 | A new root disturbs no role of any other space |
| Aspace.NewRootRoles | kernel/aspace.c:39-59 | A new space owns exactly the next four frames and no page |
| Aspace.EnsurePageExtends | kernel/aspace.c:172-193 | ensure_user_page keeps every role and every page, and adds at most one zeroed page of the one space |
| Aspace.WriteStores | kernel/aspace.c:195-220 | Through the page tables, exactly the first n bytes of the data read back at vaddr, across page boundaries, where n is the length on success and less on failure; every other byte of that space is as before but for zeros in the pages that these bytes reach, and no byte of any other space changes |
| Aspace.WrittenAll | kernel/aspace.c:201-219 | A write succeeds if and only if all its bytes were stored |
| Aspace.WriteKeepsMappings | kernel/aspace.c:172-220 | No existing mapping is moved or removed in any space |
| Aspace.WriteInWindow | kernel/aspace.c:172-181 | A write that succeeds lies inside the window |
| Aspace.WriteFailsFull | kernel/aspace.c:172-220 | A write inside the window fails only for want of a frame |
| Aspace.LoadIsPageByte | kernel/aspace.c:182-191 | In the window, a load through cr3 sees the byte of the owned page, or faults |
| Aspace.RunBudget | kernel/memory.c:34-43 | Over any run, used bytes plus free bytes stay the same |
| Aspace.RunWholePages | kernel/memory.c:34-43 | Over any run, memory is used in whole pages |
| Aspace.RetainInv | kernel/aspace.c:114-121 | Retaining keeps frame ownership |
| Aspace.ReleaseInv | kernel/aspace.c:123-135 | Releasing keeps frame ownership |
| Aspace.Find | kernel/aspace.c:30-37 | A used slot with that id, or there is none |
| Aspace.AddressSpaces.constructor | kernel/aspace.c:61-66 | The table with the kernel space |
| Aspace.AddressSpaces.FindSlot | kernel/aspace.c:30-37 | The loop returns Find |
| Aspace.AddressSpaces.AllocPage | kernel/memory.c:34-43 | The next frame and the advanced allocator, or nothing |
| Aspace.AddressSpaces.CloneKernelRoot | kernel/aspace.c:39-59 | The stores build the tables of CloneRoot |
| Aspace.AddressSpaces.CreateSpace | kernel/aspace.c:72-98 | Create of the old state, with the recovered page table |
| Aspace.AddressSpaces.RetainSpace | kernel/aspace.c:114-121 | Retain of the old state; fails exactly for an id that does not resolve |
| Aspace.AddressSpaces.ReleaseSpace | kernel/aspace.c:123-135 | Release of the old state; fails exactly for an id that does not resolve |
| Aspace.AddressSpaces.ForkSpace | kernel/aspace.c:100-112 | ForkClone of the old state |
| Aspace.AddressSpaces.EnsureUserPage | kernel/aspace.c:172-193 | EnsurePage of the old memory |
| Aspace.AddressSpaces.WriteBytes | kernel/aspace.c:195-220 | The chunk loop computes Write |
| Aspace.AddressSpaces.ZeroBytes | kernel/aspace.c:222-245 | The chunk loop computes Write of that many zeros |
| Paging.CloneRootBuilds | kernel/aspace.c:39-59 | Failure touches no frame; success builds a user root out of the next four frames, touches no other, and its table is the one allocated |
| Paging.BuiltTables | kernel/aspace.c:88-93 | The user_pt that aspace_create recovers by following the words is the table that was allocated |
| Paging.KernelHalfShared | kernel/aspace.c:39-59 | In PML4 slot 0 outside PDPT slot 1, the hardware walk of a user root translates exactly as the kernel root does (4-level paging, section 4.5 of Intel SDM Vol. 3A) |
| Paging.WindowWalk | kernel/aspace.c:182-191 | Everything else in a user root faults, except the window, which is translated only through its own page table |
| Paging.PageIndexBijective | kernel/aspace.c:182-183 | pt_index is a bijection between the window pages and 0..511 |
| Memory.WordOfSetWord | kernel/aspace.c:39-59 | A stored page-table word reads back and disturbs no other word |
| Memory.ChooseRegion | kernel/memory.c:11-32 | The allocator gets the largest usable region at or above 1 MiB, never starts below 2 MiB, and starts page aligned |
| Fs.WriteSessionInv | kernel/fs.c:372-433 | Every session write, whatever the device does, keeps the invariant: extents tile [data_start, next_free_lba), ids are distinct, next_session_id is 1 + the number of sessions |
| Fs.SessionsAfterWrite | kernel/fs.c:372-433 | After any session write the new session has the next id and the next free sector, reads back its exact bytes and the profile, start time, duration, number of events and hash it was written with; every other session reads as before |
| Fs.RunJobsKeeps | kernel/fs.c:372-479 | After any sequence of session writes, each of which may fail at any sector, the invariant holds and every session that existed reads back the same bytes |
| Fs.SuccessIsOnDisk | kernel/fs.c:208-214 | A session write that succeeds has put superblock and inode table on disk |
| Fs.RebootLoads | kernel/fs.c:216-224 | What is on disk is what a reboot loads |
| Fs.RebootPreserves | kernel/fs.c:338-357 | A reboot after a successful write finds superblock, inodes and every session as they were, even if the final flushes fail |
| Fs.RebootExact | kernel/fs.c:346-351 | After a successful write, a reboot keeps a session if and only if it can read the tables: otherwise it formats the disk |
| Fs.UnreadableLosesAll | kernel/fs.c:346-351 | A reboot that cannot read the tables, or finds another magic number or version, leaves no session, whatever was on the disk |
| Fs.OnlineExact | kernel/fs.c:338-357 | The filesystem comes up if and only if the disk is one of ours and can be read, or can be formatted and then read |
| Fs.WriteSucceeds | kernel/fs.c:379-427 | A session write succeeds if and only if the filesystem is online, there is room and a free inode, and the device stores every write |
| Fs.ReseedIsIdentity | kernel/fs.c:298-336 | Seeding again changes nothing |
| Fs.SeedExecInv | kernel/fs.c:263-314 | Seeding an executable keeps the invariant, also when it fails half way |
| Fs.SeedReadsBack | kernel/fs.c:263-314 | A file that has just been seeded is found and reads back its image; sessions read as before |
| Fs.FormatInv | kernel/fs.c:226-241 | A format that succeeds establishes the invariant and is what a reboot would load |
| Fs.CapacityExact | kernel/fs.c:372-385 | The 32-bit rounding up gives enough sectors exactly for sizes up to 2^32 - 512 |
| Fs.CapacityWraps | kernel/fs.c:383-386 | A file of 2^32 - 511 bytes gets one sector |
| Fs.WriteSessionCases | kernel/fs.c:372-433 | A session write ends in one of two ways: nothing but a free inode touched, or committed in memory with its sectors written |
| Fs.SuperRoundTrip | kernel/fs.c:208-224 | The superblock survives its sector |
| Fs.InodeRoundTrip | kernel/fs.c:212-224 | An inode survives its 128 bytes |
| Fs.TableRoundTrip | kernel/fs.c:212-224 | The inode table survives its eight sectors |
| Layout.SuperLayout | kernel/fs.c:23-33 | The fields of the superblock are 32-bit words in this order |
| Layout.TableLayout | kernel/fs.c:35-49 | Inode i is at byte 128i of the table, each field little-endian at its offset |
| Layout.NameLayout | kernel/fs.c:118-126 | A stored name is the path up to 23 bytes, then zeros |
| Fs.TraceFs.constructor | kernel/fs.c:338-357 | The calls of fs_init compute Mount: load, or format what is not ours or cannot be read, seed, flush |
| Fs.TraceFs.FormatDisk | kernel/fs.c:226-241 | The stores and flushes compute Format |
| Fs.TraceFs.LoadTables | kernel/fs.c:216-224 | The sector loop computes LoadDisk |
| Fs.TraceFs.WriteRawFile | kernel/fs.c:263-296 | Extent, bump pointer and inode of a raw file, or what a failure leaves |
| Fs.TraceFs.SeedExecFile | kernel/fs.c:298-314 | The calls compute SeedExec |
| Fs.TraceFs.SeedExecs | kernel/fs.c:316-336 | One executable after the other computes SeedAll |
| Fs.TraceFs.FlushSuperblock | kernel/fs.c:208-210 | The superblock goes to its sector, or anything does |
| Fs.TraceFs.FlushInodeTable | kernel/fs.c:212-214 | The table goes to its eight sectors, or anything does |
| Fs.TraceFs.FindSession | kernel/fs.c:243-250 | The loop returns the inode of the session, or none |
| Fs.TraceFs.AllocInode | kernel/fs.c:252-261 | The loop returns the first unused inode, or none |
| Fs.TraceFs.WriteSectors | kernel/fs.c:397-411 | The sector loop writes up to the first failure and touches no other sector |
| Fs.TraceFs.WriteTraceSession | kernel/fs.c:372-433 | WriteSession of the old state, and the id that was next |
| Fs.TraceFs.ReadFile | kernel/fs.c:457-479 | Succeeds if and only if every sector can be read, then delivers exactly the file; size_bytes - offset never goes below zero |
| Fs.TraceFs.ReadTraceSession | kernel/fs.c:457-479 | Succeeds if and only if the session exists and its sectors can be read; delivers its bytes |
| Fs.TraceFs.FindExec | kernel/fs.c:109-116 | The loop returns the inode of the executable, or none |
| Fs.TraceFs.ReadExecFile | kernel/fs.c:569-589 | The same for executables |
| Coalescing.BatchingRefinesImmediate | kernel/netfs.c:101-148 | For any run of writes, ticks, flushes, key presses and balanced/saver switches: after a flush the tx and rx packet and byte counters, the drops and the received payloads equal those of the same run in performance mode, if and only if no payload exceeds 256 bytes |
| Coalescing.LongPayloadDiffers | kernel/netfs.c:101-118 | One payload of 257 bytes is enough to tell the modes apart |
| Coalescing.FifoOrder | kernel/netfs.c:110-148 | Transmitted followed by pending always equals what was submitted, in order |
| Coalescing.RunInv | kernel/netfs.c:74-148 | Over any run at all: the rx ring is exactly the last min(32, n) packets received, rx_packets = rx_count + dropped, byte counters are sums, ids increase and the last one is remembered, at most 15 packets wait, pending counters equal the queue, ticks_since_flush <= 11, keys are delivered or pending |
| Coalescing.WakeupsBounded | kernel/power.c:19-149 | From wakeups = (keyboard_events - coalesced) + keyboard_flushes + net_flushes and enqueued = flushed + tx_count, in every reachable state: wakeups <= keyboard_events + net_tx_enqueued |
| Coalescing.SavedIsPercentage | kernel/shell.c:113-117 | "wakeups saved" is the share of avoided wakeups rounded down, always in 0..100 |
| Coalescing.PacketsSentInTime | kernel/power.c:111-118 | Every waiting packet is transmitted within 12 ticks without performance mode |
| Coalescing.KeysDeliveredInTime | kernel/power.c:111-118 | Every waiting key is delivered within 12 ticks, whatever else happens and whichever the modes |
| Coalescing.KeysInOrder | kernel/power.c:92-109 | Keys are delivered in the order typed while batching is on and the queue cannot overflow |
| Coalescing.KeysConserved | kernel/power.c:19-31 | Over any run whatever, the keys delivered and pending are exactly those typed, each as often as typed |
| Coalescing.KeysImmediate | kernel/power.c:95-98 | In performance mode every key is delivered as it is typed |
| Coalescing.BatchesOf | kernel/power.c:81-92 | A write waits with up to two others in balanced mode and fourteen in energy saver mode; the 4th or the 16th sends all in order; in performance mode it goes out alone and nothing that waits does |
| Coalescing.FlushesOf | kernel/power.c:68-79 | Keys and packets are flushed at the 1st, 3rd or 12th tick since the last flush, by mode, packets not in performance mode; an earlier tick only counts |
| Coalescing.BalancedKeysInTime | kernel/power.c:111-118 | In balanced mode no key waits longer than three ticks |
| Coalescing.SettingsAre | kernel/power.c:39-47 | Mode and loopback are those last asked for, and the mode switches are counted |
| Coalescing.Receives | kernel/netfs.c:74-108 | An injected packet is received with the time, the next id and up to 256 bytes; a transmitted one exactly if loopback is on |
| Coalescing.EnqueuedCounts | kernel/power.c:120-124 | net_tx_enqueued counts the writes made while batching |
| Coalescing.SettledStep | kernel/netfs.c:227-240 | Each step of a batching run, seen with its queue sent, is one immediate transmission or nothing |
| Coalescing.BatchedSettles | kernel/netfs.c:227-240 | A whole batching run, seen with its queue sent, is the immediate transmission of its payloads |
| Coalescing.ImmediateSends | kernel/netfs.c:227-229 | In performance mode every write goes out at once |
| Coalescing.DrainSends | kernel/netfs.c:134-148 | The flush loop sends everything queued, in order, and empties the queue |
| Coalescing.EnqueueRxInv | kernel/netfs.c:74-99 | Receiving keeps the ring equal to the last 32 packets and the counters right |
| Coalescing.WriteInv | kernel/netfs.c:227-240 | A write keeps every law; the full-queue fallback is never taken |
| Coalescing.TickInv | kernel/power.c:111-118 | A tick keeps every law |
| Coalescing.InitInv | kernel/netfs.c:154-165 | The initial state satisfies every law |
| Netfs.PowerManager.constructor | kernel/power.c:33-37 | Balanced mode, everything else empty or zero |
| Netfs.PowerManager.FlushKeyboard | kernel/power.c:19-31 | The ring loop delivers all pending keys in order as one wakeup |
| Netfs.PowerManager.SetPowerMode | kernel/power.c:39-47 | The mode changes and is counted, unless it does not exist |
| Netfs.PowerManager.KeyPressed | kernel/power.c:92-109 | Queued at the ring tail, or delivered at once in performance mode or when full |
| Netfs.PowerManager.NoteNetEnqueued | kernel/power.c:120-124 | The counters of one queued packet |
| Netfs.PowerManager.NoteNetFlushed | kernel/power.c:126-144 | The counters of one flush; nothing for an empty one |
| Netfs.PowerManager.SetPendingNet | kernel/power.c:146-149 | The pending counters are replaced |
| Netfs.NetDevice.constructor | kernel/netfs.c:154-165 | Empty rings, loopback on |
| Netfs.NetDevice.ReceivePacket | kernel/netfs.c:74-99 | The ring is the old one, without its oldest packet if it was full, followed by the new packet |
| Netfs.NetDevice.Transmit | kernel/netfs.c:101-108 | Counted with its full length and looped back |
| Netfs.NetDevice.QueuePacket | kernel/netfs.c:110-132 | Appended to the tx ring, or refused when it is full |
| Netfs.NetDevice.FlushQueue | kernel/netfs.c:134-148 | The ring loop computes FlushTx |
| Netfs.NetDevice.WritePacket | kernel/netfs.c:227-242 | A write to /net/tx computes WriteTx and never fails |
| Netfs.NetDevice.WriteLoopback | kernel/netfs.c:212-222 | Succeeds exactly for 0 and 1 and sets loopback |
| Netfs.NetDevice.PowerTick | kernel/netfs.c:345-349 | A flush outside performance mode if anything waits |
| Netfs.NetDevice.Tick | kernel/power.c:111-118 | Counts up to the interval of the mode, then flushes keys and packets |
| Netfs.NetDevice.PeekLast | kernel/netfs.c:332-343 | The last packet ever received, if any |
| Netfs.RingPush | kernel/netfs.c:84-93 | Storing at (head + count) mod n appends to the ring |
| Netfs.RingPop | kernel/netfs.c:137-144 | Advancing head removes the oldest element |
| Paths.SessionPathRoundTrip | kernel/vfs.c:179-197 | The printed path of a session parses back to its id if and only if 1 <= id < 2^32, and is classified by its suffix |
| Paths.ParsesPrinted | kernel/vfs.c:179-197 | Parsing a printed id with any suffix yields it modulo 2^32, and fails exactly when that is 0 |
| Paths.ScanIsValue | kernel/vfs.c:186-189 | The digit loop computes the value of the leading digits modulo 2^32 |
| Paths.SessionPathInjective | kernel/vfs.c:52-66 | Different sessions have different paths |
| Paths.DecimalValue | kernel/vfs.c:52-66 | Decimal notation denotes the number it was printed from |
| Paths.KindOfPrinted | kernel/vfs.c:94-102 | A printed session path is a session or a metadata node by its suffix |
| Paths.FixedPaths | kernel/vfs.c:68-88 | The nodes of /proc and of the trace index |
| Paths.DirectoryPaths | kernel/vfs.c:73-92 | /net and /bin with everything below them, and nothing that only begins like them |
| Paths.AppendChar | kernel/vfs.c:37-43 | The buffer shows one character more, or as much as fits, and stays terminated |
| Paths.AppendString | kernel/vfs.c:45-50 | The same for a string |
| Paths.AppendNumber | kernel/vfs.c:52-66 | The buffer shows the decimal notation of any 64-bit value after what it showed |
| Paths.CollectDigits | kernel/vfs.c:58-61 | The digits backwards, at most 20 of the 32 places |
| Paths.ParseSessionId | kernel/vfs.c:179-197 | The loop computes ParseSession |
| Paths.PrintSessionPath | kernel/vfs.c:45-66 | A buffer that is long enough holds exactly the path, terminated |
| Elf.FirstIsLowest | kernel/elf.c:58-63 | first_vaddr is the lowest PT_LOAD address if and only if no PT_LOAD is at address 0 or the last one is |
| Elf.ForgetsZero | kernel/elf.c:58-63 | A table on which the parser does not return the lowest address |
| Elf.HeadersInside | kernel/elf.c:50-53 | Every program header of an accepted image lies inside it if and only if the sum in the check does not wrap or there is none |
| Elf.AcceptsOutside | kernel/elf.c:50-53 | 64 bytes that are accepted and whose one program header lies outside |
| Elf.LastIsHighest | kernel/elf.c:64-66 | last_vaddr is the highest end of a PT_LOAD segment in 64-bit arithmetic, 0 without one |
| Elf.LowestSegmentFound | kernel/elf.c:54-84 | Without a segment at address 0 the returned address, offset, filesz and memsz are those of the lowest PT_LOAD segment (Program Header, chapter 5 of the System V gABI) |
| ElfImages.ParsesImage | kernel/elf.c:33-86 | For an image laid out field by field, with no segment at address 0: accepted, and the answer is its type, machine, entry and number of program headers, the offset, filesz and memsz of its lowest segment, and the highest end |
| ElfImages.AcceptedHeader | kernel/elf.c:38-52 | A file is accepted if and only if its header names 64-bit, little-endian, x86-64, program headers of 56 bytes, and an end of these that is in 64-bit arithmetic not beyond the file |
| ElfImages.TableRead | kernel/elf.c:53-57 | A table of program headers reads back, wherever it is (Program Header, chapter 5 of the System V gABI) |
| ElfImages.ExecParsed | kernel/fs.c:168-206 | An image of one segment that holds the headers and the code, as the kernel builds them, parses to its entry, address and size |
| ElfImages.Ring3Parsed | kernel/fs.c:128-166 | The ring3demo image is accepted, its entry is 0x40000078, and it is a one-page program below the stack |
| Elf.ScanLoads | kernel/elf.c:54-67 | The first loop computes First and LastEnd |
| Elf.FindSegment | kernel/elf.c:75-84 | The second loop finds the first segment at that address |
| Elf.ParseImage | kernel/elf.c:33-86 | Rejects exactly the images that fail a header check, and returns InfoOf the others |
| Loader.LoadedProgram | kernel/builtin_exec.c:491-500 | After a successful load the new window holds a zero 16 KiB stack, below it the file bytes, then the zeros asked for, and nothing else; no byte of any other space changes, success or not |
| Loader.ImageLoaded | kernel/builtin_exec.c:484-500 | From the image to the window: parsing and loading together, for the lowest segment |
| Loader.LoadImage | kernel/builtin_exec.c:491-500 | The calls compute LoadProgram, releasing the space when a write fails |
| ElfImages.Ring3Loaded | kernel/builtin_exec.c:484-502 | Once ring3demo is loaded, its code is where the parser says that it starts |
| Loader.LoadCounts | kernel/builtin_exec.c:491-500 | A load that fails leaves every reference count as it was, so no space behind; one that succeeds adds one space with one reference |
| Loader.CreateSeen | kernel/aspace.c:72-98 | A new space has an empty window and every other space reads as before |

## Left out

- Hardware: boot code, descriptor tables, interrupt controller and timer programming, port I/O of the disk, ring 3 entry, registers saved by a context switch.
- User interface: console, serial line, shell commands other than the demo sequences and the power status, manual pages, mouse.
- Processor discovery and the unused spinlock: only easy facts.
- Crash atomicity of the filesystem: inodes are flushed before the superblock, so a crash between the two is outside the invariant; reboots are considered after a successful write.
- Statistics that are only displayed (yields, run ticks, event totals, buffer peak, labels, names) and the in-memory list of the last sessions.
- The `expected` and `actual` events kept for reporting a mismatch: later events overwrite them.
- Trace events of kinds NET, POWER, KEYBOARD and exceptions during a recorded workload: the runs in Workload have none, so network, power and keyboard are quiet while a demo is recorded or replayed.
- What happens once a log has forced a slot outside the table: the model marks such a run as `wild` and stops it. Which replays of recorded workloads get there is stated (Workload.DeterministicReplay, Sysload.SysloadReplay); replays of logs that the recorder did not produce are not considered.
- Sysload.SysloadReplay: does not say whether a failing replay ends when the recorded number is 1 to 7 as an int, because such a replay resumes zombies; memory is used in whole pages, so no recording has such a number.
- Sched.Scheduler.YieldCpu: excludes a target outside the table, because the source then reads and writes outside its array.
- Order of packets across a switch to performance mode with packets pending: new writes go first and ticks no longer flush.
- Order of keys when the 256-entry queue overflows or performance mode begins with keys pending, and the keyboard's own ring behind keyboard_buffer_put.
- Conformance of the hash to published FNV-1a: the starting constant differs; only structural facts are stated, and the size field is not hashed.
- Job tables of builtin_exec: only whether a job slot was available.
- The file descriptor table and the renderings of /proc, /net and /bin.
- Fields that a failed session write clears in an inode that stays unused.
- Elf.ParseImage: images for which phoff + 56 * phnum wraps modulo 2^64 are excluded, because the source then reads outside the image.
- Loader.LoadedProgram: the segment's bytes are assumed to lie inside the file, because the source otherwise copies whatever follows its buffer.
- Loader.LoadImage: the same assumption, for the same reason.
- Loader.ImageLoaded: the same assumption, for the same reason.
- Fs.TraceFs.LoadTables: reads that fail half way are not modelled; a failed load is followed by a format, which replaces both tables.
- Sessions.BeginReplay: the stored session is assumed to fit the replay buffer, because the source reads it without a bound.
- Netfs.NetDevice: packet slots hold their payload as a sequence of at most 256 bytes instead of a fixed buffer with a length.
- Aspace.AddressSpaces: the slot table and physical memory are a sequence and a map that the methods reassign.
