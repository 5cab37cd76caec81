/** What running /bin/ring3demo does to the memory in use, and so to a sysload session recorded around it
    (builtin_exec_run_sync in kernel/builtin_exec.c, kernel/memory.c, kernel/workload.c). */
module RingDemo {
  import opened Bytes
  import opened Memory
  import opened Paging
  import opened Aspace
  import opened Loader
  import Elf
  import opened Trace
  import opened Sched
  import opened Replay
  import opened Workload
  import opened Sysload
  import Afterwards
  import Lifecycle

  // ---- How many pages a write takes ----

  /** One chunk takes a page exactly if its page was not there. */
  lemma ChunkPages(s: Spaces, start: nat, i: nat, va: nat, bs: seq<byte>)
    requires Inv(s, start) && IsUser(s, i) && va % PAGE + |bs| <= PAGE
    requires EnsurePage(s.mem, s.slots[i].userPt, va).0
    ensures var t := WriteChunk(s, i, va, bs);
            var p := 4 + va / PAGE % 512;
            var more := if Owned(s, i, p) then 0 else PAGE;
            Inv(t, start) && t == s.(mem := t.mem) && t.mem.used == s.mem.used + more && t.mem.next == s.mem.next + more &&
            t.mem.limit == s.mem.limit && forall r: nat :: Owned(t, i, r) <==> Owned(s, i, r) || r == p
  {
    var j := va / PAGE % 512;
    EnsurePageCases(s, i, va);
    EnsurePageExtends(s, start, i, va);
    var u := s.(mem := EnsurePage(s.mem, s.slots[i].userPt, va).1);
    var f := PutBytes(FrameAt(u.mem.frames, RoleFrame(u, i, 4 + j)), va % PAGE, bs);
    PutIsSetPage(u, i, va, bs);
    SetPageInv(u, start, i, j, f);
    forall r: nat
      ensures Owned(WriteChunk(s, i, va, bs), i, r) <==> Owned(s, i, r) || r == 4 + j
    {
      SetPageRoles(u, start, i, j, f, i, r);
    }
  }

  lemma PagesApart(va: nat, n: nat)
    requires va % PAGE == 0 && USER_BASE <= va && va + n * PAGE <= USER_BASE + WINDOW && n > 0
    ensures (va + PAGE) % PAGE == 0 && va + PAGE + (n - 1) * PAGE <= USER_BASE + WINDOW
    ensures n > 1 ==> PageTop(va + PAGE) == PageTop(va) + 1
  {
    WindowPage(va);
    if n > 1 {
      WindowPage(va + PAGE);
    }
    assert (va + PAGE) / PAGE == va / PAGE + 1;
  }

  function PageTop(va: nat): nat
  {
    4 + va / PAGE % 512
  }

  /** Zeroing `n` whole pages of the window that are not there takes `n` pages. */
  lemma {:induction false} FreshPages(s: Spaces, start: nat, i: nat, va: nat, n: nat)
    requires Inv(s, start) && IsUser(s, i) && va % PAGE == 0 && USER_BASE <= va && va + n * PAGE <= USER_BASE + WINDOW
    requires forall r: nat :: PageTop(va) <= r < PageTop(va) + n ==> !Owned(s, i, r)
    requires s.mem.next + n * PAGE <= s.mem.limit
    ensures var (ok, t) := WriteSlot(s, i, va, Zeros(n * PAGE));
            ok && Inv(t, start) && t == s.(mem := t.mem) && t.mem.used == s.mem.used + n * PAGE &&
            t.mem.next == s.mem.next + n * PAGE && t.mem.limit == s.mem.limit
    decreases n
  {
    hide Zeros, Inv, WriteSlot, WriteChunk, Owned, PageTop;
    if n == 0 {
      NoPages(s, i, va);
    } else {
      PagesApart(va, n);
      assert !Owned(s, i, PageTop(va));
      FirstPage(s, start, i, va, n);
      FreshPages(WriteChunk(s, i, va, Zeros(PAGE)), start, i, va + PAGE, n - 1);
    }
  }

  lemma NoPages(s: Spaces, i: nat, va: nat)
    requires i < |s.slots|
    ensures WriteSlot(s, i, va, Zeros(0 * PAGE)) == (true, s) && s == s.(mem := s.mem)
  {
    assert s.(mem := s.mem) == s;
  }

  lemma FirstPage(s: Spaces, start: nat, i: nat, va: nat, n: nat)
    requires Inv(s, start) && IsUser(s, i) && va % PAGE == 0 && USER_BASE <= va < USER_BASE + WINDOW && n > 0
    requires !Owned(s, i, PageTop(va)) && s.mem.next + PAGE <= s.mem.limit
    ensures var t := WriteChunk(s, i, va, Zeros(PAGE));
            WriteSlot(s, i, va, Zeros(n * PAGE)) == WriteSlot(t, i, va + PAGE, Zeros((n - 1) * PAGE)) &&
            Inv(t, start) && IsUser(t, i) && t == s.(mem := t.mem) && t.mem.used == s.mem.used + PAGE &&
            t.mem.next == s.mem.next + PAGE && t.mem.limit == s.mem.limit &&
            forall r: nat :: Owned(t, i, r) <==> Owned(s, i, r) || r == PageTop(va)
  {
    hide Inv, EnsurePage, WriteSlot, WriteChunk, Owned, ChunkAt, Written, Zeros;
    WholeChunk(va, n);
    WriteSlotSteps(s, start, i, va, Zeros(n * PAGE));
    EnsureOutcome(s, start, i, va);
    ChunkPages(s, start, i, va, Zeros(PAGE));
  }

  lemma WholeChunk(va: nat, n: nat)
    requires va % PAGE == 0 && n > 0
    ensures n * PAGE > 0 && ChunkAt(va, n * PAGE) == PAGE
    ensures Zeros(n * PAGE)[..PAGE] == Zeros(PAGE) && Zeros(n * PAGE)[PAGE..] == Zeros((n - 1) * PAGE)
  {
  }

  /** A write inside one page that is not there takes that page. */
  lemma OnePage(s: Spaces, start: nat, i: nat, va: nat, data: seq<byte>)
    requires Inv(s, start) && IsUser(s, i) && 0 < |data| && va % PAGE + |data| <= PAGE
    requires USER_BASE <= va < USER_BASE + WINDOW && !Owned(s, i, PageTop(va)) && s.mem.next + PAGE <= s.mem.limit
    ensures var (ok, t) := WriteSlot(s, i, va, data);
            ok && Inv(t, start) && t == s.(mem := t.mem) && t.mem.used == s.mem.used + PAGE &&
            t.mem.next == s.mem.next + PAGE && t.mem.limit == s.mem.limit &&
            forall r: nat :: Owned(t, i, r) <==> Owned(s, i, r) || r == PageTop(va)
  {
    assert ChunkAt(va, |data|) == |data| && data[..|data|] == data && data[|data|..] == [];
    WriteSlotSteps(s, start, i, va, data);
    EnsureOutcome(s, start, i, va);
    ChunkPages(s, start, i, va, data);
    hide Inv, EnsurePage, Owned, ChunkAt;
  }

  // ---- The demo ----

  /** A program of one page below the stack, as /bin/ring3demo is. */
  predicate SmallProgram(image: seq<byte>, info: Elf.ElfInfo)
  {
    InFile(image, info) && 0 < info.filesz && info.memsz <= info.filesz && info.first % PAGE + info.filesz <= PAGE &&
    USER_BASE <= info.first < STACK_TOP - STACK_BYTES
  }

  /** The spaces after a run: loaded, run, released. */
  function RunDemo(s: Spaces, image: seq<byte>, info: Elf.ElfInfo): Spaces
    requires InFile(image, info)
  {
    var (id, t) := LoadProgram(s, image, info);
    if id == 0 then t else Release(t, id)
  }

  lemma StackPages(first: nat)
    requires USER_BASE <= first < STACK_TOP - STACK_BYTES
    ensures (STACK_TOP - STACK_BYTES) % PAGE == 0 && STACK_BYTES == 4 * PAGE
    ensures PageTop(STACK_TOP - STACK_BYTES) == 512 && 4 <= PageTop(first) < 512
  {
    WindowPage(first);
    WindowPage(STACK_TOP - STACK_BYTES);
  }

  /** Four tables. */
  lemma CreatePages(s: Spaces, start: nat)
    requires Inv(s, start) && FreeFrom(s.slots, 0) >= 0 && s.mem.next + 4 * PAGE <= s.mem.limit
    ensures CreatesRoot(s, KIND_USER)
    ensures var (id, t) := Create(s, KIND_USER);
            id == s.nextId && Inv(t, start) && IsUser(t, FreeFrom(s.slots, 0)) &&
            t.mem.used == s.mem.used + 4 * PAGE && t.mem.next == s.mem.next + 4 * PAGE && t.mem.limit == s.mem.limit &&
            forall r: nat :: Owned(t, FreeFrom(s.slots, 0), r) <==> r < 4
  {
    CloneRootBuilds(s.mem, s.kernelCr3);
    CreateRootInv(s, start, KIND_USER);
    forall r: nat
      ensures Owned(Create(s, KIND_USER).1, FreeFrom(s.slots, 0), r) <==> r < 4
    {
      NewRootRoles(s, start, KIND_USER, r);
    }
    NewRootRoles(s, start, KIND_USER, 0);
    hide UserTables, PdptOf, PdOf, PtOf;
  }

  /** One page for the program, four for the stack. */
  lemma FillPages(s: Spaces, start: nat, id: nat, i: nat, image: seq<byte>, info: Elf.ElfInfo)
    requires Inv(s, start) && Find(s, id) == i && IsUser(s, i) && SmallProgram(image, info)
    requires (forall r: nat :: Owned(s, i, r) <==> r < 4) && s.mem.next + 5 * PAGE <= s.mem.limit
    ensures var (ok, t) := Fill(s, id, image, info);
            ok && Inv(t, start) && t == s.(mem := t.mem) && t.mem.used == s.mem.used + 5 * PAGE &&
            t.mem.next == s.mem.next + 5 * PAGE && t.mem.limit == s.mem.limit
  {
    StackPages(info.first);
    hide Inv, WriteSlot, Owned;
    OnePage(s, start, i, info.first, FileBytes(image, info));
    var s1 := Write(s, id, info.first, FileBytes(image, info)).1;
    WriteNothing(s1, id, info.first + info.filesz);
    FreshPages(s1, start, i, STACK_TOP - STACK_BYTES, 4);
  }

  /** So a run takes nine pages, which nothing gives back. */
  lemma DemoTakesNinePages(s: Spaces, start: nat, image: seq<byte>, info: Elf.ElfInfo)
    requires Inv(s, start) && Lifecycle.TableInv(s) && SmallProgram(image, info)
    requires FreeFrom(s.slots, 0) >= 0 && s.mem.next + 9 * PAGE <= s.mem.limit
    ensures var t := RunDemo(s, image, info);
            LoadProgram(s, image, info).0 != 0 && t.mem.used == s.mem.used + 9 * PAGE &&
            t.mem.next == s.mem.next + 9 * PAGE && t.mem.limit == s.mem.limit && Inv(t, start) && Lifecycle.TableInv(t)
  {
    CreatePages(s, start);
    NewIdFound(s, start);
    Lifecycle.CreateTable(s, KIND_USER);
    var (id, s1) := Create(s, KIND_USER);
    FillPages(s1, start, id, FreeFrom(s.slots, 0), image, info);
    hide Create, Fill, Inv, CreatesRoot, Release;
    var s2 := Fill(s1, id, image, info).1;
    TableSame(s1, s2);
    Lifecycle.ReleaseTable(s2, id);
    ReleaseInv(s2, start, id);
    ReleaseMem(s2, id);
  }

  lemma TableSame(s: Spaces, t: Spaces)
    requires Lifecycle.TableInv(s) && t == s.(mem := t.mem)
    ensures Lifecycle.TableInv(t)
  {
  }

  lemma ReleaseMem(s: Spaces, id: nat)
    ensures Release(s, id).mem == s.mem
  {
  }

  // ---- Around it, nothing else takes memory ----

  /** `t` has the memory of `s` and no slot more. */
  ghost predicate NoMore(s: Spaces, t: Spaces)
  {
    t.mem == s.mem && |t.slots| == |s.slots| && forall q :: 0 <= q < |s.slots| && t.slots[q].used ==> s.slots[q].used
  }

  /** The table and its pages are in order. */
  ghost predicate InOrder(s: Spaces, start: nat)
  {
    Inv(s, start) && Lifecycle.TableInv(s)
  }

  lemma ReleaseNoMore(s: Spaces, start: nat, id: nat)
    requires InOrder(s, start)
    ensures InOrder(Release(s, id), start) && NoMore(s, Release(s, id))
  {
    ReleaseInv(s, start, id);
    Lifecycle.ReleaseTable(s, id);
  }

  lemma RetainNoMore(s: Spaces, start: nat, id: nat)
    requires InOrder(s, start)
    ensures InOrder(Retain(s, id), start) && NoMore(s, Retain(s, id))
  {
    RetainInv(s, start, id);
    Lifecycle.RetainRoot(s, id, 0);
  }

  lemma SpawnNoMore(k: Kernel, start: nat)
    requires Sane(k) && k.current == 0 && SharedKernelSpace(k, 0) && InOrder(k.spaces, start)
    ensures InOrder(Spawn(k).1.spaces, start) && NoMore(k.spaces, Spawn(k).1.spaces)
  {
    hide Inv, Lifecycle.TableInv, Retain, Release;
    var id := k.tasks[0].aspaceId;
    var s1 := Retain(k.spaces, id);
    var s2 := Retain(s1, id);
    RetainNoMore(k.spaces, start, id);
    RetainNoMore(s1, start, id);
    ReleaseNoMore(s1, start, id);
    ReleaseNoMore(s2, start, id);
  }

  lemma StepNoMore(m: Machine, start: nat, l: Label)
    requires SaneMachine(m) && InOrder(m.kernel.spaces, start)
    ensures InOrder(Step(m, l).kernel.spaces, start) && NoMore(m.kernel.spaces, Step(m, l).kernel.spaces)
  {
    Afterwards.StepSpaces(m);
    ReleaseNoMore(m.kernel.spaces, start, m.kernel.tasks[m.kernel.current].aspaceId);
    hide InOrder, Release, CpuStep;
  }

  lemma {:induction false} RunNoMore(m: Machine, start: nat, ls: seq<Label>)
    requires SaneMachine(m) && InOrder(m.kernel.spaces, start)
    ensures InOrder(Run(m, ls).kernel.spaces, start) && NoMore(m.kernel.spaces, Run(m, ls).kernel.spaces)
    decreases |ls|
  {
    hide InOrder, Step;
    if |ls| > 0 {
      StepNoMore(m, start, ls[0]);
      RunNoMore(Step(m, ls[0]), start, ls[1..]);
    }
  }

  lemma {:induction false} LaunchNoMore(m: Machine, shell: Task, t: TraceState, done: seq<Script>, ws: seq<Script>, start: nat)
    requires Launched(m, shell, t, done) && |done| + |ws| < MAX_TASKS && InOrder(m.kernel.spaces, start)
    ensures InOrder(Launch(m, ws).kernel.spaces, start) && NoMore(m.kernel.spaces, Launch(m, ws).kernel.spaces)
    decreases |ws|
  {
    hide InOrder, Spawn, FreeSlotFrom, SharedKernelSpace;
    if |ws| > 0 {
      LaunchOne(m, shell, t, done, ws[0]);
      LaunchedShared(m, shell, t, done);
      SpawnNoMore(m.kernel, start);
      hide Launched;
      var slot := FreeSlotFrom(m.kernel.tasks, 1);
      var m1 := m.(active := m.active + 1, kernel := Spawn(m.kernel).1, scripts := m.scripts[slot := ws[0]]);
      LaunchNoMore(m1, shell, t, done + [ws[0]], ws[1..], start);
    }
  }

  lemma LaunchedShared(m: Machine, shell: Task, t: TraceState, ws: seq<Script>)
    requires Launched(m, shell, t, ws)
    ensures SharedKernelSpace(m.kernel, 0) && m.kernel.current == 0
  {
  }

  /** A recording takes and gives back no memory: what memory_used_bytes returns is the same all along. */
  lemma RecordingNoMore(k: Kernel, profile: nat, ws: seq<Script>, ls: seq<Label>, start: nat)
    requires Quiescent(k) && |ws| < MAX_TASKS && InOrder(k.spaces, start)
    ensures var r := Run(RecordStart(k, profile, ws), ls).kernel;
            InOrder(r.spaces, start) && NoMore(k.spaces, r.spaces)
  {
    var t := StartProfile(k.trace, profile, k.ticks);
    var k1 := Prepare(k).(trace := t);
    var m := Machine(k1, seq(MAX_TASKS, _ => []), 0, false, false);
    assert Launched(m, k.tasks[0], t, []);
    hide InOrder, Launched;
    LaunchNoMore(m, k.tasks[0], t, [], ws, start);
    RunNoMore(RecordStart(k, profile, ws), start, ls);
  }

  // ---- The demo from the shell ----

  function Demo(k: Kernel, image: seq<byte>, info: Elf.ElfInfo): Kernel
    requires InFile(image, info)
  {
    k.(spaces := RunDemo(k.spaces, image, info))
  }

  /** The space made for a run is gone afterwards. */
  lemma DemoSlots(s: Spaces, start: nat, image: seq<byte>, info: Elf.ElfInfo)
    requires InOrder(s, start) && SmallProgram(image, info) && FreeFrom(s.slots, 0) >= 0 && s.mem.next + 9 * PAGE <= s.mem.limit
    ensures RunDemo(s, image, info).slots == s.slots[FreeFrom(s.slots, 0) := EMPTY_SLOT]
  {
    hide Inv, Owned, Fill, SmallProgram;
    var i := FreeFrom(s.slots, 0);
    CreatePages(s, start);
    NewIdFound(s, start);
    CreatedSlot(s);
    KernelIdOld(s);
    var (id, s1) := Create(s, KIND_USER);
    FillPages(s1, start, id, i, image, info);
    hide Create, CreatesRoot, Lifecycle.TableInv;
  }

  lemma CreatedSlot(s: Spaces)
    requires CreatesRoot(s, KIND_USER)
    ensures var i, t := FreeFrom(s.slots, 0), Create(s, KIND_USER).1;
            t.slots == s.slots[i := t.slots[i]] && t.slots[i].refcount == 1 && t.kernelId == s.kernelId
  {
  }

  lemma KernelIdOld(s: Spaces)
    requires Lifecycle.TableInv(s)
    ensures s.kernelId < s.nextId
  {
  }

  /** A run from a quiescent shell leaves it quiescent, with nine pages more in use. */
  lemma DemoRuns(k: Kernel, start: nat, image: seq<byte>, info: Elf.ElfInfo)
    requires Quiescent(k) && InOrder(k.spaces, start) && SmallProgram(image, info)
    requires FreeFrom(k.spaces.slots, 0) >= 0 && k.spaces.mem.next + 9 * PAGE <= k.spaces.mem.limit
    ensures var j := Demo(k, image, info);
            Sane(j) && Quiescent(j) && j.tasks == k.tasks && j.trace == k.trace && InOrder(j.spaces, start) &&
            j.spaces.mem.used == k.spaces.mem.used + 9 * PAGE && j.spaces.mem.next == k.spaces.mem.next + 9 * PAGE &&
            j.spaces.mem.limit == k.spaces.mem.limit && FreeFrom(j.spaces.slots, 0) >= 0
  {
    hide RunDemo, Inv, Lifecycle.TableInv;
    var t := RunDemo(k.spaces, image, info);
    DemoTakesNinePages(k.spaces, start, image, info);
    DemoSlots(k.spaces, start, image, info);
    FindSame(k.spaces.slots, t.slots, k.tasks[0].aspaceId, 0);
    FreeStays(k.spaces.slots, t.slots);
  }

  lemma FreeStays(s: seq<Slot>, t: seq<Slot>)
    requires |t| == |s| && FreeFrom(s, 0) >= 0 && forall q :: 0 <= q < |s| && t[q].used ==> s[q].used
    ensures FreeFrom(t, 0) >= 0
  {
    assert !t[FreeFrom(s, 0)].used;
  }

  // ---- From boot ----

  /** A machine with memory for two runs of the demo, none of it used yet. */
  ghost predicate Bootable(m: Mem, cr3: nat)
  {
    Wf(m) && m.next <= 0x10_0000_0000_0000 && KernelBelow(m.frames, cr3, m.next) && m.used == 0 &&
    m.next + 18 * PAGE <= m.limit
  }

  /** Two pages for the kernel's own tables, and eighteen more, make such a machine. */
  lemma SomeMachineBoots()
    ensures exists m, cr3 :: Bootable(m, cr3)
  {
    EntryParts(0x2000);
    var root := SetWord(Zeros(PAGE), 0, 0x2007);
    WordOfSetWord(Zeros(PAGE), 0, 0x2007, 0);
    var frames: Frames := map a: nat | a < 0x1_5000 && a % PAGE == 0 :: if a == 0x1000 then root else Zeros(PAGE);
    var m := Mem(frames, 0x3000, 0x1_5000, 0);
    assert frames[0x1000] == root && 0x2000 in frames;
    assert Entry(frames, 0x1000, 0) == 0x2007;
    assert Bootable(m, 0x1000);
  }

  lemma BootInOrder(m: Mem, cr3: nat)
    requires Bootable(m, cr3)
    ensures var k := Lifecycle.Boot(m, cr3).kernel;
            Sane(k) && Quiescent(k) && !k.trace.replay.active && InOrder(k.spaces, m.next) && k.spaces.mem == m &&
            FreeFrom(k.spaces.slots, 0) >= 0
  {
    Afterwards.BootQuiescent(m, cr3);
    Lifecycle.BootAccounted(m, cr3);
    InitInv(m, cr3);
  }

  /** "demo record sysload" on a kernel with `used` bytes in use. */
  function RecordSysload(k: Kernel, ls: seq<Label>): Kernel
    requires Sane(k)
  {
    Run(RecordStart(k, SYSLOAD, ProfileScripts(SYSLOAD, k.spaces.mem.used)), ls).kernel
  }

  /** "demo replay" of what `r` has recorded, on kernel `j`. */
  function ReplaySysload(r: Kernel, j: Kernel, ls: seq<Label>): Machine
    requires Sane(j)
  {
    Run(ReplayStart(j, r.trace.log, r.trace.startTicks, ProfileScripts(SYSLOAD, j.spaces.mem.used)), ls)
  }

  /** A recording leaves the kernel ready for a run of the demo. */
  lemma SysloadRecorded(k: Kernel, ls: seq<Label>, start: nat)
    requires Quiescent(k) && !k.trace.replay.active && InOrder(k.spaces, start) && CpuCount(ls) > 228
    requires FreeFrom(k.spaces.slots, 0) >= 0
    ensures var used := k.spaces.mem.used;
            var r := RecordSysload(k, ls);
            Run(RecordStart(k, SYSLOAD, ProfileScripts(SYSLOAD, used)), ls).finished &&
            Sane(r) && Quiescent(r) && r.tasks[0] == k.tasks[0] && InOrder(r.spaces, start) && r.spaces.mem == k.spaces.mem &&
            FreeFrom(r.spaces.slots, 0) >= 0
  {
    var ws := ProfileScripts(SYSLOAD, k.spaces.mem.used);
    ProfileTotals(SYSLOAD, k.spaces.mem.used);
    hide InOrder, ProfileScripts, RecordStart, Run, Quiescent, TotalEvents, AllQuiet;
    RecordingTerminates(k, SYSLOAD, ws, ls);
    Afterwards.RecordingLeavesQuiescent(k, SYSLOAD, ws, ls);
    RecordingNoMore(k, SYSLOAD, ws, ls, start);
    var r := RecordSysload(k, ls);
    FreeStays(k.spaces.slots, r.spaces.slots);
  }

  /** From boot: run the demo, record a sysload session, run the demo, replay. Nine pages were in use at the
      recording and eighteen are at the replay, so its third step leaves the table. */
  lemma DemoRecordDemoReplay(m: Mem, cr3: nat, image: seq<byte>, info: Elf.ElfInfo, ls: seq<Label>, ls': seq<Label>)
    requires Bootable(m, cr3) && SmallProgram(image, info) && CpuCount(ls) > 228 && CpuCount(ls') >= 3
    ensures var k := Demo(Lifecycle.Boot(m, cr3).kernel, image, info);
            Sane(k) &&
            var r := RecordSysload(k, ls);
            var j := Demo(r, image, info);
            Sane(j) && k.spaces.mem.used == 0x9000 && j.spaces.mem.used == 0x1_2000 && ReplaySysload(r, j, ls').wild
  {
    hide InOrder, Lifecycle.Boot, RecordSysload, RunDemo, Bootable, SmallProgram, ReplaySysload, Run, RecordStart, Quiescent;
    BootableMem(m, cr3);
    SmallInFile(image, info);
    BootInOrder(m, cr3);
    var b := Lifecycle.Boot(m, cr3).kernel;
    DemoRuns(b, m.next, image, info);
    var k := Demo(b, image, info);
    SysloadRecorded(k, ls, m.next);
    var r := RecordSysload(k, ls);
    DemoRuns(r, m.next, image, info);
    var j := Demo(r, image, info);
    NinePages();
    SysloadOn(k, ls, j, ls');
  }

  lemma SmallInFile(image: seq<byte>, info: Elf.ElfInfo)
    requires SmallProgram(image, info)
    ensures InFile(image, info)
  {
  }

  lemma BootableMem(m: Mem, cr3: nat)
    requires Bootable(m, cr3)
    ensures m.used == 0 && m.next + 18 * PAGE <= m.limit
  {
  }

  lemma NinePages()
    ensures 9 * PAGE == 0x9000 && 18 * PAGE == 0x1_2000 && AsInt(0x9000) == 0x9000 && AsInt(0) == 0
  {
  }

  lemma SysloadOn(k: Kernel, ls: seq<Label>, j: Kernel, ls': seq<Label>)
    requires Quiescent(k) && !k.trace.replay.active && Quiescent(j) && j.tasks[0] == k.tasks[0]
    requires Run(RecordStart(k, SYSLOAD, ProfileScripts(SYSLOAD, k.spaces.mem.used)), ls).finished
    requires k.spaces.mem.used != j.spaces.mem.used
    ensures var p := ReplaySysload(RecordSysload(k, ls), j, ls');
            var used := k.spaces.mem.used;
            (CpuCount(ls') >= 2 ==> p.kernel.trace.replay.failed) &&
            (p.wild <==> AsInt(used) >= MAX_TASKS && CpuCount(ls') >= 3) &&
            (AsInt(used) == 0 ==> (p.finished <==> CpuCount(ls') >= 4)) &&
            (AsInt(used) == 0 && p.finished ==>
               !Quiescent(p.kernel) && p.active == 3 && ThreeWorkers(p.kernel) && Good(p) &&
               Afterwards.Housed(p, k.tasks[0]))
  {
    assert Sane(k) && Sane(j);
    hide ProfileScripts, RecordStart, ReplayStart, Run, AsInt, Quiescent, Good, ThreeWorkers, Afterwards.Housed;
    SysloadReplay(k, k.spaces.mem.used, ls, j, j.spaces.mem.used, ls');
    var p := ReplaySysload(RecordSysload(k, ls), j, ls');
    if AsInt(k.spaces.mem.used) == 0 && p.finished {
      SysloadLeaves(k, k.spaces.mem.used, ls, j, j.spaces.mem.used, ls');
    }
  }

  /** From boot: record a sysload session, run the demo, replay. The fourth step ends the replay, which has failed,
      with all three workers alive and counted; the next demo's first worker then gets the pid of the first of them. */
  lemma RecordDemoReplay(m: Mem, cr3: nat, image: seq<byte>, info: Elf.ElfInfo, ls: seq<Label>, ls': seq<Label>)
    requires Bootable(m, cr3) && SmallProgram(image, info) && CpuCount(ls) > 228 && CpuCount(ls') >= 4
    ensures var k := Lifecycle.Boot(m, cr3).kernel;
            var r := RecordSysload(k, ls);
            var j := Demo(r, image, info);
            Sane(j) && k.spaces.mem.used == 0 && j.spaces.mem.used == 0x9000 &&
            var p := ReplaySysload(r, j, ls');
            p.finished && p.kernel.trace.replay.failed && !Quiescent(p.kernel) && p.active == 3 && ThreeWorkers(p.kernel) &&
            var x := Prepare(p.kernel.(trace := p.kernel.trace.(replay := p.kernel.trace.replay.(active := false))));
            var y := Spawn(x).1;
            Live(y.tasks[1]) && Live(y.tasks[4]) && y.tasks[1].pid == y.tasks[4].pid == 2
  {
    BootInOrder(m, cr3);
    hide InOrder, Lifecycle.Boot, Demo, RecordSysload, RunDemo, ReplaySysload, Spawn, Prepare, Good, Afterwards.Housed;
    var k := Lifecycle.Boot(m, cr3).kernel;
    SysloadRecorded(k, ls, m.next);
    var r := RecordSysload(k, ls);
    DemoRuns(r, m.next, image, info);
    var j := Demo(r, image, info);
    NinePages();
    SysloadOn(k, ls, j, ls');
    NextDemoDuplicatesPid(ReplaySysload(r, j, ls'), k.tasks[0]);
  }
}
