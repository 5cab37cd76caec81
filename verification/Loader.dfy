/** Loading a program into a fresh address space (builtin_exec_run_sync in kernel/builtin_exec.c). */
module Loader {
  import opened Bytes
  import opened Memory
  import opened Paging
  import opened Aspace
  import Elf
  import Lifecycle

  const STACK_TOP: nat := USER_BASE + WINDOW
  const STACK_BYTES: nat := 0x4000

  /** The segment's bytes are in the file. */
  predicate InFile(image: seq<byte>, info: Elf.ElfInfo)
  {
    info.offset + info.filesz <= |image| < TWO_32
  }

  /** The bytes that the loader puts after those of the file; the length is cast to 32 bits. */
  function Bss(info: Elf.ElfInfo): seq<byte>
  {
    if info.memsz > info.filesz then Zeros((info.memsz - info.filesz) % TWO_32) else []
  }

  function FileBytes(image: seq<byte>, info: Elf.ElfInfo): seq<byte>
    requires InFile(image, info)
  {
    image[info.offset..info.offset + info.filesz]
  }

  /** The three writes, in order, up to the first that fails. */
  function Fill(s: Spaces, id: nat, image: seq<byte>, info: Elf.ElfInfo): (bool, Spaces)
    requires InFile(image, info)
  {
    var (ok1, s1) := Write(s, id, info.first, FileBytes(image, info));
    if !ok1 then (false, s1)
    else
      var (ok2, s2) := Write(s1, id, info.first + info.filesz, Bss(info));
      if !ok2 then (false, s2) else Write(s2, id, STACK_TOP - STACK_BYTES, Zeros(STACK_BYTES))
  }

  /** The load sequence: the id of the space that holds the program, or 0. */
  function LoadProgram(s: Spaces, image: seq<byte>, info: Elf.ElfInfo): (nat, Spaces)
    requires InFile(image, info)
  {
    var (id, s1) := Create(s, KIND_USER);
    if id == 0 then (0, s1)
    else
      var (ok, s2) := Fill(s1, id, image, info);
      if ok then (id, s2) else (0, Release(s2, id))
  }

  method LoadImage(spaces: AddressSpaces, image: seq<byte>, info: Elf.ElfInfo) returns (id: nat)
    requires InFile(image, info)
    modifies spaces
    ensures (id, spaces.View()) == LoadProgram(old(spaces.View()), image, info)
  {
    hide Create, Write, Release;
    id := spaces.CreateSpace(KIND_USER);
    if id == 0 {
      return;
    }
    WriteResolves(spaces.View(), id, info.first, FileBytes(image, info));
    var ok := spaces.WriteBytes(id, info.first, FileBytes(image, info));
    if ok && info.memsz > info.filesz {
      ok := spaces.ZeroBytes(id, info.first + info.filesz, (info.memsz - info.filesz) % TWO_32);
    } else {
      WriteNothing(spaces.View(), id, info.first + info.filesz);
    }
    if ok {
      ok := spaces.ZeroBytes(id, STACK_TOP - STACK_BYTES, STACK_BYTES);
    }
    if !ok {
      var _ := spaces.ReleaseSpace(id);
      id := 0;
    }
  }

  lemma WriteResolves(s: Spaces, id: nat, va: nat, data: seq<byte>)
    ensures Write(s, id, va, data).0 ==> Resolves(Write(s, id, va, data).1, id)
  {
  }

  lemma WriteNothing(s: Spaces, id: nat, va: nat)
    ensures Write(s, id, va, []) == (Resolves(s, id), s)
  {
  }

  /** A load that fails leaves no space behind: every reference count is as it was. One that succeeds adds one space,
      with one reference. */
  lemma LoadCounts(s: Spaces, image: seq<byte>, info: Elf.ElfInfo, x: nat)
    requires Lifecycle.TableInv(s) && InFile(image, info)
    ensures var (id, t) := LoadProgram(s, image, info);
            Lifecycle.TableInv(t) && (id != 0 ==> id == s.nextId) &&
            Lifecycle.Count(t, x) == Lifecycle.Count(s, x) + if id != 0 && x == id then 1 else 0
  {
    var (id, s1) := Create(s, KIND_USER);
    Lifecycle.CreateCounts(s, KIND_USER, x);
    Lifecycle.CreateTable(s, KIND_USER);
    Lifecycle.CreateCounts(s, KIND_USER, id);
    if id != 0 {
      FillKeepsTable(s1, id, image, info, x);
      Lifecycle.ReleaseCounts(Fill(s1, id, image, info).1, id, x);
    }
    hide Create, Fill, Release, Lifecycle.TableInv, Lifecycle.Count;
  }

  lemma FillKeepsTable(s: Spaces, id: nat, image: seq<byte>, info: Elf.ElfInfo, x: nat)
    requires Lifecycle.TableInv(s) && InFile(image, info)
    ensures var t := Fill(s, id, image, info).1;
            Lifecycle.TableInv(t) && Lifecycle.Count(t, x) == Lifecycle.Count(s, x) &&
            t.slots == s.slots && t.nextId == s.nextId && t.kernelId == s.kernelId
  {
    hide FileBytes, Bss, WriteMem;
  }

  // ---- What a program finds in its window ----

  /** A write by id, as seen at one address of one space. */
  lemma WriteSeen(s: Spaces, start: nat, id: nat, i: nat, va: nat, data: seq<byte>, k: nat, a: nat)
    requires Inv(s, start) && Find(s, id) == i && IsUser(s, i) && IsUser(s, k) && USER_BASE <= a < USER_BASE + WINDOW
    ensures var (ok, t) := Write(s, id, va, data);
            Inv(t, start) && t.slots == s.slots && t.nextId == s.nextId && t.kernelId == s.kernelId && Find(t, id) == i &&
            (k != i ==> Load(t.mem.frames, t.slots[k].cr3, a) == Load(s.mem.frames, s.slots[k].cr3, a)) &&
            (k == i && ok ==>
               Load(t.mem.frames, t.slots[i].cr3, a) == AfterStore(Load(s.mem.frames, s.slots[i].cr3, a), va, data, a))
  {
    WriteStores(s, start, i, va, data, k, a);
  }

  /** A new space has an empty window, and every other space reads as before. */
  lemma CreateSeen(s: Spaces, start: nat, k: nat, a: nat)
    requires Inv(s, start) && CreatesRoot(s, KIND_USER) && USER_BASE <= a < USER_BASE + WINDOW
    ensures var t := Create(s, KIND_USER).1;
            var i := FreeFrom(s.slots, 0);
            IsUser(t, i) && Load(t.mem.frames, t.slots[i].cr3, a) == PageFault &&
            (IsUser(s, k) ==>
               IsUser(t, k) && k != i && Load(t.mem.frames, t.slots[k].cr3, a) == Load(s.mem.frames, s.slots[k].cr3, a))
  {
    var t := Create(s, KIND_USER).1;
    var i := FreeFrom(s.slots, 0);
    var r := 4 + a / PAGE % 512;
    CreateRootInv(s, start, KIND_USER);
    NewRootRoles(s, start, KIND_USER, r);
    LoadIsPageByte(t, start, i, a);
    if IsUser(s, k) {
      CreateRoles(s, start, KIND_USER, k, r);
      LoadIsPageByte(s, start, k, a);
      LoadIsPageByte(t, start, k, a);
      if Owned(s, k, r) {
        assert PlacedAt(s, start, k, r);
        CloneRootBuilds(s.mem, s.kernelCr3);
      }
    }
  }

  /** What a successful load leaves at address `a` of the new space. */
  ghost predicate Holds(image: seq<byte>, info: Elf.ElfInfo, a: nat, seen: Loaded)
    requires InFile(image, info)
  {
    if STACK_TOP - STACK_BYTES <= a < STACK_TOP then seen == Loaded(0)
    else if info.first <= a < info.first + info.filesz then seen == Loaded(image[info.offset + (a - info.first)])
    else if info.first + info.filesz <= a < info.first + info.filesz + |Bss(info)| then seen == Loaded(0)
    else seen == PageFault || seen == Loaded(0)
  }

  lemma StoresHold(image: seq<byte>, info: Elf.ElfInfo, a: nat)
    requires InFile(image, info) && USER_BASE <= a < USER_BASE + WINDOW
    ensures var b1 := AfterStore(PageFault, info.first, FileBytes(image, info), a);
            var b2 := AfterStore(b1, info.first + info.filesz, Bss(info), a);
            Holds(image, info, a, AfterStore(b2, STACK_TOP - STACK_BYTES, Zeros(STACK_BYTES), a))
  {
  }

  /** Fill, as seen from the space it fills and from any other. */
  lemma FillSeen(s: Spaces, start: nat, id: nat, i: nat, image: seq<byte>, info: Elf.ElfInfo, k: nat, a: nat)
    requires Inv(s, start) && Find(s, id) == i && IsUser(s, i) && IsUser(s, k) && USER_BASE <= a < USER_BASE + WINDOW
    requires InFile(image, info)
    ensures var (ok, t) := Fill(s, id, image, info);
            Inv(t, start) && t.slots == s.slots && t.nextId == s.nextId && t.kernelId == s.kernelId && Find(t, id) == i &&
            (k != i ==> Load(t.mem.frames, t.slots[k].cr3, a) == Load(s.mem.frames, s.slots[k].cr3, a)) &&
            (k == i && ok && Load(s.mem.frames, s.slots[i].cr3, a) == PageFault ==>
               Holds(image, info, a, Load(t.mem.frames, t.slots[i].cr3, a)))
  {
    hide Inv, Find, Write, Load, AfterStore, Holds;
    WriteSeen(s, start, id, i, info.first, FileBytes(image, info), k, a);
    var (ok1, s1) := Write(s, id, info.first, FileBytes(image, info));
    if ok1 {
      WriteSeen(s1, start, id, i, info.first + info.filesz, Bss(info), k, a);
      var (ok2, s2) := Write(s1, id, info.first + info.filesz, Bss(info));
      if ok2 {
        WriteSeen(s2, start, id, i, STACK_TOP - STACK_BYTES, Zeros(STACK_BYTES), k, a);
        StoresHold(image, info, a);
      }
    }
  }

  lemma NewIdFound(s: Spaces, start: nat)
    requires Inv(s, start) && Lifecycle.TableInv(s) && Create(s, KIND_USER).0 != 0
    ensures CreatesRoot(s, KIND_USER) && Find(Create(s, KIND_USER).1, s.nextId) == FreeFrom(s.slots, 0)
    ensures Create(s, KIND_USER).0 == s.nextId
  {
    var t := Create(s, KIND_USER).1;
    var i, r := FreeFrom(s.slots, 0), Find(t, s.nextId);
    assert Names(t.slots[i], s.nextId);
  }

  /** If loading succeeds, the window of the new space holds a zero stack, below it the file bytes and then
      the zeros asked for, and nothing else; and no byte of any other space has changed, whether or not it succeeds. */
  lemma LoadedProgram(s: Spaces, start: nat, image: seq<byte>, info: Elf.ElfInfo, k: nat, a: nat)
    requires Inv(s, start) && Lifecycle.TableInv(s) && InFile(image, info)
    requires USER_BASE <= a < USER_BASE + WINDOW
    ensures var (id, t) := LoadProgram(s, image, info);
            Inv(t, start) &&
            (id != 0 ==> Find(t, id) >= 0 && Holds(image, info, a, Load(t.mem.frames, t.slots[Find(t, id)].cr3, a))) &&
            (IsUser(s, k) ==>
               IsUser(t, k) && Load(t.mem.frames, t.slots[k].cr3, a) == Load(s.mem.frames, s.slots[k].cr3, a))
  {
    var (id, s1) := Create(s, KIND_USER);
    CreateInv(s, start, KIND_USER);
    if id == 0 {
      FailedCreate(s, start, k);
    } else {
      NewIdFound(s, start);
      CreateSeen(s, start, k, a);
      FillLoaded(s, start, image, info, k, a);
    }
  }

  lemma FailedCreate(s: Spaces, start: nat, k: nat)
    requires Inv(s, start) && Create(s, KIND_USER).0 == 0
    ensures var t := Create(s, KIND_USER).1;
            t.mem.frames == s.mem.frames && (IsUser(s, k) ==> IsUser(t, k) && t.slots[k] == s.slots[k])
  {
    CloneRootBuilds(s.mem, s.kernelCr3);
  }

  lemma FillLoaded(s: Spaces, start: nat, image: seq<byte>, info: Elf.ElfInfo, k: nat, a: nat)
    requires Inv(s, start) && CreatesRoot(s, KIND_USER) && InFile(image, info)
    requires USER_BASE <= a < USER_BASE + WINDOW && Create(s, KIND_USER).0 == s.nextId
    requires Find(Create(s, KIND_USER).1, s.nextId) == FreeFrom(s.slots, 0)
    ensures var (id, t) := LoadProgram(s, image, info);
            Inv(t, start) &&
            (id != 0 ==> Find(t, id) >= 0 && Holds(image, info, a, Load(t.mem.frames, t.slots[Find(t, id)].cr3, a))) &&
            (IsUser(s, k) ==>
               IsUser(t, k) && Load(t.mem.frames, t.slots[k].cr3, a) == Load(s.mem.frames, s.slots[k].cr3, a))
  {
    var s1 := Create(s, KIND_USER).1;
    var i := FreeFrom(s.slots, 0);
    CreateInv(s, start, KIND_USER);
    CreateSeen(s, start, k, a);
    var s2 := Fill(s1, s.nextId, image, info).1;
    hide Inv, Create, CreatesRoot, Fill, Load, Holds, Release, Find;
    FillSeen(s1, start, s.nextId, i, image, info, i, a);
    if IsUser(s, k) {
      FillSeen(s1, start, s.nextId, i, image, info, k, a);
      ReleaseKeeps(s2, s.nextId, k);
    }
    ReleaseInv(s2, start, s.nextId);
  }

  lemma ReleaseKeeps(s: Spaces, id: nat, k: nat)
    requires k < |s.slots| && k != Find(s, id)
    ensures var t := Release(s, id); t.mem == s.mem && |t.slots| == |s.slots| && t.slots[k] == s.slots[k]
  {
  }

  /** From the file to the window: an accepted image without a segment at address 0, whose lowest segment is `i`. */
  lemma ImageLoaded(s: Spaces, start: nat, image: seq<byte>, i: nat, a: nat)
    requires Inv(s, start) && Lifecycle.TableInv(s) && USER_BASE <= a < USER_BASE + WINDOW && |image| < TWO_32
    requires Elf.Accepts(image) && Elf.TableInside(image)
    requires var ps := Elf.Headers(image);
             Elf.NoLoadAtZero(ps) && Elf.IsLowest(ps, i) &&
             ps[i].offset + ps[i].filesz <= |image|
    ensures var p := Elf.Headers(image)[i];
            var info := Elf.InfoOf(image, Elf.Headers(image));
            InFile(image, info) &&
            var (id, t) := LoadProgram(s, image, info);
            id != 0 ==>
              var seen := Load(t.mem.frames, t.slots[Find(t, id)].cr3, a);
              SegmentSeen(image, p, a, seen)
  {
    var info := Elf.InfoOf(image, Elf.Headers(image));
    Elf.LowestSegmentFound(image, i);
    hide Holds, SegmentSeen, LoadProgram, Inv, Load, Elf.Headers, Elf.InfoOf, Elf.Accepts, Elf.TableInside;
    LoadedProgram(s, start, image, info, 0, a);
    var (id, t) := LoadProgram(s, image, info);
    if id != 0 {
      SegmentHolds(image, info, Elf.Headers(image)[i], a, Load(t.mem.frames, t.slots[Find(t, id)].cr3, a));
    }
  }

  /** The stack is zero; below it, the segment holds its file bytes and then zeros up to its memory size. */
  ghost predicate SegmentSeen(image: seq<byte>, p: Elf.Phdr, a: nat, seen: Loaded)
    requires p.offset + p.filesz <= |image|
  {
    if a >= STACK_TOP - STACK_BYTES then seen == Loaded(0)
    else (p.vaddr <= a < p.vaddr + p.filesz ==> seen == Loaded(image[p.offset + (a - p.vaddr)])) &&
         (p.vaddr + p.filesz <= a < p.vaddr + p.memsz && p.memsz - p.filesz < TWO_32 ==> seen == Loaded(0))
  }

  lemma SegmentHolds(image: seq<byte>, info: Elf.ElfInfo, p: Elf.Phdr, a: nat, seen: Loaded)
    requires InFile(image, info) && USER_BASE <= a < USER_BASE + WINDOW && Holds(image, info, a, seen)
    requires info.first == p.vaddr && info.offset == p.offset && info.filesz == p.filesz && info.memsz == p.memsz
    ensures SegmentSeen(image, p, a, seen)
  {
  }
}
