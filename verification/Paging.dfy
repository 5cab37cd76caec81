/** 4-level paging: the hardware walk (section 4.5 of the Intel SDM, volume 3A) and the tables
    that clone_kernel_root builds for a user address space (kernel/aspace.c). */
module Paging {
  import opened Bytes
  import opened Memory

  const USER_BASE: nat := 0x4000_0000
  const WINDOW: nat := 0x20_0000

  type Frames = map<nat, Frame>

  predicate Present(e: nat)
  {
    e % 2 == 1
  }

  predicate Large(e: nat)
  {
    e / 0x80 % 2 == 1
  }

  /** The kernel's `entry & ~0xfff`. */
  function Base(e: nat): nat
  {
    e - e % PAGE
  }

  /** Bits 51:12, as the processor takes them. */
  function HwBase(e: nat): nat
  {
    e / PAGE % 0x100_0000_0000 * PAGE
  }

  /** A table word as the processor reads it; memory that is not there is not present. */
  function Entry(fs: Frames, table: nat, i: nat): nat
    requires i < 512
  {
    if table in fs then Word(fs[table], i) else 0
  }

  datatype Translation = Fault | Phys(addr: nat)

  function Walk(fs: Frames, cr3: nat, va: nat): Translation
  {
    var e4 := Entry(fs, HwBase(cr3), va / 0x80_0000_0000 % 512);
    if !Present(e4) then Fault else WalkPdpt(fs, HwBase(e4), va)
  }

  function WalkPdpt(fs: Frames, pdpt: nat, va: nat): Translation
  {
    var e3 := Entry(fs, pdpt, va / 0x4000_0000 % 512);
    if !Present(e3) then Fault
    else if Large(e3) then Phys(e3 / 0x4000_0000 % 0x40_0000 * 0x4000_0000 + va % 0x4000_0000)
    else WalkPd(fs, HwBase(e3), va)
  }

  function WalkPd(fs: Frames, pd: nat, va: nat): Translation
  {
    var e2 := Entry(fs, pd, va / 0x20_0000 % 512);
    if !Present(e2) then Fault
    else if Large(e2) then Phys(e2 / 0x20_0000 % 0x8000_0000 * 0x20_0000 + va % 0x20_0000)
    else WalkPt(fs, HwBase(e2), va)
  }

  function WalkPt(fs: Frames, pt: nat, va: nat): Translation
  {
    var e1 := Entry(fs, pt, va / PAGE % 512);
    if !Present(e1) then Fault else Phys(HwBase(e1) + va % PAGE)
  }

  /** An entry that the kernel writes: an aligned frame address with flags 0x007. */
  lemma EntryParts(a: nat)
    requires a % PAGE == 0 && a + PAGE <= 0x10_0000_0000_0000
    ensures a + 7 < TWO_64 && Present(a + 7) && !Large(a + 7) && Base(a + 7) == a && HwBase(a + 7) == a && HwBase(a) == a
  {
    var q := a / PAGE;
    assert a == 0x80 * (32 * q);
    FlagBits(a, 0x80, 32 * q);
    FlagBits(a, PAGE, q);
    assert q < 0x100_0000_0000;
  }

  lemma FlagBits(a: nat, unit: nat, q: nat)
    requires a == unit * q && (unit == PAGE || unit == 0x80)
    ensures a / unit == q && (a + 7) / unit == q && (a + 7) % unit == 7
  {
  }

  // ---- clone_kernel_root ----

  datatype Root = NoRoot | Root(cr3: nat)

  /** The four tables of a user space, once their frames have been allocated. */
  function BuildTables(fs: Frames, kernelPdpt: Frame, pml4: nat, pdpt: nat, pd: nat, pt: nat): Frames
  {
    fs[pml4 := SetWord(Zeros(PAGE), 0, pdpt + 7)]
      [pdpt := SetWord(kernelPdpt, 1, pd + 7)]
      [pd := SetWord(Zeros(PAGE), 0, pt + 7)]
      [pt := Zeros(PAGE)]
  }

  function FrameAt(fs: Frames, a: nat): Frame
  {
    if a in fs then fs[a] else Zeros(PAGE)
  }

  function CloneRoot(m: Mem, kernelCr3: nat): (Root, Mem)
  {
    var (pml4, m1) := PageAlloc(m);
    var (pdpt, m2) := PageAlloc(m1);
    var (pd, m3) := PageAlloc(m2);
    var (pt, m4) := PageAlloc(m3);
    if kernelCr3 == 0 || pml4 == 0 || pdpt == 0 || pd == 0 || pt == 0 then (NoRoot, m4)
    else
      var kernelPdpt := FrameAt(m.frames, Base(Entry(m.frames, kernelCr3, 0)));
      (Root(pml4), m4.(frames := BuildTables(m.frames, kernelPdpt, pml4, pdpt, pd, pt)))
  }

  /** The page table of a root as aspace_create recovers it, by following the words it finds. */
  function PdptOf(fs: Frames, cr3: nat): nat
  {
    Base(Entry(fs, cr3, 0))
  }

  function PdOf(fs: Frames, cr3: nat): nat
  {
    Base(Entry(fs, PdptOf(fs, cr3), USER_BASE / 0x4000_0000 % 512))
  }

  function PtOf(fs: Frames, cr3: nat): nat
  {
    Base(Entry(fs, PdOf(fs, cr3), USER_BASE / 0x20_0000 % 512))
  }

  /** What clone_kernel_root establishes and nothing later changes. */
  ghost predicate UserTables(fs: Frames, kernelCr3: nat, cr3: nat, pt: nat)
  {
    var pdpt := PdptOf(fs, cr3);
    var pd := PdOf(fs, cr3);
    cr3 in fs && pdpt in fs && pd in fs && pt in fs &&
    Aligned(cr3) && Aligned(pdpt) && Aligned(pd) && Aligned(pt) &&
    cr3 != pdpt && cr3 != pd && cr3 != pt && pdpt != pd && pdpt != pt && pd != pt &&
    Word(fs[cr3], 0) == pdpt + 7 &&
    Word(fs[pdpt], 1) == pd + 7 &&
    Word(fs[pd], 0) == pt + 7 &&
    (forall i :: 0 < i < 512 ==> Word(fs[cr3], i) == 0) &&
    (forall i :: 0 < i < 512 ==> Word(fs[pd], i) == 0) &&
    (forall i :: 0 <= i < 512 && i != 1 ==> Word(fs[pdpt], i) == Word(FrameAt(fs, PdptOf(fs, kernelCr3)), i))
  }

  predicate Aligned(a: nat)
  {
    a % PAGE == 0 && 0 < a && a + PAGE <= 0x10_0000_0000_0000
  }

  /** The kernel's own root lies below everything the allocator hands out. */
  ghost predicate KernelBelow(fs: Frames, kernelCr3: nat, start: nat)
  {
    0 < kernelCr3 < start && kernelCr3 % PAGE == 0 && kernelCr3 in fs &&
    PdptOf(fs, kernelCr3) < start && PdptOf(fs, kernelCr3) in fs && Present(Word(fs[kernelCr3], 0)) &&
    Word(fs[kernelCr3], 0) < 0x10_0000_0000_0000
  }

  ghost predicate Apart(a: nat, b: nat, c: nat, d: nat)
  {
    Aligned(a) && Aligned(b) && Aligned(c) && Aligned(d) &&
    a != b && a != c && a != d && b != c && b != d && c != d
  }

  lemma BuiltWords(fs: Frames, kp: Frame, pml4: nat, pdpt: nat, pd: nat, pt: nat, i: nat)
    requires Apart(pml4, pdpt, pd, pt) && i < 512
    ensures var g := BuildTables(fs, kp, pml4, pdpt, pd, pt);
            Word(g[pml4], i) == (if i == 0 then pdpt + 7 else 0) &&
            Word(g[pd], i) == (if i == 0 then pt + 7 else 0) &&
            Word(g[pdpt], i) == (if i == 1 then pd + 7 else Word(kp, i))
  {
    EntryParts(pdpt);
    EntryParts(pd);
    EntryParts(pt);
    WordOfZeros(i);
    WordOfSetWord(Zeros(PAGE), 0, pdpt + 7, i);
    WordOfSetWord(Zeros(PAGE), 0, pt + 7, i);
    WordOfSetWord(kp, 1, pd + 7, i);
  }

  /** The tables that aspace_create recovers are the ones that were allocated. */
  lemma BuiltTables(fs: Frames, kernelCr3: nat, pml4: nat, pdpt: nat, pd: nat, pt: nat)
    requires Apart(pml4, pdpt, pd, pt)
    requires kernelCr3 in fs && kernelCr3 !in {pml4, pdpt, pd, pt}
    requires PdptOf(fs, kernelCr3) in fs && PdptOf(fs, kernelCr3) !in {pml4, pdpt, pd, pt}
    ensures var g := BuildTables(fs, fs[PdptOf(fs, kernelCr3)], pml4, pdpt, pd, pt);
            PdptOf(g, pml4) == pdpt && PdOf(g, pml4) == pd && PtOf(g, pml4) == pt &&
            UserTables(g, kernelCr3, pml4, pt)
  {
    var kp := fs[PdptOf(fs, kernelCr3)];
    var g := BuildTables(fs, kp, pml4, pdpt, pd, pt);
    forall i | 0 <= i < 512
      ensures Word(g[pml4], i) == (if i == 0 then pdpt + 7 else 0)
      ensures Word(g[pd], i) == (if i == 0 then pt + 7 else 0)
      ensures Word(g[pdpt], i) == (if i == 1 then pd + 7 else Word(kp, i))
    {
      BuiltWords(fs, kp, pml4, pdpt, pd, pt, i);
    }
    EntryParts(pdpt);
    EntryParts(pd);
    EntryParts(pt);
    assert PdptOf(g, kernelCr3) == PdptOf(fs, kernelCr3);
  }

  /** The allocations of CloneRoot: all four frames, one after the other, or failure. */
  lemma CloneRootAllocates(m: Mem, kernelCr3: nat)
    requires kernelCr3 > 0 && m.next > 0
    ensures var (r, m') := CloneRoot(m, kernelCr3);
            if m.next + 4 * PAGE > m.limit
            then r == NoRoot && m'.frames == m.frames && m.next <= m'.next && m'.limit == m.limit &&
                 m'.used - m.used == m'.next - m.next && m'.next % PAGE == m.next % PAGE
            else r == Root(m.next) &&
                 m' == Mem(BuildTables(m.frames, FrameAt(m.frames, PdptOf(m.frames, kernelCr3)),
                                       m.next, m.next + PAGE, m.next + 2 * PAGE, m.next + 3 * PAGE),
                           m.next + 4 * PAGE, m.limit, m.used + 4 * PAGE)
  {
    hide BuildTables, FrameAt, Entry;
  }

  lemma NextFour(next: nat)
    requires next % PAGE == 0 && 0 < next && next + 4 * PAGE <= 0x10_0000_0000_0000
    ensures Apart(next, next + PAGE, next + 2 * PAGE, next + 3 * PAGE) && (next + 4 * PAGE) % PAGE == 0
  {
  }

  lemma BuiltFrame(fs: Frames, kp: Frame, next: nat)
    ensures var g := BuildTables(fs, kp, next, next + PAGE, next + 2 * PAGE, next + 3 * PAGE);
            g[next + 3 * PAGE] == Zeros(PAGE) &&
            forall a :: a in fs ==> a in g && (a < next || a >= next + 4 * PAGE ==> g[a] == fs[a])
  {
  }

  /** CloneRoot either fails and touches no frame, or builds a user root out of the next four
      frames and touches no other. */
  lemma CloneRootBuilds(m: Mem, kernelCr3: nat)
    requires Wf(m) && KernelBelow(m.frames, kernelCr3, m.next)
    ensures var (r, m') := CloneRoot(m, kernelCr3);
            Wf(m') && m.next <= m'.next && m'.limit == m.limit && m'.used - m.used == m'.next - m.next &&
            (r == NoRoot <==> m.next + 4 * PAGE > m.limit) &&
            (r == NoRoot ==> m'.frames == m.frames) &&
            (r.Root? ==>
               r.cr3 == m.next && m'.next == m.next + 4 * PAGE &&
               PdptOf(m'.frames, r.cr3) == m.next + PAGE &&
               PdOf(m'.frames, r.cr3) == m.next + 2 * PAGE &&
               PtOf(m'.frames, r.cr3) == m.next + 3 * PAGE &&
               UserTables(m'.frames, kernelCr3, r.cr3, m.next + 3 * PAGE) &&
               m'.frames[m.next + 3 * PAGE] == Zeros(PAGE) &&
               forall a :: a in m.frames && (a < m.next || a >= m'.next) ==> a in m'.frames && m'.frames[a] == m.frames[a])
  {
    CloneRootAllocates(m, kernelCr3);
    hide CloneRoot, BuildTables, UserTables, PdOf, PtOf;
    var (r, m') := CloneRoot(m, kernelCr3);
    if r.Root? {
      NextFour(m.next);
      BuiltFrame(m.frames, FrameAt(m.frames, PdptOf(m.frames, kernelCr3)), m.next);
      BuiltTables(m.frames, kernelCr3, m.next, m.next + PAGE, m.next + 2 * PAGE, m.next + 3 * PAGE);
    }
  }

  // ---- The walk of a user root ----

  /** In PML4 slot 0, outside PDPT slot 1, a user root translates exactly as the kernel's does. */
  lemma KernelHalfShared(fs: Frames, kernelCr3: nat, cr3: nat, pt: nat, start: nat, va: nat)
    requires UserTables(fs, kernelCr3, cr3, pt) && KernelBelow(fs, kernelCr3, start)
    requires start <= 0x10_0000_0000_0000
    requires va < 0x80_0000_0000 && va / 0x4000_0000 != 1
    ensures Walk(fs, cr3, va) == Walk(fs, kernelCr3, va)
  {
    var pdpt := PdptOf(fs, cr3);
    EntryParts(cr3);
    EntryParts(pdpt);
    assert HwBase(kernelCr3) == kernelCr3;
    var ke := Word(fs[kernelCr3], 0);
    assert HwBase(ke) == Base(ke);
    assert va / 0x80_0000_0000 % 512 == 0;
    assert 0 <= va / 0x4000_0000 % 512 < 512 && va / 0x4000_0000 % 512 != 1;
  }

  /** Everything else in a user root is the 2 MiB window, page by page through its own table. */
  lemma WindowWalk(fs: Frames, kernelCr3: nat, cr3: nat, pt: nat, va: nat)
    requires UserTables(fs, kernelCr3, cr3, pt)
    requires va < 0x1_0000_0000_0000 && (va >= 0x80_0000_0000 || va / 0x4000_0000 == 1)
    ensures Walk(fs, cr3, va) ==
            if USER_BASE <= va < USER_BASE + WINDOW then WalkPt(fs, pt, va) else Fault
  {
    EntryParts(cr3);
    EntryParts(PdptOf(fs, cr3));
    EntryParts(PdOf(fs, cr3));
    EntryParts(pt);
    if va < 0x80_0000_0000 {
      assert va / 0x80_0000_0000 % 512 == 0 && va / 0x4000_0000 % 512 == 1;
      assert va / 0x20_0000 % 512 == 0 <==> va < USER_BASE + WINDOW;
    } else {
      assert 0 < va / 0x80_0000_0000 % 512 < 512;
    }
  }

  /** pt_index is a bijection between the pages of the window and the 512 entries of its table. */
  lemma PageIndexBijective(va: nat, j: nat)
    requires USER_BASE <= va < USER_BASE + WINDOW && j < 512
    ensures va / PAGE % 512 == j <==> va / PAGE * PAGE == USER_BASE + j * PAGE
  {
  }
}
