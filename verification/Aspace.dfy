/** Address spaces (kernel/aspace.c): the table of reference-counted slots, the pages behind each
    user window, and what writing through one space does to every other. */
module Aspace {
  import opened Bytes
  import opened Memory
  import opened Paging

  const ASPACE_MAX: nat := 16
  const KIND_KERNEL: nat := 1
  const KIND_USER: nat := 2

  /** `userPt` is the address of the window's page table; 0 stands for NULL. */
  datatype Slot = Slot(used: bool, id: nat, kind: nat, refcount: nat, cr3: nat, userPt: nat)

  const EMPTY_SLOT: Slot := Slot(false, 0, 0, 0, 0, 0)

  datatype Spaces = Spaces(slots: seq<Slot>, nextId: nat, kernelId: nat, kernelCr3: nat, mem: Mem)

  // ---- The table ----

  predicate Names(t: Slot, id: nat)
  {
    t.used && t.id == id
  }

  function FindFrom(slots: seq<Slot>, id: nat, i: nat): (r: int)
    requires i <= |slots|
    ensures r == -1 || i <= r < |slots|
    ensures r >= 0 ==> Names(slots[r], id) && forall j :: i <= j < r ==> !Names(slots[j], id)
    ensures r == -1 ==> forall j :: i <= j < |slots| ==> !Names(slots[j], id)
    decreases |slots| - i
  {
    if i == |slots| then -1 else if Names(slots[i], id) then i else FindFrom(slots, id, i + 1)
  }

  /** find_slot, as an index. */
  function Find(s: Spaces, id: nat): (r: int)
    ensures -1 <= r < |s.slots|
    ensures r >= 0 ==> Names(s.slots[r], id)
    ensures r == -1 ==> forall j :: 0 <= j < |s.slots| ==> !Names(s.slots[j], id)
  {
    FindFrom(s.slots, id, 0)
  }

  function FreeFrom(slots: seq<Slot>, i: nat): (r: int)
    requires i <= |slots|
    ensures r == -1 || i <= r < |slots|
    ensures r >= 0 ==> !slots[r].used && forall j :: i <= j < r ==> slots[j].used
    ensures r == -1 ==> forall j :: i <= j < |slots| ==> slots[j].used
    decreases |slots| - i
  {
    if i == |slots| then -1 else if !slots[i].used then i else FreeFrom(slots, i + 1)
  }

  predicate Resolves(s: Spaces, id: nat)
  {
    Find(s, id) >= 0
  }

  /** The page-table root of a space, 0 for one that does not exist. */
  function RootOf(s: Spaces, id: nat): nat
  {
    if Resolves(s, id) then s.slots[Find(s, id)].cr3 else 0
  }

  function Retain(s: Spaces, id: nat): Spaces
  {
    var i := Find(s, id);
    if i < 0 then s else s.(slots := s.slots[i := s.slots[i].(refcount := s.slots[i].refcount + 1)])
  }

  function Release(s: Spaces, id: nat): Spaces
  {
    var i := Find(s, id);
    if i < 0 then s
    else
      var n := if s.slots[i].refcount > 0 then s.slots[i].refcount - 1 else 0;
      s.(slots := s.slots[i := if n == 0 && id != s.kernelId then EMPTY_SLOT else s.slots[i].(refcount := n)])
  }

  /** aspace_create: the new id, or 0. */
  function Create(s: Spaces, kind: nat): (r: (nat, Spaces))
  {
    var i := FreeFrom(s.slots, 0);
    if i < 0 then (0, s)
    else
      var s1 := s.(nextId := s.nextId + 1);
      if kind == KIND_KERNEL then
        (s.nextId, s1.(slots := s.slots[i := Slot(true, s.nextId, kind, 1, s.kernelCr3, 0)]))
      else
        var (root, m) := CloneRoot(s.mem, s.kernelCr3);
        match root
        case NoRoot => (0, s1.(slots := s.slots[i := EMPTY_SLOT], mem := m))
        case Root(cr3) =>
          (s.nextId, s1.(slots := s.slots[i := Slot(true, s.nextId, kind, 1, cr3, PtOf(m.frames, cr3))], mem := m))
  }

  /** aspace_fork_clone: the kernel space is shared, any other kind is created afresh. */
  function ForkClone(s: Spaces, parent: nat): (r: (nat, Spaces))
  {
    var i := Find(s, parent);
    if i < 0 then (0, s)
    else if s.slots[i].kind == KIND_KERNEL then (parent, Retain(s, parent))
    else Create(s, s.slots[i].kind)
  }

  // ---- Pages ----

  /** ensure_user_page for the page that holds `va`. */
  function EnsurePage(m: Mem, pt: nat, va: nat): (r: (bool, Mem))
  {
    var page := va - va % PAGE;
    if pt == 0 || page < USER_BASE || page >= USER_BASE + WINDOW then (false, m)
    else
      var j := page / PAGE % 512;
      if Present(Entry(m.frames, pt, j)) then (true, m)
      else
        var (phys, m1) := PageAlloc(m);
        if phys == 0 then (false, m1)
        else
          var fs := m.frames[phys := Zeros(PAGE)];
          (true, m1.(frames := fs[pt := SetWord(FrameAt(fs, pt), j, phys + 7)]))
  }

  function PutBytes(f: Frame, off: nat, bs: seq<byte>): Frame
    requires off + |bs| <= PAGE
  {
    f[..off] + bs + f[off + |bs|..]
  }

  /** aspace_write below the table lookup: one chunk per page. */
  function WriteMem(m: Mem, pt: nat, va: nat, data: seq<byte>): (r: (bool, Mem))
    decreases |data|
  {
    if |data| == 0 then (true, m)
    else
      var chunk := ChunkAt(va, |data|);
      var (ok, m1) := EnsurePage(m, pt, va);
      if !ok then (false, m1)
      else WriteMem(PutChunk(m1, pt, va, data[..chunk]), pt, va + chunk, data[chunk..])
  }

  /** How many bytes a write stores before it ends or fails. */
  function Written(m: Mem, pt: nat, va: nat, data: seq<byte>): (n: nat)
    ensures n <= |data|
    decreases |data|
  {
    if |data| == 0 then 0
    else
      var chunk := ChunkAt(va, |data|);
      var (ok, m1) := EnsurePage(m, pt, va);
      if !ok then 0
      else chunk + Written(PutChunk(m1, pt, va, data[..chunk]), pt, va + chunk, data[chunk..])
  }

  /** All of them exactly if it succeeds. */
  lemma {:induction false} WrittenAll(m: Mem, pt: nat, va: nat, data: seq<byte>)
    ensures WriteMem(m, pt, va, data).0 <==> Written(m, pt, va, data) == |data|
    decreases |data|
  {
    hide EnsurePage, PutChunk;
    if |data| > 0 {
      var chunk := ChunkAt(va, |data|);
      var (ok, m1) := EnsurePage(m, pt, va);
      if ok {
        WrittenAll(PutChunk(m1, pt, va, data[..chunk]), pt, va + chunk, data[chunk..]);
      }
    }
  }

  /** How many of the `n` bytes at `va` lie in its page. */
  function ChunkAt(va: nat, n: nat): (chunk: nat)
    requires n > 0
    ensures 0 < chunk <= n && va % PAGE + chunk <= PAGE
    ensures chunk < n ==> (va + chunk) % PAGE == 0
  {
    if PAGE - va % PAGE > n then n else PAGE - va % PAGE
  }

  /** The page frame behind `va` in the page table `pt`. */
  function PageFrame(fs: Frames, pt: nat, va: nat): nat
  {
    Base(Entry(fs, pt, va / PAGE % 512))
  }

  function PutChunk(m: Mem, pt: nat, va: nat, bs: seq<byte>): Mem
    requires va % PAGE + |bs| <= PAGE
  {
    var dst := PageFrame(m.frames, pt, va);
    m.(frames := m.frames[dst := PutBytes(FrameAt(m.frames, dst), va % PAGE, bs)])
  }

  function Write(s: Spaces, id: nat, va: nat, data: seq<byte>): (r: (bool, Spaces))
  {
    var i := Find(s, id);
    if i < 0 then (false, s) else WriteSlot(s, i, va, data)
  }

  function WriteSlot(s: Spaces, i: nat, va: nat, data: seq<byte>): (bool, Spaces)
    requires i < |s.slots|
  {
    var (ok, m) := WriteMem(s.mem, s.slots[i].userPt, va, data);
    (ok, s.(mem := m))
  }

  // ---- Ownership ----

  predicate IsUser(s: Spaces, i: nat)
  {
    i < |s.slots| && s.slots[i].used && s.slots[i].userPt != 0
  }

  function Pte(s: Spaces, i: nat, j: nat): nat
    requires i < |s.slots| && j < 512
  {
    Entry(s.mem.frames, s.slots[i].userPt, j)
  }

  /** The roles a frame can play in a space: its four tables, and page `r - 4` of its window. */
  predicate Owned(s: Spaces, i: nat, r: nat)
  {
    IsUser(s, i) && r < 516 && (r >= 4 ==> Present(Pte(s, i, r - 4)))
  }

  function RoleFrame(s: Spaces, i: nat, r: nat): nat
    requires i < |s.slots| && r < 516
  {
    if r == 0 then s.slots[i].cr3
    else if r == 1 then PdptOf(s.mem.frames, s.slots[i].cr3)
    else if r == 2 then PdOf(s.mem.frames, s.slots[i].cr3)
    else if r == 3 then s.slots[i].userPt
    else Base(Pte(s, i, r - 4))
  }

  ghost predicate BaseInv(s: Spaces, start: nat)
  {
    |s.slots| == ASPACE_MAX && 0 < s.nextId && Wf(s.mem) && start <= s.mem.next && start <= 0x10_0000_0000_0000 &&
    KernelBelow(s.mem.frames, s.kernelCr3, start)
  }

  ghost predicate TablesInv(s: Spaces)
  {
    forall i: nat :: IsUser(s, i) ==> UserTables(s.mem.frames, s.kernelCr3, s.slots[i].cr3, s.slots[i].userPt)
  }

  ghost predicate PlacedAt(s: Spaces, start: nat, i: nat, r: nat)
    requires Owned(s, i, r)
  {
    start <= RoleFrame(s, i, r) < s.mem.next && Aligned(RoleFrame(s, i, r)) && RoleFrame(s, i, r) in s.mem.frames &&
    (r >= 4 ==> Pte(s, i, r - 4) == RoleFrame(s, i, r) + 7)
  }

  ghost predicate PlacedInv(s: Spaces, start: nat)
  {
    forall i: nat, r: nat :: Owned(s, i, r) ==> PlacedAt(s, start, i, r)
  }

  ghost predicate DistinctInv(s: Spaces)
  {
    forall i: nat, r: nat, k: nat, q: nat ::
      Owned(s, i, r) && Owned(s, k, q) && RoleFrame(s, i, r) == RoleFrame(s, k, q) ==> i == k && r == q
  }

  /** Each allocated frame has one role in one address space; `start` is where allocation began. */
  ghost predicate Inv(s: Spaces, start: nat)
  {
    BaseInv(s, start) && TablesInv(s) && PlacedInv(s, start) && DistinctInv(s)
  }

  /** `t` has the frames of `s`, tables and pages alike, and adds only zeroed pages of space `i`. */
  ghost predicate Extends(s: Spaces, t: Spaces, i: nat)
  {
    t == s.(mem := t.mem) &&
    (forall k: nat, r: nat :: Owned(s, k, r) ==> Owned(t, k, r) && RoleFrame(t, k, r) == RoleFrame(s, k, r)) &&
    (forall k: nat, r: nat :: Owned(s, k, r) && r >= 4 ==> FrameAt(t.mem.frames, RoleFrame(s, k, r)) == FrameAt(s.mem.frames, RoleFrame(s, k, r))) &&
    (forall k: nat, r: nat :: Owned(t, k, r) && !Owned(s, k, r) ==> k == i && r >= 4 && FrameAt(t.mem.frames, RoleFrame(t, k, r)) == Zeros(PAGE))
  }

  ghost predicate SameAt(fs: Frames, gs: Frames, a: nat)
  {
    a in fs && a in gs && fs[a] == gs[a]
  }

  /** Tables are where they were, and user tables still, if their frames and the kernel's were left alone. */
  lemma TablesKept(s: Spaces, start: nat, t: Spaces, k: nat)
    requires Inv(s, start) && IsUser(s, k) && t == s.(mem := t.mem)
    requires SameAt(s.mem.frames, t.mem.frames, s.kernelCr3)
    requires SameAt(s.mem.frames, t.mem.frames, PdptOf(s.mem.frames, s.kernelCr3))
    requires SameAt(s.mem.frames, t.mem.frames, RoleFrame(s, k, 0))
    requires SameAt(s.mem.frames, t.mem.frames, RoleFrame(s, k, 1))
    requires SameAt(s.mem.frames, t.mem.frames, RoleFrame(s, k, 2))
    requires s.slots[k].userPt in t.mem.frames
    ensures UserTables(t.mem.frames, t.kernelCr3, t.slots[k].cr3, t.slots[k].userPt)
    ensures forall r :: 0 <= r < 4 ==> RoleFrame(t, k, r) == RoleFrame(s, k, r)
  {
  }

  /** Frames below `start` belong to no space. */
  lemma KernelFramesApart(s: Spaces, start: nat, i: nat, r: nat)
    requires Inv(s, start) && Owned(s, i, r)
    ensures RoleFrame(s, i, r) != s.kernelCr3 && RoleFrame(s, i, r) != PdptOf(s.mem.frames, s.kernelCr3)
    ensures RoleFrame(s, i, r) != s.mem.next
  {
  }

  function MapPage(m: Mem, pt: nat, j: nat): Mem
    requires j < 512
  {
    var fs := m.frames[m.next := Zeros(PAGE)];
    m.(next := m.next + PAGE, used := m.used + PAGE, frames := fs[pt := SetWord(FrameAt(fs, pt), j, m.next + 7)])
  }

  lemma MapPageTables(s: Spaces, start: nat, i: nat, j: nat, k: nat)
    requires Inv(s, start) && IsUser(s, i) && j < 512 && IsUser(s, k) && s.mem.next + PAGE <= s.mem.limit
    ensures var t := s.(mem := MapPage(s.mem, s.slots[i].userPt, j));
            UserTables(t.mem.frames, t.kernelCr3, t.slots[k].cr3, t.slots[k].userPt) &&
            forall r :: 0 <= r < 4 ==> RoleFrame(t, k, r) == RoleFrame(s, k, r)
  {
    var t := s.(mem := MapPage(s.mem, s.slots[i].userPt, j));
    assert Owned(s, i, 3) && Owned(s, k, 0) && Owned(s, k, 1) && Owned(s, k, 2) && Owned(s, k, 3);
    KernelFramesApart(s, start, i, 3);
    TablesKept(s, start, t, k);
  }

  lemma MapPagePtes(s: Spaces, start: nat, i: nat, j: nat, k: nat, q: nat)
    requires Inv(s, start) && IsUser(s, i) && j < 512 && IsUser(s, k) && q < 512 && s.mem.next + PAGE <= s.mem.limit
    ensures var t := s.(mem := MapPage(s.mem, s.slots[i].userPt, j));
            Pte(t, k, q) == if k == i && q == j then s.mem.next + 7 else Pte(s, k, q)
  {
    assert Owned(s, i, 3) && Owned(s, k, 3);
    KernelFramesApart(s, start, i, 3);
    KernelFramesApart(s, start, k, 3);
    EntryParts(s.mem.next);
    if k == i {
      WordOfSetWord(s.mem.frames[s.slots[i].userPt], j, s.mem.next + 7, q);
    }
  }

  /** How the roles of `t` come from those of `s` when page `j` of space `i` is mapped. */
  ghost predicate MappedRole(s: Spaces, t: Spaces, i: nat, j: nat, k: nat, r: nat)
  {
    (Owned(t, k, r) <==> Owned(s, k, r) || (k == i && r == 4 + j)) &&
    (Owned(s, k, r) ==> RoleFrame(t, k, r) == RoleFrame(s, k, r)) &&
    (Owned(s, k, r) ==> RoleFrame(s, k, r) in t.mem.frames) &&
    (Owned(s, k, r) && r >= 4 ==> Pte(t, k, r - 4) == Pte(s, k, r - 4)) &&
    (Owned(s, k, r) && r >= 4 ==>
       FrameAt(t.mem.frames, RoleFrame(s, k, r)) == FrameAt(s.mem.frames, RoleFrame(s, k, r)))
  }

  lemma MapPageRoles(s: Spaces, start: nat, i: nat, j: nat, k: nat, r: nat)
    requires Inv(s, start) && IsUser(s, i) && j < 512 && !Present(Pte(s, i, j)) && s.mem.next + PAGE <= s.mem.limit
    ensures MappedRole(s, s.(mem := MapPage(s.mem, s.slots[i].userPt, j)), i, j, k, r)
  {
    EntryParts(s.mem.next);
    if IsUser(s, k) && r < 516 {
      MapPageTables(s, start, i, j, k);
      if r >= 4 {
        MapPagePtes(s, start, i, j, k, r - 4);
      }
      assert Owned(s, i, 3);
      if Owned(s, k, r) {
        KernelFramesApart(s, start, k, r);
      }
      KernelFramesApart(s, start, i, 3);
    }
  }

  lemma MappedPage(s: Spaces, start: nat, i: nat, j: nat)
    requires Inv(s, start) && IsUser(s, i) && j < 512 && !Present(Pte(s, i, j)) && s.mem.next + PAGE <= s.mem.limit
    ensures var t := s.(mem := MapPage(s.mem, s.slots[i].userPt, j));
            Owned(t, i, 4 + j) && RoleFrame(t, i, 4 + j) == s.mem.next && PlacedAt(t, start, i, 4 + j) &&
            FrameAt(t.mem.frames, s.mem.next) == Zeros(PAGE)
  {
    EntryParts(s.mem.next);
    MapPagePtes(s, start, i, j, i, j);
    assert Owned(s, i, 3);
    KernelFramesApart(s, start, i, 3);
  }

  lemma KernelStaysBelow(fs: Frames, gs: Frames, kernelCr3: nat, start: nat)
    requires KernelBelow(fs, kernelCr3, start)
    requires SameAt(fs, gs, kernelCr3) && SameAt(fs, gs, PdptOf(fs, kernelCr3))
    ensures KernelBelow(gs, kernelCr3, start)
  {
  }

  lemma MapPageWf(m: Mem, pt: nat, j: nat)
    requires Wf(m) && j < 512
    ensures Wf(MapPage(m, pt, j))
  {
    hide SetWord, FrameAt;
    var g := MapPage(m, pt, j);
    assert forall a :: a in m.frames ==> a in g.frames;
    assert g.next % PAGE == 0 && g.limit == m.limit;
  }

  lemma MapPageBase(s: Spaces, start: nat, i: nat, j: nat)
    requires Inv(s, start) && IsUser(s, i) && j < 512 && !Present(Pte(s, i, j)) && s.mem.next + PAGE <= s.mem.limit
    ensures BaseInv(s.(mem := MapPage(s.mem, s.slots[i].userPt, j)), start)
  {
    assert Owned(s, i, 3);
    KernelFramesApart(s, start, i, 3);
    MapPageWf(s.mem, s.slots[i].userPt, j);
    KernelStaysBelow(s.mem.frames, MapPage(s.mem, s.slots[i].userPt, j).frames, s.kernelCr3, start);
  }

  lemma MapPageAllTables(s: Spaces, start: nat, i: nat, j: nat)
    requires Inv(s, start) && IsUser(s, i) && j < 512 && !Present(Pte(s, i, j)) && s.mem.next + PAGE <= s.mem.limit
    ensures TablesInv(s.(mem := MapPage(s.mem, s.slots[i].userPt, j)))
  {
    var t := s.(mem := MapPage(s.mem, s.slots[i].userPt, j));
    forall k: nat | IsUser(t, k)
      ensures UserTables(t.mem.frames, t.kernelCr3, t.slots[k].cr3, t.slots[k].userPt)
    {
      assert IsUser(s, k);
      MapPageTables(s, start, i, j, k);
    }
  }

  lemma MapPagePlaced(s: Spaces, start: nat, i: nat, j: nat)
    requires Inv(s, start) && IsUser(s, i) && j < 512 && !Present(Pte(s, i, j)) && s.mem.next + PAGE <= s.mem.limit
    ensures var t := s.(mem := MapPage(s.mem, s.slots[i].userPt, j)); PlacedInv(t, start) && DistinctInv(t)
  {
    var t := s.(mem := MapPage(s.mem, s.slots[i].userPt, j));
    MappedPage(s, start, i, j);
    forall k: nat, r: nat | Owned(t, k, r)
      ensures PlacedAt(t, start, k, r)
    {
      MapPageRoles(s, start, i, j, k, r);
    }
    forall k: nat, r: nat, l: nat, q: nat | Owned(t, k, r) && Owned(t, l, q) && RoleFrame(t, k, r) == RoleFrame(t, l, q)
      ensures k == l && r == q
    {
      MapPageRoles(s, start, i, j, k, r);
      MapPageRoles(s, start, i, j, l, q);
      if Owned(s, k, r) {
        KernelFramesApart(s, start, k, r);
      }
      if Owned(s, l, q) {
        KernelFramesApart(s, start, l, q);
      }
    }
  }

  lemma MapPageExtends(s: Spaces, start: nat, i: nat, j: nat)
    requires Inv(s, start) && IsUser(s, i) && j < 512 && !Present(Pte(s, i, j)) && s.mem.next + PAGE <= s.mem.limit
    ensures var t := s.(mem := MapPage(s.mem, s.slots[i].userPt, j));
            Extends(s, t, i) && forall r: nat :: Owned(t, i, r) && !Owned(s, i, r) ==> r == 4 + j
  {
    var t := s.(mem := MapPage(s.mem, s.slots[i].userPt, j));
    forall k: nat, r: nat | Owned(s, k, r)
      ensures Owned(t, k, r) && RoleFrame(t, k, r) == RoleFrame(s, k, r)
      ensures r >= 4 ==> FrameAt(t.mem.frames, RoleFrame(s, k, r)) == FrameAt(s.mem.frames, RoleFrame(s, k, r))
    {
      MapPageRoles(s, start, i, j, k, r);
    }
    forall k: nat, r: nat | Owned(t, k, r) && !Owned(s, k, r)
      ensures k == i && r == 4 + j && FrameAt(t.mem.frames, RoleFrame(t, k, r)) == Zeros(PAGE)
    {
      MapPageRoles(s, start, i, j, k, r);
      MappedPage(s, start, i, j);
    }
  }

  lemma EnsurePageCases(s: Spaces, i: nat, va: nat)
    requires IsUser(s, i) && Wf(s.mem)
    ensures var (ok, m) := EnsurePage(s.mem, s.slots[i].userPt, va);
            var j := va / PAGE % 512;
            (m == s.mem && (ok ==> USER_BASE <= va < USER_BASE + WINDOW && Present(Pte(s, i, j)))) ||
            (ok && USER_BASE <= va < USER_BASE + WINDOW && !Present(Pte(s, i, j)) &&
             s.mem.next + PAGE <= s.mem.limit && m == MapPage(s.mem, s.slots[i].userPt, j))
  {
    assert (va - va % PAGE) / PAGE == va / PAGE;
  }

  lemma EnsurePageExtends(s: Spaces, start: nat, i: nat, va: nat)
    requires Inv(s, start) && IsUser(s, i)
    ensures var (ok, m) := EnsurePage(s.mem, s.slots[i].userPt, va);
            var t := s.(mem := m);
            Inv(t, start) && Extends(s, t, i) &&
            (ok ==> USER_BASE <= va < USER_BASE + WINDOW && Owned(t, i, 4 + va / PAGE % 512)) &&
            (forall r: nat :: Owned(t, i, r) && !Owned(s, i, r) ==> ok && r == 4 + va / PAGE % 512)
  {
    var j := va / PAGE % 512;
    var (ok, m) := EnsurePage(s.mem, s.slots[i].userPt, va);
    EnsurePageCases(s, i, va);
    if m == s.mem {
      assert s.(mem := m) == s;
    } else {
      MapPageBase(s, start, i, j);
      MapPageAllTables(s, start, i, j);
      MapPagePlaced(s, start, i, j);
      MapPageExtends(s, start, i, j);
      MappedPage(s, start, i, j);
    }
  }

  // ---- Writing into a page ----

  /** `s` with the frame of page `j` of space `i` replaced. */
  function SetPage(s: Spaces, i: nat, j: nat, f: Frame): Spaces
    requires i < |s.slots| && j < 512
  {
    s.(mem := s.mem.(frames := s.mem.frames[RoleFrame(s, i, 4 + j) := f]))
  }

  lemma SetPageRoles(s: Spaces, start: nat, i: nat, j: nat, f: Frame, k: nat, r: nat)
    requires Inv(s, start) && j < 512 && Owned(s, i, 4 + j)
    ensures var t := SetPage(s, i, j, f);
            (Owned(t, k, r) <==> Owned(s, k, r)) &&
            (IsUser(s, k) ==> UserTables(t.mem.frames, t.kernelCr3, t.slots[k].cr3, t.slots[k].userPt)) &&
            (Owned(s, k, r) ==> RoleFrame(t, k, r) == RoleFrame(s, k, r)) &&
            (Owned(s, k, r) && r >= 4 ==> Pte(t, k, r - 4) == Pte(s, k, r - 4)) &&
            (Owned(s, k, r) && r >= 4 ==>
               FrameAt(t.mem.frames, RoleFrame(s, k, r)) ==
               if k == i && r == 4 + j then f else FrameAt(s.mem.frames, RoleFrame(s, k, r)))
  {
    var t := SetPage(s, i, j, f);
    KernelFramesApart(s, start, i, 4 + j);
    if IsUser(s, k) {
      assert Owned(s, k, 0) && Owned(s, k, 1) && Owned(s, k, 2) && Owned(s, k, 3);
      assert PlacedAt(s, start, k, 0) && PlacedAt(s, start, k, 1) && PlacedAt(s, start, k, 2) && PlacedAt(s, start, k, 3);
      TablesKept(s, start, t, k);
      assert SameAt(s.mem.frames, t.mem.frames, s.slots[k].userPt);
    }
  }

  lemma SetPageInv(s: Spaces, start: nat, i: nat, j: nat, f: Frame)
    requires Inv(s, start) && j < 512 && Owned(s, i, 4 + j)
    ensures Inv(SetPage(s, i, j, f), start)
  {
    var t := SetPage(s, i, j, f);
    KernelFramesApart(s, start, i, 4 + j);
    KernelStaysBelow(s.mem.frames, t.mem.frames, s.kernelCr3, start);
    assert Wf(t.mem) by {
      forall a: nat | a % PAGE == 0 && a + PAGE <= t.mem.limit
        ensures a in t.mem.frames
      {
        assert a in s.mem.frames;
      }
    }
    forall k: nat, r: nat
      ensures Owned(t, k, r) <==> Owned(s, k, r)
      ensures Owned(s, k, r) ==> RoleFrame(t, k, r) == RoleFrame(s, k, r)
      ensures Owned(s, k, r) && r >= 4 ==> Pte(t, k, r - 4) == Pte(s, k, r - 4)
    {
      SetPageRoles(s, start, i, j, f, k, r);
    }
    assert TablesInv(t) by {
      forall k: nat | IsUser(t, k)
        ensures UserTables(t.mem.frames, t.kernelCr3, t.slots[k].cr3, t.slots[k].userPt)
      {
        SetPageRoles(s, start, i, j, f, k, 0);
      }
    }
    assert PlacedInv(t, start) by {
      forall k: nat, r: nat | Owned(t, k, r)
        ensures PlacedAt(t, start, k, r)
      {
        assert PlacedAt(s, start, k, r);
      }
    }
  }

  // ---- What the processor reads ----

  datatype Loaded = PageFault | Loaded(b: byte)

  /** A one-byte load through the hardware walk. */
  function Load(fs: Frames, cr3: nat, va: nat): Loaded
  {
    LoadAt(fs, Walk(fs, cr3, va))
  }

  function LoadAt(fs: Frames, tr: Translation): Loaded
  {
    match tr
    case Fault => PageFault
    case Phys(p) => Loaded(FrameAt(fs, p - p % PAGE)[p % PAGE])
  }

  /** The byte of the page that space `i` owns at window address `a`. */
  function PageByte(s: Spaces, i: nat, a: nat): Loaded
    requires i < |s.slots|
  {
    var r := 4 + a / PAGE % 512;
    if Owned(s, i, r) then Loaded(FrameAt(s.mem.frames, RoleFrame(s, i, r))[a % PAGE]) else PageFault
  }

  lemma LoadThroughTable(fs: Frames, pt: nat, a: nat, d: nat)
    requires pt in fs
    requires var e := Word(fs[pt], a / PAGE % 512); !Present(e) || (e == d + 7 && Aligned(d))
    ensures LoadAt(fs, WalkPt(fs, pt, a)) ==
            if Present(Word(fs[pt], a / PAGE % 512)) then Loaded(FrameAt(fs, d)[a % PAGE]) else PageFault
  {
    if Present(Word(fs[pt], a / PAGE % 512)) {
      EntryParts(d);
      OffsetInPage(d, a % PAGE);
    }
  }

  lemma OffsetInPage(d: nat, off: nat)
    requires d % PAGE == 0 && off < PAGE
    ensures (d + off) % PAGE == off && d + off - (d + off) % PAGE == d
  {
  }

  /** Window pages are numbered by their table index. */
  lemma WindowPage(a: nat)
    requires USER_BASE <= a < USER_BASE + WINDOW
    ensures a / PAGE % 512 == a / PAGE - USER_BASE / PAGE
  {
  }

  lemma SamePage(a: nat, va: nat)
    requires a / PAGE == va / PAGE
    ensures a - va == a % PAGE - va % PAGE
  {
  }

  lemma OtherPage(a: nat, va: nat, n: nat)
    requires a / PAGE != va / PAGE && va % PAGE + n <= PAGE
    ensures !(va <= a < va + n)
  {
  }

  /** In the window, a load sees the byte of the page that the space owns there, or faults. */
  lemma LoadIsPageByte(s: Spaces, start: nat, i: nat, a: nat)
    requires Inv(s, start) && IsUser(s, i) && USER_BASE <= a < USER_BASE + WINDOW
    ensures Load(s.mem.frames, s.slots[i].cr3, a) == PageByte(s, i, a)
  {
    var r := 4 + a / PAGE % 512;
    assert UserTables(s.mem.frames, s.kernelCr3, s.slots[i].cr3, s.slots[i].userPt);
    assert Owned(s, i, r) ==> PlacedAt(s, start, i, r);
    WindowWalk(s.mem.frames, s.kernelCr3, s.slots[i].cr3, s.slots[i].userPt, a);
    LoadThroughTable(s.mem.frames, s.slots[i].userPt, a, RoleFrame(s, i, r));
  }

  /** A store of `data` at `va`, as seen at address `a`: the new byte inside; the old byte outside;
      and a page that was not there appears, zeroed, only if the store reaches it. */
  function AfterStore(before: Loaded, va: nat, data: seq<byte>, a: nat): Loaded
  {
    if va <= a < va + |data| then Loaded(data[a - va])
    else if before == PageFault && |data| > 0 && va / PAGE <= a / PAGE <= (va + |data| - 1) / PAGE then Loaded(0)
    else before
  }

  /** Mapping the page first changes nothing but turns its absence into zeros. */
  lemma EnsuredByte(s: Spaces, start: nat, i: nat, va: nat, k: nat, a: nat)
    requires Inv(s, start) && IsUser(s, i) && IsUser(s, k) && USER_BASE <= a < USER_BASE + WINDOW
    requires EnsurePage(s.mem, s.slots[i].userPt, va).0
    ensures var u := s.(mem := EnsurePage(s.mem, s.slots[i].userPt, va).1);
            PageByte(u, k, a) ==
            if k == i && a / PAGE == va / PAGE && PageByte(s, k, a) == PageFault then Loaded(0) else PageByte(s, k, a)
  {
    EnsurePageExtends(s, start, i, va);
    WindowPage(a);
    WindowPage(va);
  }

  lemma PutByte(s: Spaces, start: nat, i: nat, va: nat, bs: seq<byte>, k: nat, a: nat)
    requires Inv(s, start) && Owned(s, i, 4 + va / PAGE % 512) && va % PAGE + |bs| <= PAGE
    requires USER_BASE <= va < USER_BASE + WINDOW && IsUser(s, k) && USER_BASE <= a < USER_BASE + WINDOW
    ensures var t := s.(mem := PutChunk(s.mem, s.slots[i].userPt, va, bs));
            Inv(t, start) &&
            PageByte(t, k, a) == if k == i && va <= a < va + |bs| then Loaded(bs[a - va]) else PageByte(s, k, a)
  {
    var j := va / PAGE % 512;
    var old_ := FrameAt(s.mem.frames, RoleFrame(s, i, 4 + j));
    var f := PutBytes(old_, va % PAGE, bs);
    assert i < |s.slots| && k < |s.slots|;
    hide Inv, SetPage, RoleFrame, PutChunk, Owned, PutBytes;
    PutIsSetPage(s, i, va, bs);
    SetPageInv(s, start, i, j, f);
    SetPageRoles(s, start, i, j, f, k, 4 + a / PAGE % 512);
    WindowSpot(a, va, |bs|);
    PutBytesAt(old_, va % PAGE, bs, a % PAGE);
  }

  lemma PutIsSetPage(s: Spaces, i: nat, va: nat, bs: seq<byte>)
    requires i < |s.slots| && va % PAGE + |bs| <= PAGE
    ensures var j := va / PAGE % 512;
            SetPage(s, i, j, PutBytes(FrameAt(s.mem.frames, RoleFrame(s, i, 4 + j)), va % PAGE, bs)) ==
            s.(mem := PutChunk(s.mem, s.slots[i].userPt, va, bs))
  {
  }

  lemma PutBytesAt(f: Frame, off: nat, bs: seq<byte>, b: nat)
    requires off + |bs| <= PAGE && b < PAGE
    ensures PutBytes(f, off, bs)[b] == if off <= b < off + |bs| then bs[b - off] else f[b]
  {
  }

  /** Which bytes of which page a chunk covers. */
  lemma WindowSpot(a: nat, va: nat, n: nat)
    requires USER_BASE <= a < USER_BASE + WINDOW && USER_BASE <= va < USER_BASE + WINDOW && va % PAGE + n <= PAGE
    ensures va <= a < va + n <==> a / PAGE % 512 == va / PAGE % 512 && va % PAGE <= a % PAGE < va % PAGE + n
    ensures va <= a < va + n ==> a - va == a % PAGE - va % PAGE
  {
    WindowPage(a);
    WindowPage(va);
    if a / PAGE == va / PAGE {
      SamePage(a, va);
    } else {
      OtherPage(a, va, n);
    }
  }

  function WriteChunk(s: Spaces, i: nat, va: nat, bs: seq<byte>): Spaces
    requires i < |s.slots| && va % PAGE + |bs| <= PAGE
  {
    s.(mem := PutChunk(EnsurePage(s.mem, s.slots[i].userPt, va).1, s.slots[i].userPt, va, bs))
  }

  lemma WriteSlotSteps(s: Spaces, start: nat, i: nat, va: nat, data: seq<byte>)
    requires Inv(s, start) && IsUser(s, i) && |data| > 0
    ensures var chunk := ChunkAt(va, |data|);
            WriteSlot(s, i, va, data) ==
            if EnsurePage(s.mem, s.slots[i].userPt, va).0
            then WriteSlot(WriteChunk(s, i, va, data[..chunk]), i, va + chunk, data[chunk..])
            else (false, s)
    ensures var chunk := ChunkAt(va, |data|);
            var pt := s.slots[i].userPt;
            Written(s.mem, pt, va, data) ==
            if EnsurePage(s.mem, pt, va).0
            then chunk + Written(WriteChunk(s, i, va, data[..chunk]).mem, pt, va + chunk, data[chunk..])
            else 0
  {
    EnsurePageCases(s, i, va);
  }

  /** One chunk: both the space written and every other space. */
  lemma ChunkStored(s: Spaces, start: nat, i: nat, va: nat, bs: seq<byte>, k: nat, a: nat)
    requires Inv(s, start) && IsUser(s, i) && |bs| > 0 && va % PAGE + |bs| <= PAGE
    requires IsUser(s, k) && USER_BASE <= a < USER_BASE + WINDOW
    requires EnsurePage(s.mem, s.slots[i].userPt, va).0
    ensures var t := WriteChunk(s, i, va, bs);
            Inv(t, start) && t.slots == s.slots &&
            PageByte(t, k, a) == if k == i then AfterStore(PageByte(s, i, a), va, bs, a) else PageByte(s, k, a)
  {
    var u := s.(mem := EnsurePage(s.mem, s.slots[i].userPt, va).1);
    EnsurePageExtends(s, start, i, va);
    EnsuredByte(s, start, i, va, k, a);
    PutByte(u, start, i, va, bs, k, a);
    assert (va + |bs| - 1) / PAGE == va / PAGE;
  }

  lemma {:induction false} WriteStoresBytes(s: Spaces, start: nat, i: nat, va: nat, data: seq<byte>, k: nat, a: nat)
    requires Inv(s, start) && IsUser(s, i) && IsUser(s, k) && USER_BASE <= a < USER_BASE + WINDOW
    ensures var t := WriteSlot(s, i, va, data).1;
            var n := Written(s.mem, s.slots[i].userPt, va, data);
            Inv(t, start) && t.slots == s.slots &&
            PageByte(t, k, a) == if k == i then AfterStore(PageByte(s, i, a), va, data[..n], a) else PageByte(s, k, a)
    decreases |data|
  {
    hide Inv, EnsurePage, PageByte, ChunkAt, WriteSlot, WriteMem, Written, WriteChunk, AfterStore, Owned;
    if |data| == 0 {
      NothingStored(s, i, va, if k == i then PageByte(s, i, a) else PageFault, a);
    } else {
      WriteSlotSteps(s, start, i, va, data);
      if !EnsurePage(s.mem, s.slots[i].userPt, va).0 {
        NothingAfter(if k == i then PageByte(s, i, a) else PageFault, va, data, a);
      } else {
        var chunk := ChunkAt(va, |data|);
        var n := Written(s.mem, s.slots[i].userPt, va, data);
        StoreSplits(PageByte(s, i, a), va, data, chunk, n, a);
        ChunkStored(s, start, i, va, data[..chunk], k, a);
        WriteStoresBytes(WriteChunk(s, i, va, data[..chunk]), start, i, va + chunk, data[chunk..], k, a);
      }
    }
  }

  lemma NothingStored(s: Spaces, i: nat, va: nat, before: Loaded, a: nat)
    requires i < |s.slots|
    ensures WriteSlot(s, i, va, []).1 == s && Written(s.mem, s.slots[i].userPt, va, []) == 0
    ensures AfterStore(before, va, [], a) == before
  {
    assert s.(mem := s.mem) == s;
  }

  lemma NothingAfter(before: Loaded, va: nat, data: seq<byte>, a: nat)
    ensures data[..0] == [] && AfterStore(before, va, [], a) == before
  {
  }

  /** A write stores exactly the first `Written` bytes of the data, all of them if it succeeds and fewer if it
      fails: through the page tables, these read back across page boundaries, and every other byte of every
      space is as it was, but for zeros in the pages that the stored bytes reach. */
  lemma WriteStores(s: Spaces, start: nat, i: nat, va: nat, data: seq<byte>, k: nat, a: nat)
    requires Inv(s, start) && IsUser(s, i) && IsUser(s, k) && USER_BASE <= a < USER_BASE + WINDOW
    ensures var (ok, m) := WriteMem(s.mem, s.slots[i].userPt, va, data);
            var n := Written(s.mem, s.slots[i].userPt, va, data);
            var before := Load(s.mem.frames, s.slots[k].cr3, a);
            Inv(s.(mem := m), start) && (ok ==> n == |data|) && (!ok ==> n < |data|) &&
            Load(m.frames, s.slots[k].cr3, a) == if k == i then AfterStore(before, va, data[..n], a) else before
  {
    WrittenAll(s.mem, s.slots[i].userPt, va, data);
    hide Written, AfterStore;
    WriteStoresBytes(s, start, i, va, data, k, a);
    LoadIsPageByte(s, start, k, a);
    LoadIsPageByte(WriteSlot(s, i, va, data).1, start, k, a);
  }

  /** Storing a chunk that ends at a page boundary, or at the end, and then the rest. */
  lemma StoreSplits(before: Loaded, va: nat, data: seq<byte>, chunk: nat, n: nat, a: nat)
    requires 0 < chunk <= n <= |data| && (chunk < |data| ==> (va + chunk) % PAGE == 0)
    ensures AfterStore(AfterStore(before, va, data[..chunk], a), va + chunk, data[chunk..][..n - chunk], a) ==
            AfterStore(before, va, data[..n], a)
  {
    if chunk < |data| {
      assert (va + chunk - 1) / PAGE + 1 == (va + chunk) / PAGE;
    }
  }

  /** No mapping that exists is moved or removed, in any space, by a write that succeeds or fails. */
  lemma {:induction false} WriteKeepsMappings(s: Spaces, start: nat, i: nat, va: nat, data: seq<byte>, k: nat, r: nat)
    requires Inv(s, start) && IsUser(s, i) && Owned(s, k, r)
    ensures var t := WriteSlot(s, i, va, data).1;
            Inv(t, start) && t.slots == s.slots && Owned(t, k, r) && RoleFrame(t, k, r) == RoleFrame(s, k, r)
    decreases |data|
  {
    hide Inv, EnsurePage, Owned, RoleFrame;
    if |data| == 0 {
      assert s.(mem := s.mem) == s;
    } else {
      hide WriteSlot, WriteMem, WriteChunk;
      WriteSlotSteps(s, start, i, va, data);
      if EnsurePage(s.mem, s.slots[i].userPt, va).0 {
        var chunk := ChunkAt(va, |data|);
        ChunkKeepsMappings(s, start, i, va, data[..chunk], k, r);
        WriteKeepsMappings(WriteChunk(s, i, va, data[..chunk]), start, i, va + chunk, data[chunk..], k, r);
      }
    }
  }

  lemma ChunkKeepsMappings(s: Spaces, start: nat, i: nat, va: nat, bs: seq<byte>, k: nat, r: nat)
    requires Inv(s, start) && IsUser(s, i) && va % PAGE + |bs| <= PAGE && Owned(s, k, r)
    requires EnsurePage(s.mem, s.slots[i].userPt, va).0
    ensures var t := WriteChunk(s, i, va, bs);
            Inv(t, start) && t.slots == s.slots && Owned(t, k, r) && RoleFrame(t, k, r) == RoleFrame(s, k, r)
  {
    EnsurePageExtends(s, start, i, va);
    var u := s.(mem := EnsurePage(s.mem, s.slots[i].userPt, va).1);
    assert Owned(u, k, r);
    var j := va / PAGE % 512;
    var f := PutBytes(FrameAt(u.mem.frames, RoleFrame(u, i, 4 + j)), va % PAGE, bs);
    assert SetPage(u, i, j, f) == WriteChunk(s, i, va, bs);
    SetPageInv(u, start, i, j, f);
    SetPageRoles(u, start, i, j, f, k, r);
  }

  /** A write that succeeds lies inside the window. */
  lemma {:induction false} WriteInWindow(s: Spaces, start: nat, i: nat, va: nat, data: seq<byte>)
    requires Inv(s, start) && IsUser(s, i) && |data| > 0 && WriteSlot(s, i, va, data).0
    ensures USER_BASE <= va && va + |data| <= USER_BASE + WINDOW
    decreases |data|
  {
    hide Inv, EnsurePage, ChunkAt, WriteChunk, WriteSlot;
    var chunk := ChunkAt(va, |data|);
    WriteSlotSteps(s, start, i, va, data);
    EnsurePageExtends(s, start, i, va);
    if chunk < |data| {
      assert Owned(s, i, 0);
      ChunkKeepsMappings(s, start, i, va, data[..chunk], i, 0);
      WriteInWindow(WriteChunk(s, i, va, data[..chunk]), start, i, va + chunk, data[chunk..]);
    } else {
      ChunkInWindow(va, chunk);
    }
  }

  /** A write inside the window fails only for want of a frame. */
  lemma {:induction false} WriteFailsFull(s: Spaces, start: nat, i: nat, va: nat, data: seq<byte>)
    requires Inv(s, start) && IsUser(s, i) && !WriteSlot(s, i, va, data).0
    requires USER_BASE <= va && va + |data| <= USER_BASE + WINDOW
    ensures var t := WriteSlot(s, i, va, data).1; t.mem.next + PAGE > t.mem.limit
    decreases |data|
  {
    hide Inv, EnsurePage, ChunkAt, WriteChunk;
    assert |data| > 0;
    hide WriteSlot, WriteMem;
    var chunk := ChunkAt(va, |data|);
    WriteSlotSteps(s, start, i, va, data);
    EnsureOutcome(s, start, i, va);
    if EnsurePage(s.mem, s.slots[i].userPt, va).0 {
      assert Owned(s, i, 0);
      ChunkKeepsMappings(s, start, i, va, data[..chunk], i, 0);
      WriteFailsFull(WriteChunk(s, i, va, data[..chunk]), start, i, va + chunk, data[chunk..]);
    }
  }

  lemma ChunkInWindow(va: nat, n: nat)
    requires USER_BASE <= va < USER_BASE + WINDOW && va % PAGE + n <= PAGE
    ensures va + n <= USER_BASE + WINDOW
  {
  }

  lemma EnsureOutcome(s: Spaces, start: nat, i: nat, va: nat)
    requires Inv(s, start) && IsUser(s, i) && USER_BASE <= va < USER_BASE + WINDOW
    ensures EnsurePage(s.mem, s.slots[i].userPt, va).0 || s.mem.next + PAGE > s.mem.limit
  {
    assert USER_BASE <= va - va % PAGE;
  }

  // ---- The table operations ----

  /** Dropping slots, or changing only their bookkeeping, keeps ownership. */
  lemma FewerSlots(s: Spaces, start: nat, t: Spaces)
    requires Inv(s, start) && t.mem.frames == s.mem.frames && s.mem.next <= t.mem.next && Wf(t.mem)
    requires t.kernelCr3 == s.kernelCr3 && |t.slots| == |s.slots| && 0 < t.nextId
    requires forall k: nat :: IsUser(t, k) ==>
               IsUser(s, k) && t.slots[k].cr3 == s.slots[k].cr3 && t.slots[k].userPt == s.slots[k].userPt
    ensures Inv(t, start)
  {
    forall k: nat, r: nat | Owned(t, k, r)
      ensures Owned(s, k, r) && RoleFrame(t, k, r) == RoleFrame(s, k, r) && PlacedAt(t, start, k, r)
    {
      assert IsUser(t, k);
      assert Owned(s, k, r);
      assert PlacedAt(s, start, k, r);
    }
  }

  lemma RetainInv(s: Spaces, start: nat, id: nat)
    requires Inv(s, start)
    ensures Inv(Retain(s, id), start)
  {
    FewerSlots(s, start, Retain(s, id));
  }

  lemma ReleaseInv(s: Spaces, start: nat, id: nat)
    requires Inv(s, start)
    ensures Inv(Release(s, id), start)
  {
    FewerSlots(s, start, Release(s, id));
  }

  predicate CreatesRoot(s: Spaces, kind: nat)
  {
    kind != KIND_KERNEL && FreeFrom(s.slots, 0) >= 0 && CloneRoot(s.mem, s.kernelCr3).0.Root?
  }

  /** A new root at slot `i` disturbs no role of any other slot. */
  lemma CreateRoles(s: Spaces, start: nat, kind: nat, k: nat, r: nat)
    requires Inv(s, start) && CreatesRoot(s, kind) && IsUser(s, k)
    ensures var t := Create(s, kind).1;
            k != FreeFrom(s.slots, 0) && IsUser(t, k) && (Owned(t, k, r) <==> Owned(s, k, r)) &&
            UserTables(t.mem.frames, t.kernelCr3, t.slots[k].cr3, t.slots[k].userPt) &&
            (Owned(s, k, r) ==> RoleFrame(t, k, r) == RoleFrame(s, k, r) && PlacedAt(t, start, k, r))
  {
    var t := Create(s, kind).1;
    CloneRootBuilds(s.mem, s.kernelCr3);
    assert t.slots[k] == s.slots[k] && t.mem == CloneRoot(s.mem, s.kernelCr3).1;
    hide Create, CloneRoot, UserTables;
    var u := s.(mem := t.mem);
    assert Owned(s, k, 0) && Owned(s, k, 1) && Owned(s, k, 2) && Owned(s, k, 3);
    assert PlacedAt(s, start, k, 0) && PlacedAt(s, start, k, 1) && PlacedAt(s, start, k, 2) && PlacedAt(s, start, k, 3);
    TablesKept(s, start, u, k);
    assert SameAt(s.mem.frames, t.mem.frames, s.slots[k].userPt);
    if Owned(s, k, r) {
      assert PlacedAt(s, start, k, r);
    }
  }

  lemma NewRootRoles(s: Spaces, start: nat, kind: nat, r: nat)
    requires Inv(s, start) && CreatesRoot(s, kind)
    ensures var t := Create(s, kind).1;
            var i := FreeFrom(s.slots, 0);
            i >= 0 && IsUser(t, i) && (Owned(t, i, r) <==> r < 4) &&
            UserTables(t.mem.frames, t.kernelCr3, t.slots[i].cr3, t.slots[i].userPt) &&
            (r < 4 ==> RoleFrame(t, i, r) == s.mem.next + r * PAGE && PlacedAt(t, start, i, r))
  {
    CloneRootBuilds(s.mem, s.kernelCr3);
    var t, i := Create(s, kind).1, FreeFrom(s.slots, 0);
    assert t.slots[i].cr3 == s.mem.next && t.slots[i].userPt == s.mem.next + 3 * PAGE;
    assert t.mem == CloneRoot(s.mem, s.kernelCr3).1;
    hide Create, CloneRoot, UserTables, PtOf;
    if 4 <= r < 516 {
      WordOfZeros(r - 4);
    }
    if r < 4 {
      assert RoleFrame(t, i, r) == s.mem.next + r * PAGE;
    }
  }

  lemma CreateRootInv(s: Spaces, start: nat, kind: nat)
    requires Inv(s, start) && CreatesRoot(s, kind)
    ensures Inv(Create(s, kind).1, start)
  {
    var t := Create(s, kind).1;
    var i := FreeFrom(s.slots, 0);
    CloneRootBuilds(s.mem, s.kernelCr3);
    KernelStaysBelow(s.mem.frames, t.mem.frames, s.kernelCr3, start);
    forall k: nat, r: nat | Owned(t, k, r)
      ensures PlacedAt(t, start, k, r) && UserTables(t.mem.frames, t.kernelCr3, t.slots[k].cr3, t.slots[k].userPt)
      ensures k != i ==> Owned(s, k, r) && RoleFrame(t, k, r) == RoleFrame(s, k, r)
      ensures k == i ==> r < 4 && RoleFrame(t, k, r) == s.mem.next + r * PAGE
    {
      if k == i {
        NewRootRoles(s, start, kind, r);
      } else {
        CreateRoles(s, start, kind, k, r);
      }
    }
    assert TablesInv(t) by {
      forall k: nat | IsUser(t, k)
        ensures UserTables(t.mem.frames, t.kernelCr3, t.slots[k].cr3, t.slots[k].userPt)
      {
        assert Owned(t, k, 0);
      }
    }
    assert DistinctInv(t) by {
      forall k: nat, r: nat, l: nat, q: nat | Owned(t, k, r) && Owned(t, l, q) && RoleFrame(t, k, r) == RoleFrame(t, l, q)
        ensures k == l && r == q
      {
        assert k != i ==> PlacedAt(s, start, k, r);
        assert l != i ==> PlacedAt(s, start, l, q);
      }
    }
  }

  /** aspace_create keeps ownership, whether it succeeds, finds no slot or runs out of frames. */
  lemma CreateInv(s: Spaces, start: nat, kind: nat)
    requires Inv(s, start)
    ensures Inv(Create(s, kind).1, start)
  {
    if CreatesRoot(s, kind) {
      CreateRootInv(s, start, kind);
    } else {
      CloneRootBuilds(s.mem, s.kernelCr3);
      FewerSlots(s, start, Create(s, kind).1);
    }
  }

  // ---- Every reachable state ----

  datatype Op = OpCreate(kind: nat) | OpFork(id: nat) | OpRetain(id: nat) | OpRelease(id: nat) |
                OpWrite(id: nat, va: nat, data: seq<byte>)

  function Apply(s: Spaces, op: Op): Spaces
  {
    match op
    case OpCreate(kind) => Create(s, kind).1
    case OpFork(id) => ForkClone(s, id).1
    case OpRetain(id) => Retain(s, id)
    case OpRelease(id) => Release(s, id)
    case OpWrite(id, va, data) => Write(s, id, va, data).1
  }

  function RunOps(s: Spaces, ops: seq<Op>): Spaces
    decreases |ops|
  {
    if |ops| == 0 then s else RunOps(Apply(s, ops[0]), ops[1..])
  }

  /** A slot without a window of its own cannot be written at all. */
  lemma WriteNoWindow(m: Mem, va: nat, data: seq<byte>)
    ensures WriteMem(m, 0, va, data).1 == m
  {
  }

  lemma ApplyInv(s: Spaces, start: nat, op: Op)
    requires Inv(s, start)
    ensures Inv(Apply(s, op), start)
  {
    match op {
      case OpCreate(kind) =>
        CreateInv(s, start, kind);
      case OpFork(id) =>
        var i := Find(s, id);
        if i >= 0 {
          CreateInv(s, start, s.slots[i].kind);
          RetainInv(s, start, id);
        }
      case OpRetain(id) =>
        RetainInv(s, start, id);
      case OpRelease(id) =>
        ReleaseInv(s, start, id);
      case OpWrite(id, va, data) =>
        var i := Find(s, id);
        if i >= 0 {
          if s.slots[i].userPt == 0 {
            WriteNoWindow(s.mem, va, data);
            assert Write(s, id, va, data).1 == s;
          } else {
            assert Owned(s, i, 0);
            WriteKeepsMappings(s, start, i, va, data, i, 0);
          }
        }
    }
  }

  /** In every state that any run reaches, each allocated frame has one role in one space. */
  lemma {:induction false} RunInv(s: Spaces, start: nat, ops: seq<Op>)
    requires Inv(s, start)
    ensures Inv(RunOps(s, ops), start)
    decreases |ops|
  {
    if |ops| > 0 {
      ApplyInv(s, start, ops[0]);
      RunInv(Apply(s, ops[0]), start, ops[1..]);
    }
  }

  lemma EnsureBudget(m: Mem, pt: nat, va: nat)
    ensures Budget(EnsurePage(m, pt, va).1) == Budget(m)
  {
    hide SetWord, FrameAt, Entry;
  }

  lemma {:induction false} WriteBudget(m: Mem, pt: nat, va: nat, data: seq<byte>)
    ensures Budget(WriteMem(m, pt, va, data).1) == Budget(m)
    decreases |data|
  {
    hide EnsurePage, PutBytes;
    if |data| > 0 {
      var chunk := ChunkAt(va, |data|);
      var (ok, m1) := EnsurePage(m, pt, va);
      EnsureBudget(m, pt, va);
      if ok {
        WriteBudget(PutChunk(m1, pt, va, data[..chunk]), pt, va + chunk, data[chunk..]);
      }
    }
  }

  lemma CreateBudget(s: Spaces, kind: nat)
    ensures Budget(Create(s, kind).1.mem) == Budget(s.mem)
  {
    hide BuildTables, FrameAt, Entry, PtOf;
  }

  lemma {:induction false} WriteWholePages(m: Mem, pt: nat, va: nat, data: seq<byte>)
    ensures WriteMem(m, pt, va, data).1.used % PAGE == m.used % PAGE
    decreases |data|
  {
    hide PutBytes, SetWord, FrameAt, Entry;
    if |data| > 0 {
      var chunk := ChunkAt(va, |data|);
      var (ok, m1) := EnsurePage(m, pt, va);
      assert m1.used % PAGE == m.used % PAGE;
      hide EnsurePage;
      if ok {
        WriteWholePages(PutChunk(m1, pt, va, data[..chunk]), pt, va + chunk, data[chunk..]);
      }
    }
  }

  /** Memory is used in whole pages. */
  lemma {:induction false} RunWholePages(s: Spaces, ops: seq<Op>)
    ensures RunOps(s, ops).mem.used % PAGE == s.mem.used % PAGE
    decreases |ops|
  {
    if |ops| > 0 {
      match ops[0] {
        case OpCreate(kind) => CreateWholePages(s, kind);
        case OpFork(id) =>
          if Resolves(s, id) {
            CreateWholePages(s, s.slots[Find(s, id)].kind);
          }
        case OpRetain(_) =>
        case OpRelease(_) =>
        case OpWrite(id, va, data) =>
          if Resolves(s, id) {
            WriteWholePages(s.mem, s.slots[Find(s, id)].userPt, va, data);
          }
      }
      hide Create, WriteMem;
      RunWholePages(Apply(s, ops[0]), ops[1..]);
    }
  }

  lemma CreateWholePages(s: Spaces, kind: nat)
    ensures Create(s, kind).1.mem.used % PAGE == s.mem.used % PAGE
  {
    hide BuildTables, FrameAt, Entry, PtOf;
  }

  /** Whatever is created, written or released: used plus free bytes stay the same. */
  lemma {:induction false} RunBudget(s: Spaces, ops: seq<Op>)
    ensures Budget(RunOps(s, ops).mem) == Budget(s.mem)
    decreases |ops|
  {
    if |ops| > 0 {
      match ops[0] {
        case OpCreate(kind) => CreateBudget(s, kind);
        case OpFork(id) =>
          if Resolves(s, id) {
            CreateBudget(s, s.slots[Find(s, id)].kind);
          }
        case OpRetain(_) =>
        case OpRelease(_) =>
        case OpWrite(id, va, data) =>
          if Resolves(s, id) {
            WriteBudget(s.mem, s.slots[Find(s, id)].userPt, va, data);
          }
      }
      hide Create, WriteMem, Budget;
      RunBudget(Apply(s, ops[0]), ops[1..]);
    }
  }

  /** aspace_init: an empty table, then the kernel space. */
  function Init(m: Mem, cr3: nat): Spaces
  {
    var (id, s) := Create(Spaces(seq(ASPACE_MAX, _ => EMPTY_SLOT), 1, 0, cr3, m), KIND_KERNEL);
    s.(kernelId := id)
  }

  lemma InitInv(m: Mem, cr3: nat)
    requires Wf(m) && m.next <= 0x10_0000_0000_0000 && KernelBelow(m.frames, cr3, m.next)
    ensures Inv(Init(m, cr3), m.next)
    ensures var s := Init(m, cr3);
            s.kernelId == 1 && s.slots[0] == Slot(true, 1, KIND_KERNEL, 1, cr3, 0) &&
            forall i :: 0 < i < ASPACE_MAX ==> s.slots[i] == EMPTY_SLOT
  {
    var s := Init(m, cr3);
    assert forall i: nat :: !IsUser(s, i);
  }

  // ---- The address spaces as the kernel keeps them ----

  class AddressSpaces {
    var slots: seq<Slot>
    var nextId: nat
    var kernelId: nat
    var kernelCr3: nat
    var frames: Frames
    var allocNext: nat
    var allocLimit: nat
    var usedBytes: nat

    ghost function View(): Spaces
      reads this
    {
      Spaces(slots, nextId, kernelId, kernelCr3, Mem(frames, allocNext, allocLimit, usedBytes))
    }

    constructor (m: Mem, cr3: nat)
      ensures View() == Init(m, cr3)
    {
      frames, allocNext, allocLimit, usedBytes := m.frames, m.next, m.limit, m.used;
      slots, nextId, kernelId, kernelCr3 := seq(ASPACE_MAX, _ => EMPTY_SLOT), 1, 0, cr3;
      new;
      var id := CreateSpace(KIND_KERNEL);
      kernelId := id;
    }

    method FindSlot(id: nat) returns (r: int)
      ensures r == Find(View(), id)
    {
      for i := 0 to |slots|
        invariant FindFrom(slots, id, 0) == FindFrom(slots, id, i)
      {
        if slots[i].used && slots[i].id == id {
          return i;
        }
      }
      r := -1;
    }

    method AllocPage() returns (page: nat)
      modifies this
      ensures View() == old(View()).(mem := PageAlloc(old(View()).mem).1) && page == PageAlloc(old(View()).mem).0
    {
      if allocNext + PAGE > allocLimit {
        return 0;
      }
      page := allocNext;
      allocNext := allocNext + PAGE;
      usedBytes := usedBytes + PAGE;
    }

    method CloneKernelRoot() returns (root: Root)
      modifies this
      ensures View() == old(View()).(mem := CloneRoot(old(View()).mem, old(kernelCr3)).1)
      ensures root == CloneRoot(old(View()).mem, old(kernelCr3)).0
    {
      var pml4 := AllocPage();
      var pdpt := AllocPage();
      var pd := AllocPage();
      var pt := AllocPage();
      if kernelCr3 == 0 || pml4 == 0 || pdpt == 0 || pd == 0 || pt == 0 {
        return NoRoot;
      }
      var kernelPdpt := FrameAt(frames, Base(Entry(frames, kernelCr3, 0)));
      frames := frames[pml4 := SetWord(Zeros(PAGE), 0, pdpt + 7)];
      frames := frames[pdpt := SetWord(kernelPdpt, 1, pd + 7)];
      frames := frames[pd := SetWord(Zeros(PAGE), 0, pt + 7)];
      frames := frames[pt := Zeros(PAGE)];
      root := Root(pml4);
    }

    method CreateSpace(kind: nat) returns (id: nat)
      modifies this
      ensures View() == Create(old(View()), kind).1 && id == Create(old(View()), kind).0
    {
      for i := 0 to |slots|
        invariant View() == old(View())
        invariant FreeFrom(slots, 0) == FreeFrom(slots, i)
      {
        if !slots[i].used {
          id := nextId;
          nextId := nextId + 1;
          if kind == KIND_KERNEL {
            slots := slots[i := Slot(true, id, kind, 1, kernelCr3, 0)];
            return;
          }
          var root := CloneKernelRoot();
          if root == NoRoot {
            slots := slots[i := EMPTY_SLOT];
            return 0;
          }
          slots := slots[i := Slot(true, id, kind, 1, root.cr3, PtOf(frames, root.cr3))];
          return;
        }
      }
      id := 0;
    }

    method RetainSpace(id: nat) returns (ok: bool)
      modifies this
      ensures ok == Resolves(old(View()), id) && View() == Retain(old(View()), id)
    {
      var i := FindSlot(id);
      if i < 0 {
        return false;
      }
      slots := slots[i := slots[i].(refcount := slots[i].refcount + 1)];
      ok := true;
    }

    method ReleaseSpace(id: nat) returns (ok: bool)
      modifies this
      ensures ok == Resolves(old(View()), id) && View() == Release(old(View()), id)
    {
      var i := FindSlot(id);
      if i < 0 {
        return false;
      }
      if slots[i].refcount > 0 {
        slots := slots[i := slots[i].(refcount := slots[i].refcount - 1)];
      }
      if slots[i].refcount == 0 && id != kernelId {
        slots := slots[i := EMPTY_SLOT];
      }
      ok := true;
    }

    method ForkSpace(parent: nat) returns (id: nat)
      modifies this
      ensures View() == ForkClone(old(View()), parent).1 && id == ForkClone(old(View()), parent).0
    {
      var i := FindSlot(parent);
      if i < 0 {
        return 0;
      }
      if slots[i].kind == KIND_KERNEL {
        var _ := RetainSpace(parent);
        return parent;
      }
      id := CreateSpace(slots[i].kind);
    }

    method EnsureUserPage(pt: nat, va: nat) returns (ok: bool)
      modifies this
      ensures View() == old(View()).(mem := EnsurePage(old(View()).mem, pt, va).1)
      ensures ok == EnsurePage(old(View()).mem, pt, va).0
    {
      var page := va - va % PAGE;
      if pt == 0 || page < USER_BASE || page >= USER_BASE + WINDOW {
        return false;
      }
      var j := page / PAGE % 512;
      if Present(Entry(frames, pt, j)) {
        return true;
      }
      var phys := AllocPage();
      if phys == 0 {
        return false;
      }
      frames := frames[phys := Zeros(PAGE)];
      frames := frames[pt := SetWord(FrameAt(frames, pt), j, phys + 7)];
      ok := true;
    }

    /** The body of both page loops: the page if need be, then the bytes. */
    method StoreChunk(pt: nat, va: nat, bs: seq<byte>) returns (ok: bool)
      requires va % PAGE + |bs| <= PAGE
      modifies this
      ensures ok == EnsurePage(old(View()).mem, pt, va).0
      ensures var m := EnsurePage(old(View()).mem, pt, va).1;
              View() == old(View()).(mem := if ok then PutChunk(m, pt, va, bs) else m)
    {
      ok := EnsureUserPage(pt, va);
      if ok {
        var dst := PageFrame(frames, pt, va);
        frames := frames[dst := PutBytes(FrameAt(frames, dst), va % PAGE, bs)];
      }
    }

    /** aspace_write: a loop over the pages that the range touches. */
    method WriteBytes(id: nat, vaddr: nat, data: seq<byte>) returns (ok: bool)
      modifies this
      ensures View() == Write(old(View()), id, vaddr, data).1 && ok == Write(old(View()), id, vaddr, data).0
    {
      hide EnsurePage, PutChunk;
      var i := FindSlot(id);
      if i < 0 {
        return false;
      }
      var pt := slots[i].userPt;
      var va: nat, src := vaddr, data;
      while |src| > 0
        invariant View() == old(View()).(mem := View().mem)
        invariant WriteMem(View().mem, pt, va, src) == WriteMem(old(View()).mem, pt, vaddr, data)
        decreases |src|
      {
        var chunk := PAGE - va % PAGE;
        if chunk > |src| {
          chunk := |src|;
        }
        var stored := StoreChunk(pt, va, src[..chunk]);
        if !stored {
          return false;
        }
        va, src := va + chunk, src[chunk..];
      }
      ok := true;
    }

    /** aspace_zero: the same loop, storing zeros. */
    method ZeroBytes(id: nat, vaddr: nat, bytes: nat) returns (ok: bool)
      modifies this
      ensures View() == Write(old(View()), id, vaddr, Zeros(bytes)).1
      ensures ok == Write(old(View()), id, vaddr, Zeros(bytes)).0
    {
      hide EnsurePage, PutChunk;
      var i := FindSlot(id);
      if i < 0 {
        return false;
      }
      var pt := slots[i].userPt;
      var va: nat, left: nat := vaddr, bytes;
      while left > 0
        invariant View() == old(View()).(mem := View().mem)
        invariant WriteMem(View().mem, pt, va, Zeros(left)) == WriteMem(old(View()).mem, pt, vaddr, Zeros(bytes))
        decreases left
      {
        var chunk := PAGE - va % PAGE;
        if chunk > left {
          chunk := left;
        }
        assert Zeros(left)[..chunk] == Zeros(chunk) && Zeros(left)[chunk..] == Zeros(left - chunk);
        var stored := StoreChunk(pt, va, Zeros(chunk));
        if !stored {
          return false;
        }
        va, left := va + chunk, left - chunk;
      }
      ok := true;
    }
  }
}
