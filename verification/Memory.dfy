/** Physical memory (kernel/memory.c): frames of 4096 bytes, a bump allocator over the largest
    usable region, and the 64-bit words that page tables keep in frames. */
module Memory {
  import opened Bytes

  const PAGE: nat := 4096

  type Frame = f: seq<byte> | |f| == PAGE witness Zeros(PAGE)

  /** `frames` maps the physical address of a frame to its bytes. */
  datatype Mem = Mem(frames: map<nat, Frame>, next: nat, limit: nat, used: nat)

  ghost predicate Wf(m: Mem)
  {
    m.next % PAGE == 0 && 0 < m.next && m.limit <= 0x10_0000_0000_0000 &&
    (forall a: nat :: a % PAGE == 0 && a + PAGE <= m.limit ==> a in m.frames)
  }

  /** page_alloc: address 0 stands for NULL. Frames are handed out with whatever they hold. */
  function PageAlloc(m: Mem): (r: (nat, Mem))
  {
    if m.next + PAGE > m.limit then (0, m)
    else (m.next, m.(next := m.next + PAGE, used := m.used + PAGE))
  }

  /** memory_free_bytes. */
  function FreeBytes(m: Mem): nat
  {
    if m.limit <= m.next then 0 else m.limit - m.next
  }

  /** Every allocation moves one page from free to used. */
  function Budget(m: Mem): nat
  {
    FreeBytes(m) + m.used
  }

  // ---- Words in a frame ----

  function Word(f: Frame, i: nat): (w: nat)
    requires i < 512
    ensures w < TWO_64
  {
    FromLeRoundTrip(f[8 * i..8 * i + 8]);
    Powers();
    FromLe(f[8 * i..8 * i + 8])
  }

  function SetWord(f: Frame, i: nat, w: nat): Frame
    requires i < 512
  {
    f[..8 * i] + Le(w, 8) + f[8 * i + 8..]
  }

  lemma WordOfSetWord(f: Frame, i: nat, w: nat, j: nat)
    requires i < 512 && j < 512 && w < TWO_64
    ensures Word(SetWord(f, i, w), j) == if i == j then w else Word(f, j)
  {
    var g := SetWord(f, i, w);
    if i == j {
      assert g[8 * i..8 * i + 8] == Le(w, 8);
      Powers();
      LeRoundTrip(w, 8);
    } else {
      assert g[8 * j..8 * j + 8] == f[8 * j..8 * j + 8];
    }
  }

  lemma WordOfZeros(i: nat)
    requires i < 512
    ensures Word(Zeros(PAGE), i) == 0
  {
    assert Zeros(PAGE)[8 * i..8 * i + 8] == Le(0, 8);
    Powers();
    LeRoundTrip(0, 8);
  }

  // ---- Choosing the region ----

  datatype Region = Region(base: nat, length: nat, usable: bool)

  predicate Candidate(r: Region)
  {
    r.usable && r.base >= 0x10_0000
  }

  /** memory_init: the largest usable region at or above 1 MiB, never below 2 MiB, page aligned. */
  method ChooseRegion(entries: seq<Region>) returns (base: nat, next: nat, limit: nat)
    ensures next % PAGE == 0 && base <= next < base + PAGE && base >= 0x20_0000
    ensures (exists i :: 0 <= i < |entries| && Candidate(entries[i]) && entries[i].length > 0) ==>
              exists i :: 0 <= i < |entries| && Candidate(entries[i]) &&
                          limit == entries[i].base + entries[i].length &&
                          base == (if entries[i].base < 0x20_0000 then 0x20_0000 else entries[i].base) &&
                          forall j :: 0 <= j < |entries| && Candidate(entries[j]) ==> entries[j].length <= entries[i].length
    ensures (forall i :: 0 <= i < |entries| && Candidate(entries[i]) ==> entries[i].length == 0) ==> limit == 0
  {
    base, limit := 0, 0;
    ghost var best := -1;
    for i := 0 to |entries|
      invariant base <= limit
      invariant -1 <= best < i
      invariant best == -1 ==> base == limit == 0
      invariant best >= 0 ==> Candidate(entries[best]) && base == entries[best].base &&
                              limit == entries[best].base + entries[best].length && base < limit
      invariant forall j :: 0 <= j < i && Candidate(entries[j]) ==> entries[j].length <= limit - base
    {
      if entries[i].usable && entries[i].base >= 0x10_0000 && entries[i].length > limit - base {
        base := entries[i].base;
        limit := entries[i].base + entries[i].length;
        best := i;
      }
    }
    if base < 0x20_0000 {
      base := 0x20_0000;
    }
    next := (base + 0xfff) / PAGE * PAGE;
  }
}
