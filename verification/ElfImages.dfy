/** The other side of the ELF parser: images laid out field by field, as a linker or build_ring3demo_image
    (kernel/fs.c) lays them out. */
module ElfImages {
  import opened Bytes
  import opened Elf
  import opened Memory
  import opened Paging
  import opened Aspace
  import opened Loader
  import Lifecycle
  import RingDemo

  const ELF_IDENT: seq<byte> := [0x7f, 0x45, 0x4c, 0x46, 2, 1]

  /** struct elf64_ehdr. */
  datatype Header = Header(ident: seq<byte>, kind: nat, machine: nat, version: nat, entry: nat, phoff: nat, shoff: nat,
                           flags: nat, ehsize: nat, phentsize: nat, phnum: nat, shentsize: nat, shnum: nat, shstrndx: nat)

  /** struct elf64_phdr. */
  datatype Segment = Segment(kind: nat, flags: nat, offset: nat, vaddr: nat, paddr: nat, filesz: nat, memsz: nat, align: nat)

  predicate HeaderFits(h: Header)
  {
    |h.ident| == 16 && h.kind < TWO_16 && h.machine < TWO_16 && h.version < TWO_32 && h.entry < TWO_64 && h.phoff < TWO_64 &&
    h.shoff < TWO_64 && h.flags < TWO_32 && h.ehsize < TWO_16 && h.phentsize < TWO_16 && h.phnum < TWO_16 &&
    h.shentsize < TWO_16 && h.shnum < TWO_16 && h.shstrndx < TWO_16
  }

  predicate SegmentFits(p: Segment)
  {
    p.kind < TWO_32 && p.flags < TWO_32 && p.offset < TWO_64 && p.vaddr < TWO_64 && p.paddr < TWO_64 && p.filesz < TWO_64 &&
    p.memsz < TWO_64 && p.align < TWO_64
  }

  function HeaderBytes(h: Header): (bs: seq<byte>)
    ensures |h.ident| == 16 ==> |bs| == EHDR_BYTES
  {
    h.ident + Le(h.kind, 2) + Le(h.machine, 2) + Le(h.version, 4) + Le(h.entry, 8) + Le(h.phoff, 8) + Le(h.shoff, 8) +
    Le(h.flags, 4) + Le(h.ehsize, 2) + Le(h.phentsize, 2) + Le(h.phnum, 2) + Le(h.shentsize, 2) + Le(h.shnum, 2) +
    Le(h.shstrndx, 2)
  }

  function SegmentBytes(p: Segment): (bs: seq<byte>)
    ensures |bs| == PHDR_BYTES
  {
    Le(p.kind, 4) + Le(p.flags, 4) + Le(p.offset, 8) + Le(p.vaddr, 8) + Le(p.paddr, 8) + Le(p.filesz, 8) +
    Le(p.memsz, 8) + Le(p.align, 8)
  }

  function TableBytes(ps: seq<Segment>): (bs: seq<byte>)
    ensures |bs| == |ps| * PHDR_BYTES
  {
    if |ps| == 0 then [] else TableBytes(ps[..|ps| - 1]) + SegmentBytes(ps[|ps| - 1])
  }

  /** The header, whatever lies between it and the table, the table, and the rest. */
  function ImageBytes(h: Header, gap: seq<byte>, ps: seq<Segment>, rest: seq<byte>): seq<byte>
  {
    HeaderBytes(h) + gap + TableBytes(ps) + rest
  }

  function Seen(p: Segment): Phdr
  {
    Phdr(p.kind, p.offset, p.vaddr, p.filesz, p.memsz)
  }

  function SeenAll(ps: seq<Segment>): (qs: seq<Phdr>)
    ensures |qs| == |ps| && forall i :: 0 <= i < |ps| ==> qs[i] == Seen(ps[i])
  {
    seq(|ps|, i requires 0 <= i < |ps| => Seen(ps[i]))
  }

  // ---- Fields ----

  lemma FieldIn(image: seq<byte>, at: nat, v: nat, n: nat)
    requires at + n <= |image| && image[at..at + n] == Le(v, n) && v < Pow256(n)
    ensures Field(image, at, n) == v
  {
    LeRoundTrip(v, n);
  }

  lemma FieldShifts(before: seq<byte>, bs: seq<byte>, after: seq<byte>, at: nat, n: nat)
    requires at + n <= |bs|
    ensures Field(before + bs + after, |before| + at, n) == Field(bs, at, n)
  {
    assert (before + bs + after)[|before| + at..|before| + at + n] == bs[at..at + n];
  }

  lemma HeaderFields(h: Header)
    requires HeaderFits(h)
    ensures var bs := HeaderBytes(h);
            bs[..16] == h.ident && Field(bs, 16, 2) == h.kind && Field(bs, 18, 2) == h.machine && Field(bs, 24, 8) == h.entry &&
            Field(bs, 32, 8) == h.phoff && Field(bs, 54, 2) == h.phentsize && Field(bs, 56, 2) == h.phnum
  {
    hide Le, Field, Pow256;
    Powers();
    var bs := HeaderBytes(h);
    assert bs[..16] == h.ident && bs[16..18] == Le(h.kind, 2) && bs[18..20] == Le(h.machine, 2);
    assert bs[24..32] == Le(h.entry, 8) && bs[32..40] == Le(h.phoff, 8);
    assert bs[54..56] == Le(h.phentsize, 2) && bs[56..58] == Le(h.phnum, 2);
    FieldIn(bs, 16, h.kind, 2);
    FieldIn(bs, 18, h.machine, 2);
    FieldIn(bs, 24, h.entry, 8);
    FieldIn(bs, 32, h.phoff, 8);
    FieldIn(bs, 54, h.phentsize, 2);
    FieldIn(bs, 56, h.phnum, 2);
  }

  lemma SegmentFields(p: Segment)
    requires SegmentFits(p)
    ensures PhdrAt(SegmentBytes(p), 0) == Seen(p)
  {
    hide Le, Field, Pow256;
    Powers();
    var bs := SegmentBytes(p);
    assert bs[0..4] == Le(p.kind, 4) && bs[8..16] == Le(p.offset, 8) && bs[16..24] == Le(p.vaddr, 8);
    assert bs[32..40] == Le(p.filesz, 8) && bs[40..48] == Le(p.memsz, 8);
    FieldIn(bs, 0, p.kind, 4);
    FieldIn(bs, 8, p.offset, 8);
    FieldIn(bs, 16, p.vaddr, 8);
    FieldIn(bs, 32, p.filesz, 8);
    FieldIn(bs, 40, p.memsz, 8);
  }

  lemma SegmentRead(before: seq<byte>, p: Segment, after: seq<byte>)
    requires SegmentFits(p)
    ensures PhdrAt(before + SegmentBytes(p) + after, |before|) == Seen(p)
  {
    SegmentFields(p);
    hide Field, SegmentBytes;
    FieldShifts(before, SegmentBytes(p), after, 0, 4);
    FieldShifts(before, SegmentBytes(p), after, 8, 8);
    FieldShifts(before, SegmentBytes(p), after, 16, 8);
    FieldShifts(before, SegmentBytes(p), after, 32, 8);
    FieldShifts(before, SegmentBytes(p), after, 40, 8);
  }

  /** A table of program headers reads back, wherever it is. */
  lemma {:induction false} TableRead(before: seq<byte>, ps: seq<Segment>, after: seq<byte>)
    requires forall i :: 0 <= i < |ps| ==> SegmentFits(ps[i])
    ensures HeadersFrom(before + TableBytes(ps) + after, |before|, |ps|) == SeenAll(ps)
    decreases |ps|
  {
    hide PhdrAt, SegmentFits, HeadersFrom, SeenAll, TableBytes, SegmentBytes;
    if |ps| == 0 {
      NoHeaders(before + TableBytes(ps) + after, |before|);
    } else {
      var qs, p := ps[..|ps| - 1], ps[|ps| - 1];
      LastRow(before, ps, after);
      TableRead(before, qs, SegmentBytes(p) + after);
      SegmentRead(before + TableBytes(qs), p, after);
      NextHeader(before + TableBytes(ps) + after, |before|, |qs|);
      SeenLast(ps);
    }
  }

  lemma NoHeaders(image: seq<byte>, at: nat)
    requires at <= |image|
    ensures HeadersFrom(image, at, 0) == [] == SeenAll([])
  {
  }

  lemma NextHeader(image: seq<byte>, at: nat, n: nat)
    requires at + (n + 1) * PHDR_BYTES <= |image|
    ensures HeadersFrom(image, at, n + 1) == HeadersFrom(image, at, n) + [PhdrAt(image, at + n * PHDR_BYTES)]
  {
  }

  lemma SeenLast(ps: seq<Segment>)
    requires |ps| > 0
    ensures SeenAll(ps) == SeenAll(ps[..|ps| - 1]) + [Seen(ps[|ps| - 1])]
  {
  }

  lemma LastRow(before: seq<byte>, ps: seq<Segment>, after: seq<byte>)
    requires |ps| > 0
    ensures var qs, p := ps[..|ps| - 1], ps[|ps| - 1];
            before + TableBytes(ps) + after == before + TableBytes(qs) + (SegmentBytes(p) + after) &&
            before + TableBytes(ps) + after == (before + TableBytes(qs)) + SegmentBytes(p) + after
  {
    hide SegmentBytes;
  }

  // ---- Images ----

  /** The fields the parser looks at are those of `h`. */
  ghost predicate InHeader(image: seq<byte>, h: Header)
  {
    |image| >= EHDR_BYTES && Field(image, 16, 2) == h.kind && Field(image, 18, 2) == h.machine && Field(image, 24, 8) == h.entry &&
    Field(image, 32, 8) == h.phoff && Field(image, 54, 2) == h.phentsize && Field(image, 56, 2) == h.phnum
  }

  lemma HeaderSeen(h: Header, rest: seq<byte>)
    requires HeaderFits(h)
    ensures var image := HeaderBytes(h) + rest;
            InHeader(image, h) && image[..6] == h.ident[..6]
  {
    HeaderFields(h);
    hide Field, HeaderBytes;
    var bs := HeaderBytes(h);
    assert bs + rest == [] + bs + rest;
    FieldShifts([], bs, rest, 16, 2);
    FieldShifts([], bs, rest, 18, 2);
    FieldShifts([], bs, rest, 24, 8);
    FieldShifts([], bs, rest, 32, 8);
    FieldShifts([], bs, rest, 54, 2);
    FieldShifts([], bs, rest, 56, 2);
    assert (bs + rest)[..6] == bs[..16][..6];
  }

  /** The file header an image starts with is accepted exactly if it names a 64-bit little-endian x86-64 file with
      program headers of 56 bytes that end, in 64-bit arithmetic, inside the file. */
  lemma AcceptedHeader(h: Header, rest: seq<byte>)
    requires HeaderFits(h)
    ensures Accepts(HeaderBytes(h) + rest) <==>
            h.ident[..6] == ELF_IDENT && h.machine == MACHINE_X86_64 && h.phentsize == PHDR_BYTES &&
            (h.phoff + h.phnum * PHDR_BYTES) % TWO_64 <= EHDR_BYTES + |rest|
    ensures InHeader(HeaderBytes(h) + rest, h)
  {
    HeaderSeen(h, rest);
    hide Field, HeaderBytes;
    var image := HeaderBytes(h) + rest;
    assert forall i :: 0 <= i < 6 ==> image[i] == image[..6][i];
  }

  /** An image that can be loaded: the header says where the table is and how long it is. */
  ghost predicate WellFormed(h: Header, gap: seq<byte>, ps: seq<Segment>, rest: seq<byte>)
  {
    HeaderFits(h) && h.ident[..6] == ELF_IDENT && h.machine == MACHINE_X86_64 && h.phentsize == PHDR_BYTES &&
    h.phoff == EHDR_BYTES + |gap| && h.phnum == |ps| && h.phoff + h.phnum * PHDR_BYTES < TWO_64 &&
    forall i :: 0 <= i < |ps| ==> SegmentFits(ps[i])
  }

  lemma HeadersRead(h: Header, gap: seq<byte>, ps: seq<Segment>, rest: seq<byte>)
    requires WellFormed(h, gap, ps, rest)
    ensures var image := ImageBytes(h, gap, ps, rest);
            InHeader(image, h) && Accepts(image) && TableInside(image) && Headers(image) == SeenAll(ps)
  {
    hide Field, HeaderBytes, Accepts;
    var image := ImageBytes(h, gap, ps, rest);
    assert image == HeaderBytes(h) + (gap + TableBytes(ps) + rest);
    AcceptedHeader(h, gap + TableBytes(ps) + rest);
    TableRead(HeaderBytes(h) + gap, ps, rest);
  }

  /** Segment `i` is the lowest loadable one, the first in the table if several share its address. */
  ghost predicate LowestSegment(ps: seq<Segment>, i: nat)
  {
    i < |ps| && ps[i].kind == PT_LOAD && (forall j :: 0 <= j < |ps| && ps[j].kind == PT_LOAD ==> ps[i].vaddr <= ps[j].vaddr) &&
    forall j :: 0 <= j < i && ps[j].kind == PT_LOAD ==> ps[i].vaddr < ps[j].vaddr
  }

  /** `last` is the highest end of a loadable segment, in 64-bit arithmetic. */
  ghost predicate HighestEnd(ps: seq<Segment>, last: nat)
  {
    (forall j :: 0 <= j < |ps| && ps[j].kind == PT_LOAD ==> (ps[j].vaddr + ps[j].memsz) % TWO_64 <= last) &&
    (last == 0 || exists j :: 0 <= j < |ps| && ps[j].kind == PT_LOAD && (ps[j].vaddr + ps[j].memsz) % TWO_64 == last)
  }

  /** What the parser answers for an image laid out field by field, when no loadable segment is at address 0. */
  lemma ParsesImage(h: Header, gap: seq<byte>, ps: seq<Segment>, rest: seq<byte>, i: nat)
    requires WellFormed(h, gap, ps, rest) && LowestSegment(ps, i) && ps[i].vaddr > 0
    ensures var image := ImageBytes(h, gap, ps, rest);
            Accepts(image) && TableInside(image) &&
            var info := InfoOf(image, Headers(image));
            info == ElfInfo(h.kind, MACHINE_X86_64, |ps|, h.entry, ps[i].vaddr, info.last, ps[i].offset, ps[i].filesz, ps[i].memsz) &&
            HighestEnd(ps, info.last)
  {
    hide *;
    HeadersRead(h, gap, ps, rest);
    var image := ImageBytes(h, gap, ps, rest);
    SameLowest(ps, i);
    LowestSegmentFound(image, i);
    SameEnd(ps);
    HeaderInfo(image, h, SeenAll(ps));
    Counted(h, gap, ps, rest);
  }

  lemma HeaderInfo(image: seq<byte>, h: Header, qs: seq<Phdr>)
    requires InHeader(image, h)
    ensures |image| >= EHDR_BYTES
    ensures var info := InfoOf(image, qs);
            info.kind == h.kind && info.machine == h.machine && info.phnum == h.phnum && info.entry == h.entry &&
            info.last == LastEnd(qs)
  {
  }

  lemma Counted(h: Header, gap: seq<byte>, ps: seq<Segment>, rest: seq<byte>)
    requires WellFormed(h, gap, ps, rest)
    ensures h.phnum == |ps| && h.machine == MACHINE_X86_64
  {
  }

  lemma SameLowest(ps: seq<Segment>, i: nat)
    requires LowestSegment(ps, i) && ps[i].vaddr > 0
    ensures IsLowest(SeenAll(ps), i) && NoLoadAtZero(SeenAll(ps)) && SeenAll(ps)[i] == Phdr(PT_LOAD, ps[i].offset, ps[i].vaddr, ps[i].filesz, ps[i].memsz)
  {
  }

  lemma SameEnd(ps: seq<Segment>)
    ensures HighestEnd(ps, LastEnd(SeenAll(ps)))
  {
    var qs := SeenAll(ps);
    LastIsHighest(qs);
    hide LastEnd;
    var last := LastEnd(qs);
    if last > 0 {
      var j :| 0 <= j < |qs| && IsLoad(qs[j]) && End(qs[j]) == last;
      assert ps[j].kind == PT_LOAD;
    }
    assert forall j :: 0 <= j < |ps| && ps[j].kind == PT_LOAD ==> IsLoad(qs[j]) && End(qs[j]) <= last;
  }

  // ---- The program in /bin/ring3demo ----

  const CODE_AT: nat := EHDR_BYTES + PHDR_BYTES

  /** ring3demo_code. */
  const RING3_CODE: seq<byte> := [
    0x66, 0xb8, 0x33, 0x00, 0x8e, 0xd8, 0x8e, 0xc0, 0x8e, 0xe0, 0x8e, 0xe8,
    0xb8, 0x01, 0x00, 0x00, 0x00, 0x48, 0x8d, 0x1d, 0x11, 0x00, 0x00, 0x00,
    0xb9, 0x21, 0x00, 0x00, 0x00, 0xcd, 0x80, 0xb8, 0x03, 0x00, 0x00, 0x00,
    0xcd, 0x80, 0xf4, 0xeb, 0xfd, 0x72, 0x69, 0x6e, 0x67, 0x33, 0x20, 0x66,
    0x69, 0x6c, 0x65, 0x2d, 0x62, 0x61, 0x63, 0x6b, 0x65, 0x64, 0x20, 0x65,
    0x6c, 0x66, 0x20, 0x73, 0x61, 0x79, 0x73, 0x20, 0x68, 0x65, 0x6c, 0x6c,
    0x6f, 0x0a]

  function ExecHeader(entry: nat): Header
  {
    Header(ELF_IDENT + [1] + Zeros(9), 2, 62, 1, entry, 64, 0, 0, 64, 56, 1, 0, 0, 0)
  }

  function ExecSegment(vaddr: nat, size: nat): Segment
  {
    Segment(1, 5, 0, vaddr, vaddr, size, size, 0x1000)
  }

  /** An image of one segment that holds the headers and, after them, the code. */
  function ExecImage(vaddr: nat, entry: nat, code: seq<byte>): (image: seq<byte>)
    ensures |image| == CODE_AT + |code| && image[CODE_AT..] == code
  {
    var bs := ImageBytes(ExecHeader(entry), [], [ExecSegment(vaddr, CODE_AT + |code|)], code);
    assert |HeaderBytes(ExecHeader(entry))| == EHDR_BYTES;
    bs
  }

  /** build_ring3demo_image. */
  function Ring3Image(): seq<byte>
  {
    ExecImage(USER_BASE, USER_BASE + CODE_AT, RING3_CODE)
  }

  lemma ExecParsed(vaddr: nat, entry: nat, code: seq<byte>)
    requires 0 < vaddr && vaddr + CODE_AT + |code| < TWO_64 && entry < TWO_64
    ensures var image, size := ExecImage(vaddr, entry, code), CODE_AT + |code|;
            Accepts(image) && TableInside(image) &&
            InfoOf(image, Headers(image)) == ElfInfo(2, 62, 1, entry, vaddr, vaddr + size, 0, size, size)
  {
    hide InfoOf, Headers, Accepts, ImageBytes, HeaderBytes, WellFormed, ExecImage, ExecHeader, LowestSegment, HighestEnd, Field;
    var ps := [ExecSegment(vaddr, CODE_AT + |code|)];
    ExecWellFormed(vaddr, entry, code);
    ParsesImage(ExecHeader(entry), [], ps, code, 0);
    OnlyEnd(vaddr, CODE_AT + |code|, InfoOf(ExecImage(vaddr, entry, code), Headers(ExecImage(vaddr, entry, code))).last);
  }

  lemma OnlyEnd(vaddr: nat, size: nat, last: nat)
    requires HighestEnd([ExecSegment(vaddr, size)], last) && 0 < vaddr && vaddr + size < TWO_64
    ensures last == vaddr + size
  {
    var ps := [ExecSegment(vaddr, size)];
    assert ps[0].kind == PT_LOAD && (ps[0].vaddr + ps[0].memsz) % TWO_64 == vaddr + size;
  }

  lemma ExecWellFormed(vaddr: nat, entry: nat, code: seq<byte>)
    requires 0 < vaddr && vaddr + CODE_AT + |code| < TWO_64 && entry < TWO_64
    ensures var h, size, ps := ExecHeader(entry), CODE_AT + |code|, [ExecSegment(vaddr, CODE_AT + |code|)];
            WellFormed(h, [], ps, code) && ImageBytes(h, [], ps, code) == ExecImage(vaddr, entry, code) &&
            LowestSegment(ps, 0) && ps[0] == Segment(PT_LOAD, 5, 0, vaddr, vaddr, size, size, 0x1000) &&
            h.kind == 2 && h.entry == entry && MACHINE_X86_64 == 62
  {
    assert ExecHeader(entry).ident[..6] == ELF_IDENT;
  }

  /** The space named by `id` shows byte `b` at address `a`. */
  ghost predicate Shows(s: Spaces, id: nat, a: nat, b: byte)
  {
    Find(s, id) >= 0 && Load(s.mem.frames, s.slots[Find(s, id)].cr3, a) == Loaded(b)
  }

  /** The kernel's own program is accepted, starts at 0x40000078 and is a program of one page below the stack. */
  lemma Ring3Parsed()
    ensures var image := Ring3Image();
            Accepts(image) && TableInside(image) &&
            var info := InfoOf(image, Headers(image));
            info == ElfInfo(2, 62, 1, 0x4000_0078, 0x4000_0000, 0x4000_00c2, 0, 0xc2, 0xc2) &&
            RingDemo.SmallProgram(image, info)
  {
    hide InfoOf, Headers, Accepts, TableInside, ExecImage;
    ExecParsed(USER_BASE, USER_BASE + CODE_AT, RING3_CODE);
  }

  /** Loaded, it has its code where the parser says that it starts. */
  lemma Ring3Loaded(s: Spaces, start: nat, k: nat)
    requires Inv(s, start) && Lifecycle.TableInv(s) && k < |RING3_CODE|
    ensures var image := Ring3Image();
            Accepts(image) && TableInside(image) &&
            var info := InfoOf(image, Headers(image));
            InFile(image, info) &&
            var (id, t) := LoadProgram(s, image, info);
            id != 0 ==> Shows(t, id, info.entry + k, RING3_CODE[k])
  {
    hide InfoOf, Headers, Accepts, TableInside, LoadProgram, Load, Find, Inv, Lifecycle.TableInv;
    var image := Ring3Image();
    Ring3Parsed();
    var info := InfoOf(image, Headers(image));
    LoadedProgram(s, start, image, info, 0, info.entry + k);
    assert image[CODE_AT..][k] == RING3_CODE[k];
  }
}
