/** The ELF parser (kernel/elf.c). */
module Elf {
  import opened Bytes

  const EHDR_BYTES: nat := 64
  const PHDR_BYTES: nat := 56
  const MACHINE_X86_64: nat := 62
  const PT_LOAD: nat := 1

  /** The fields of a program header that the parser looks at. */
  datatype Phdr = Phdr(kind: nat, offset: nat, vaddr: nat, filesz: nat, memsz: nat)

  datatype ElfInfo = ElfInfo(kind: nat, machine: nat, phnum: nat, entry: nat, first: nat, last: nat,
                             offset: nat, filesz: nat, memsz: nat)

  datatype ParseResult = Rejected | Parsed(info: ElfInfo)

  function Field(image: seq<byte>, at: nat, n: nat): nat
    requires at + n <= |image|
  {
    FromLe(image[at..at + n])
  }

  /** The checks on the file header, the last one in 64-bit arithmetic. */
  predicate Accepts(image: seq<byte>)
  {
    |image| >= EHDR_BYTES && image[0] == 0x7f && image[1] == 0x45 && image[2] == 0x4c && image[3] == 0x46 &&
    image[4] == 2 && image[5] == 1 && Field(image, 18, 2) == MACHINE_X86_64 && Field(image, 54, 2) == PHDR_BYTES &&
    (Field(image, 32, 8) + Field(image, 56, 2) * PHDR_BYTES) % TWO_64 <= |image|
  }

  /** That sum does not wrap, so the program headers are inside the image. */
  predicate TableInside(image: seq<byte>)
  {
    |image| >= EHDR_BYTES && Field(image, 32, 8) + Field(image, 56, 2) * PHDR_BYTES < TWO_64
  }

  function PhdrAt(image: seq<byte>, at: nat): Phdr
    requires at + PHDR_BYTES <= |image|
  {
    Phdr(Field(image, at, 4), Field(image, at + 8, 8), Field(image, at + 16, 8), Field(image, at + 32, 8),
         Field(image, at + 40, 8))
  }

  function HeadersFrom(image: seq<byte>, at: nat, n: nat): (ps: seq<Phdr>)
    requires at + n * PHDR_BYTES <= |image|
    ensures |ps| == n && forall i :: 0 <= i < n ==> at + i * PHDR_BYTES + PHDR_BYTES <= |image| && ps[i] == PhdrAt(image, at + i * PHDR_BYTES)
    decreases n
  {
    if n == 0 then [] else HeadersFrom(image, at, n - 1) + [PhdrAt(image, at + (n - 1) * PHDR_BYTES)]
  }

  function Headers(image: seq<byte>): seq<Phdr>
    requires Accepts(image) && TableInside(image)
  {
    HeadersFrom(image, Field(image, 32, 8), Field(image, 56, 2))
  }

  /** Every program header of an accepted image lies inside it if and only if the sum in the check does not
      wrap, or there is no header. */
  lemma HeadersInside(image: seq<byte>)
    requires Accepts(image) && |image| < TWO_64
    ensures (forall i: nat :: i < Field(image, 56, 2) ==> HeaderInside(image, i)) <==>
            TableInside(image) || Field(image, 56, 2) == 0
  {
    var n := Field(image, 56, 2);
    if n > 0 {
      if TableInside(image) {
        forall i: nat | i < n
          ensures HeaderInside(image, i)
        {
          MulMonotone(PHDR_BYTES, i + 1, n);
        }
      } else {
        assert !HeaderInside(image, n - 1);
      }
    }
  }

  predicate HeaderInside(image: seq<byte>, i: nat)
    requires |image| >= EHDR_BYTES
  {
    Field(image, 32, 8) + i * PHDR_BYTES + PHDR_BYTES <= |image|
  }

  /** A header that is all zeros but for what the checks look at, with these offset and number of headers. */
  function HeaderOnly(phoff: nat, phnum: nat): (image: seq<byte>)
    ensures |image| == EHDR_BYTES
  {
    [0x7f, 0x45, 0x4c, 0x46, 2, 1] + Zeros(12) + Le(MACHINE_X86_64, 2) + Zeros(12) + Le(phoff, 8) + Zeros(14) +
    Le(PHDR_BYTES, 2) + Le(phnum, 2) + Zeros(6)
  }

  lemma HeaderOnlyFields(phoff: nat, phnum: nat)
    requires phoff < TWO_64 && phnum < TWO_16
    ensures var image := HeaderOnly(phoff, phnum);
            Field(image, 18, 2) == MACHINE_X86_64 && Field(image, 32, 8) == phoff &&
            Field(image, 54, 2) == PHDR_BYTES && Field(image, 56, 2) == phnum
  {
    var image := HeaderOnly(phoff, phnum);
    Powers();
    assert image[18..20] == Le(MACHINE_X86_64, 2) && image[32..40] == Le(phoff, 8);
    assert image[54..56] == Le(PHDR_BYTES, 2) && image[56..58] == Le(phnum, 2);
    LeRoundTrip(MACHINE_X86_64, 2);
    LeRoundTrip(phoff, 8);
    LeRoundTrip(PHDR_BYTES, 2);
    LeRoundTrip(phnum, 2);
  }

  /** 64 bytes that are accepted and whose one program header is not among them. */
  lemma AcceptsOutside()
    ensures var image := HeaderOnly(TWO_64 - PHDR_BYTES, 1); Accepts(image) && !HeaderInside(image, 0)
  {
    HeaderOnlyFields(TWO_64 - PHDR_BYTES, 1);
    hide Field;
    var image := HeaderOnly(TWO_64 - PHDR_BYTES, 1);
    assert image[0] == 0x7f && image[1] == 0x45 && image[2] == 0x4c && image[3] == 0x46 && image[4] == 2 && image[5] == 1;
  }

  // ---- The scan over the program headers ----

  predicate IsLoad(p: Phdr)
  {
    p.kind == PT_LOAD
  }

  /** `first_vaddr` after the headers `ps`; 0 also stands for "none yet". */
  function First(ps: seq<Phdr>): nat
  {
    if |ps| == 0 then 0
    else
      var f, p := First(ps[..|ps| - 1]), ps[|ps| - 1];
      if IsLoad(p) && (f == 0 || p.vaddr < f) then p.vaddr else f
  }

  function End(p: Phdr): nat
  {
    (p.vaddr + p.memsz) % TWO_64
  }

  /** `last_vaddr` after the headers `ps`. */
  function LastEnd(ps: seq<Phdr>): nat
  {
    if |ps| == 0 then 0
    else
      var l, p := LastEnd(ps[..|ps| - 1]), ps[|ps| - 1];
      if IsLoad(p) && End(p) > l then End(p) else l
  }

  /** The first PT_LOAD header at `vaddr`, from index `i` on. */
  function LoadAt(ps: seq<Phdr>, vaddr: nat, i: nat): (r: int)
    requires i <= |ps|
    ensures r == -1 || i <= r < |ps|
    ensures r >= 0 ==> IsLoad(ps[r]) && ps[r].vaddr == vaddr && forall j :: i <= j < r ==> !(IsLoad(ps[j]) && ps[j].vaddr == vaddr)
    ensures r == -1 ==> forall j :: i <= j < |ps| ==> !(IsLoad(ps[j]) && ps[j].vaddr == vaddr)
    decreases |ps| - i
  {
    if i == |ps| then -1 else if IsLoad(ps[i]) && ps[i].vaddr == vaddr then i else LoadAt(ps, vaddr, i + 1)
  }

  function InfoOf(image: seq<byte>, ps: seq<Phdr>): ElfInfo
    requires |image| >= EHDR_BYTES
  {
    var first := First(ps);
    var i := if first == 0 then -1 else LoadAt(ps, first, 0);
    var p := if i < 0 then Phdr(0, 0, 0, 0, 0) else ps[i];
    ElfInfo(Field(image, 16, 2), Field(image, 18, 2), Field(image, 56, 2), Field(image, 24, 8),
            first, LastEnd(ps), p.offset, p.filesz, p.memsz)
  }

  /** `ps` are the program headers at `at` in the image. */
  ghost predicate HeadersAt(image: seq<byte>, at: nat, ps: seq<Phdr>)
  {
    forall i :: 0 <= i < |ps| ==> at + i * PHDR_BYTES + PHDR_BYTES <= |image| && ps[i] == PhdrAt(image, at + i * PHDR_BYTES)
  }

  /** The first loop of elf_parse_image. */
  method ScanLoads(image: seq<byte>, phoff: nat, phnum: nat, ghost ps: seq<Phdr>) returns (first: nat, last: nat)
    requires HeadersAt(image, phoff, ps) && |ps| == phnum
    ensures first == First(ps) && last == LastEnd(ps)
  {
    hide PhdrAt;
    first, last := 0, 0;
    for i := 0 to phnum
      invariant first == First(ps[..i]) && last == LastEnd(ps[..i])
    {
      assert ps[..i + 1][..i] == ps[..i];
      var p := PhdrAt(image, phoff + i * PHDR_BYTES);
      if p.kind == PT_LOAD {
        if first == 0 || p.vaddr < first {
          first := p.vaddr;
        }
        if (p.vaddr + p.memsz) % TWO_64 > last {
          last := (p.vaddr + p.memsz) % TWO_64;
        }
      }
    }
    assert ps[..phnum] == ps;
  }

  /** The second loop of elf_parse_image: the segment at `first`, or no fields at all. */
  method FindSegment(image: seq<byte>, phoff: nat, phnum: nat, first: nat, ghost ps: seq<Phdr>) returns (p: Phdr)
    requires HeadersAt(image, phoff, ps) && |ps| == phnum
    ensures var i := LoadAt(ps, first, 0); p == if i < 0 then Phdr(0, 0, 0, 0, 0) else ps[i]
  {
    hide PhdrAt;
    for i := 0 to phnum
      invariant LoadAt(ps, first, 0) == LoadAt(ps, first, i)
    {
      p := PhdrAt(image, phoff + i * PHDR_BYTES);
      if p.kind == PT_LOAD && p.vaddr == first {
        return;
      }
    }
    p := Phdr(0, 0, 0, 0, 0);
  }

  /** elf_parse_image. */
  method ParseImage(image: seq<byte>) returns (r: ParseResult)
    requires TableInside(image) || !Accepts(image)
    ensures r == if Accepts(image) then Parsed(InfoOf(image, Headers(image))) else Rejected
  {
    if !Accepts(image) {
      return Rejected;
    }
    var phoff, phnum := Field(image, 32, 8), Field(image, 56, 2);
    ghost var ps := Headers(image);
    var first, last := ScanLoads(image, phoff, phnum, ps);
    var p := Phdr(0, 0, 0, 0, 0);
    if first != 0 {
      p := FindSegment(image, phoff, phnum, first, ps);
    }
    r := Parsed(ElfInfo(Field(image, 16, 2), Field(image, 18, 2), phnum, Field(image, 24, 8),
                        first, last, p.offset, p.filesz, p.memsz));
  }

  // ---- What the scan finds ----

  predicate HasLoad(ps: seq<Phdr>)
  {
    exists i :: 0 <= i < |ps| && IsLoad(ps[i])
  }

  /** `v` is the lowest address of a PT_LOAD segment. */
  ghost predicate Lowest(ps: seq<Phdr>, v: nat)
  {
    (exists i :: 0 <= i < |ps| && IsLoad(ps[i]) && ps[i].vaddr == v) &&
    forall i :: 0 <= i < |ps| && IsLoad(ps[i]) ==> v <= ps[i].vaddr
  }

  predicate NoLoadAtZero(ps: seq<Phdr>)
  {
    forall i :: 0 <= i < |ps| && IsLoad(ps[i]) ==> ps[i].vaddr != 0
  }

  /** The last PT_LOAD header of the table is at address 0. */
  predicate EndsAtZero(ps: seq<Phdr>)
  {
    |ps| > 0 && if IsLoad(ps[|ps| - 1]) then ps[|ps| - 1].vaddr == 0 else EndsAtZero(ps[..|ps| - 1])
  }

  lemma {:induction false} ScanFacts(ps: seq<Phdr>)
    ensures First(ps) == 0 <==> !HasLoad(ps) || EndsAtZero(ps)
    ensures EndsAtZero(ps) ==> !NoLoadAtZero(ps)
    ensures First(ps) > 0 ==> exists i :: 0 <= i < |ps| && IsLoad(ps[i]) && ps[i].vaddr == First(ps)
    ensures NoLoadAtZero(ps) && HasLoad(ps) ==> Lowest(ps, First(ps))
  {
    if |ps| > 0 {
      var n := |ps| - 1;
      var qs, p := ps[..n], ps[n];
      ScanFacts(qs);
      assert forall i :: 0 <= i < n ==> qs[i] == ps[i];
      if HasLoad(qs) {
        var i :| 0 <= i < n && IsLoad(qs[i]);
        assert IsLoad(ps[i]);
      }
      if !NoLoadAtZero(qs) {
        var i :| 0 <= i < n && IsLoad(qs[i]) && qs[i].vaddr == 0;
        assert IsLoad(ps[i]);
      }
      if First(qs) > 0 {
        var i :| 0 <= i < n && IsLoad(qs[i]) && qs[i].vaddr == First(qs);
        assert IsLoad(ps[i]) && ps[i].vaddr == First(qs);
      }
      if IsLoad(p) {
        assert IsLoad(ps[n]) && ps[n].vaddr == p.vaddr;
      }
    }
  }

  /** The parser returns the lowest address exactly when no PT_LOAD segment is at address 0 or the last one is:
      an address 0 in between makes it forget what it has seen. */
  lemma FirstIsLowest(ps: seq<Phdr>)
    requires HasLoad(ps)
    ensures Lowest(ps, First(ps)) <==> NoLoadAtZero(ps) || EndsAtZero(ps)
  {
    ScanFacts(ps);
    if !NoLoadAtZero(ps) {
      var i :| 0 <= i < |ps| && IsLoad(ps[i]) && ps[i].vaddr == 0;
      if EndsAtZero(ps) {
        assert Lowest(ps, 0);
      } else {
        assert First(ps) > ps[i].vaddr;
      }
    }
  }

  /** Two segments, the first at address 0: the parser answers with the second. */
  lemma ForgetsZero()
    ensures var ps := [Phdr(PT_LOAD, 0, 0, 1, 1), Phdr(PT_LOAD, 0, 5, 1, 1)]; First(ps) == 5 && Lowest(ps, 0)
  {
    var p, q := Phdr(PT_LOAD, 0, 0, 1, 1), Phdr(PT_LOAD, 0, 5, 1, 1);
    var ps := [p, q];
    assert ps[..1] == [p] && [p][..0] == [];
    assert First([]) == 0 && First([p]) == 0;
    assert ps[0].vaddr == 0 && IsLoad(ps[0]);
  }

  /** `last` is the highest end of a PT_LOAD segment, in 64-bit arithmetic, and 0 without one. */
  lemma {:induction false} LastIsHighest(ps: seq<Phdr>)
    ensures forall i :: 0 <= i < |ps| && IsLoad(ps[i]) ==> End(ps[i]) <= LastEnd(ps)
    ensures LastEnd(ps) == 0 || exists i :: 0 <= i < |ps| && IsLoad(ps[i]) && End(ps[i]) == LastEnd(ps)
  {
    if |ps| > 0 {
      var n := |ps| - 1;
      LastIsHighest(ps[..n]);
      assert forall i :: 0 <= i < n ==> ps[..n][i] == ps[i];
      if LastEnd(ps[..n]) > 0 {
        var i :| 0 <= i < n && IsLoad(ps[..n][i]) && End(ps[..n][i]) == LastEnd(ps[..n]);
        assert IsLoad(ps[i]) && End(ps[i]) == LastEnd(ps[..n]);
      }
      assert IsLoad(ps[n]) ==> End(ps[n]) <= LastEnd(ps);
    }
  }

  /** Segment `i` is the lowest PT_LOAD segment, the first in the table if several share its address. */
  ghost predicate IsLowest(ps: seq<Phdr>, i: nat)
  {
    i < |ps| && IsLoad(ps[i]) && (forall j :: 0 <= j < |ps| && IsLoad(ps[j]) ==> ps[i].vaddr <= ps[j].vaddr) &&
    (forall j :: 0 <= j < i && IsLoad(ps[j]) ==> ps[i].vaddr < ps[j].vaddr)
  }

  /** Without a segment at address 0, the parser returns the fields of the lowest PT_LOAD segment. */
  lemma LowestSegmentFound(image: seq<byte>, i: nat)
    requires Accepts(image) && TableInside(image)
    requires NoLoadAtZero(Headers(image)) && IsLowest(Headers(image), i)
    ensures var ps := Headers(image);
            var info := InfoOf(image, ps);
            info.first == ps[i].vaddr && info.offset == ps[i].offset &&
            info.filesz == ps[i].filesz && info.memsz == ps[i].memsz
  {
    var ps := Headers(image);
    assert HasLoad(ps);
    ScanFacts(ps);
    assert First(ps) == ps[i].vaddr;
    var r := LoadAt(ps, First(ps), 0);
    assert r == i;
  }
}
