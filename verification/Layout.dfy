/** Where each field of the packed structures lies: the trace event (include/trace.h), the superblock and the inode
    (kernel/fs.c), and the stream of words that a session is hashed as (kernel/trace.c). */
module Layout {
  import opened Bytes
  import opened Events
  import opened Fs

  /** A little-endian field of `width` bytes at offset `at`. */
  datatype Cell = Cell(at: nat, width: nat, value: nat)

  ghost predicate HoldsCell(bs: seq<byte>, c: Cell)
  {
    c.at + c.width <= |bs| && forall j: nat :: j < c.width ==> bs[c.at + j] == c.value / Pow256(j) % 256
  }

  ghost predicate HoldsCells(bs: seq<byte>, cs: seq<Cell>)
  {
    forall i :: 0 <= i < |cs| ==> HoldsCell(bs, cs[i])
  }

  ghost predicate IsWord(bs: seq<byte>, c: Cell)
  {
    c.at + c.width <= |bs| && bs[c.at..c.at + c.width] == Le(c.value, c.width)
  }

  lemma CellIn(bs: seq<byte>, c: Cell)
    requires IsWord(bs, c)
    ensures HoldsCell(bs, c)
  {
    forall j: nat | j < c.width
      ensures bs[c.at + j] == c.value / Pow256(j) % 256
    {
      LeAt(c.value, c.width, j);
      assert bs[c.at + j] == bs[c.at..c.at + c.width][j];
    }
  }

  lemma AllCells(bs: seq<byte>, cs: seq<Cell>)
    requires forall i :: 0 <= i < |cs| ==> IsWord(bs, cs[i])
    ensures HoldsCells(bs, cs)
  {
    forall i | 0 <= i < |cs|
      ensures HoldsCell(bs, cs[i])
    {
      CellIn(bs, cs[i]);
    }
  }

  // ---- Trace events ----

  function EventCells(e: Event): seq<Cell>
  {
    [Cell(0, 8, e.eventId), Cell(8, 8, e.timestamp), Cell(16, 4, e.pid), Cell(20, 2, e.kind), Cell(22, 2, e.size),
     Cell(24, 8, e.data0), Cell(32, 8, e.data1)]
  }

  lemma EventLayout(e: Event)
    ensures HoldsCells(EncodeEvent(e), EventCells(e))
  {
    var bs := EncodeEvent(e);
    assert bs[0..8] == Le(e.eventId, 8);
    assert bs[8..16] == Le(e.timestamp, 8);
    assert bs[16..20] == Le(e.pid, 4);
    assert bs[20..22] == Le(e.kind, 2);
    assert bs[22..24] == Le(e.size, 2);
    assert bs[24..32] == Le(e.data0, 8);
    assert bs[32..40] == Le(e.data1, 8);
    hide EncodeEvent, Le;
    AllCells(bs, EventCells(e));
  }

  /** Event `i` of a log lies at byte 40 * i of its image. */
  lemma {:induction false} LogLayout(es: seq<Event>, i: nat)
    requires i < |es|
    ensures EVENT_BYTES * i + EVENT_BYTES <= |EncodeLog(es)| &&
            HoldsCells(EncodeLog(es)[EVENT_BYTES * i..][..EVENT_BYTES], EventCells(es[i]))
  {
    hide EncodeEvent, EventCells, HoldsCells;
    var bs := EncodeLog(es);
    if i == 0 {
      EventLayout(es[0]);
      assert bs[0..][..EVENT_BYTES] == EncodeEvent(es[0]);
    } else {
      LogLayout(es[1..], i - 1);
      assert bs[EVENT_BYTES * i..] == EncodeLog(es[1..])[EVENT_BYTES * (i - 1)..];
    }
  }

  /** The words that an event is hashed as; its size is not among them. */
  function HashedCells(e: Event): seq<Cell>
  {
    [Cell(0, 8, e.eventId), Cell(8, 8, e.timestamp), Cell(16, 8, e.pid), Cell(24, 8, e.kind), Cell(32, 8, e.data0),
     Cell(40, 8, e.data1)]
  }

  /** Event `i` of a log is hashed as bytes 48 * i to 48 * i + 47 of the stream. */
  lemma {:induction false} HashedLayout(es: seq<Event>, i: nat)
    requires i < |es|
    ensures 48 * i + 48 <= |HashedLog(es)| && HoldsCells(HashedLog(es)[48 * i..][..48], HashedCells(es[i]))
  {
    hide HashedEvent, HashedCells, HoldsCells;
    var bs := HashedLog(es);
    if i == 0 {
      HashedEventLayout(es[0]);
      assert bs[0..][..48] == HashedEvent(es[0]);
    } else {
      HashedLayout(es[1..], i - 1);
      assert bs[48 * i..] == HashedLog(es[1..])[48 * (i - 1)..];
    }
  }

  lemma HashedEventLayout(e: Event)
    ensures HoldsCells(HashedEvent(e), HashedCells(e))
  {
    var bs := HashedEvent(e);
    assert bs[0..8] == Le(e.eventId, 8);
    assert bs[8..16] == Le(e.timestamp, 8);
    assert bs[16..24] == Le(e.pid, 8);
    assert bs[24..32] == Le(e.kind, 8);
    assert bs[32..40] == Le(e.data0, 8);
    assert bs[40..48] == Le(e.data1, 8);
    hide HashedEvent, Le;
    AllCells(bs, HashedCells(e));
  }

  /** The hash of a log starts from a fixed value and takes in one event after the other. */
  lemma HashUnfolds(es: seq<Event>, e: Event)
    ensures HashLog([]) == 1469598103934665603
    ensures HashLog(es + [e]) == HashBytes(HashLog(es), HashedEvent(e))
  {
    HashedLogSnoc(es, e);
    HashConcat(HASH_INIT, HashedLog(es), HashedEvent(e));
  }

  /** Bit `i` of the exclusive or is set exactly if one of the two bits is. */
  lemma {:induction false} XorBits(a: nat, b: nat, bits: nat, i: nat)
    requires i < bits
    ensures Xor(a, b, bits) / Pow2(i) % 2 == 1 <==> a / Pow2(i) % 2 != b / Pow2(i) % 2
  {
    var x := Xor(a, b, bits);
    var half := Xor(a / 2, b / 2, bits - 1);
    LowBit(a + b, half);
    if i > 0 {
      XorBits(a / 2, b / 2, bits - 1, i - 1);
      HalfDiv(a, i - 1);
      HalfDiv(b, i - 1);
      HalfDiv(x, i - 1);
    } else {
      ParityDiffers(a, b);
    }
  }

  lemma LowBit(s: nat, half: nat)
    ensures (s % 2 + 2 * half) / 2 == half && (s % 2 + 2 * half) % 2 == s % 2
  {
  }

  lemma ParityDiffers(a: nat, b: nat)
    ensures (a + b) % 2 == 1 <==> a % 2 != b % 2
  {
  }

  lemma HalfDiv(v: nat, i: nat)
    ensures v / 2 / Pow2(i) == v / Pow2(i + 1)
  {
    var b := Pow2(i);
    var q, r := v / 2 / b, v / 2 % b;
    assert v == 2 * (b * q + r) + v % 2;
    DivUnique(v, 2 * b, q, 2 * r + v % 2);
  }

  // ---- The disk's metadata ----

  function SuperCells(sb: Super): seq<Cell>
  {
    [Cell(0, 4, sb.magic), Cell(4, 4, sb.version), Cell(8, 4, sb.totalSectors), Cell(12, 4, sb.inodeCount),
     Cell(16, 4, sb.inodeTableLba), Cell(20, 4, sb.dataStartLba), Cell(24, 4, sb.nextFree), Cell(28, 4, sb.nextSession)]
  }

  lemma SuperLayout(sb: Super)
    ensures HoldsCells(EncodeSuper(sb), SuperCells(sb))
  {
    var s := EncodeSuper(sb);
    assert s[0..4] == Le(sb.magic, 4);
    assert s[4..8] == Le(sb.version, 4);
    assert s[8..12] == Le(sb.totalSectors, 4);
    assert s[12..16] == Le(sb.inodeCount, 4);
    assert s[16..20] == Le(sb.inodeTableLba, 4);
    assert s[20..24] == Le(sb.dataStartLba, 4);
    assert s[24..28] == Le(sb.nextFree, 4);
    assert s[28..32] == Le(sb.nextSession, 4);
    hide EncodeSuper, Le;
    AllCells(s, SuperCells(sb));
  }

  function InodeCells(n: Inode): seq<Cell>
  {
    [Cell(0, 4, n.used), Cell(4, 4, n.kind), Cell(8, 4, n.sessionId), Cell(12, 4, n.size), Cell(16, 4, n.profile),
     Cell(20, 4, n.start), Cell(24, 4, n.sectors), Cell(28, 8, n.created), Cell(36, 8, n.duration), Cell(44, 8, n.events),
     Cell(52, 8, n.hash)]
  }

  lemma InodeLayout(n: Inode)
    requires |n.name| == NAME_BYTES
    ensures HoldsCells(EncodeInode(n), InodeCells(n)) && EncodeInode(n)[60..84] == n.name
  {
    var bs := EncodeInode(n);
    assert bs[0..4] == Le(n.used, 4);
    assert bs[4..8] == Le(n.kind, 4);
    assert bs[8..12] == Le(n.sessionId, 4);
    assert bs[12..16] == Le(n.size, 4);
    assert bs[16..20] == Le(n.profile, 4);
    assert bs[20..24] == Le(n.start, 4);
    assert bs[24..28] == Le(n.sectors, 4);
    assert bs[28..36] == Le(n.created, 8);
    assert bs[36..44] == Le(n.duration, 8);
    assert bs[44..52] == Le(n.events, 8);
    assert bs[52..60] == Le(n.hash, 8);
    assert bs[60..84] == n.name;
    hide EncodeInode, Le;
    AllCells(bs, InodeCells(n));
  }

  /** A name of 24 bytes or more is cut after 23; what a name leaves is zero. */
  lemma NameLayout(path: seq<byte>, i: nat)
    requires i < NAME_BYTES
    ensures NameField(path)[i] == if i < |path| && i < 23 then path[i] else 0
  {
  }

  /** Inode `i` of the table lies at byte 128 * i of its image. */
  lemma {:induction false} TableLayout(ns: seq<Inode>, i: nat)
    requires TableFits(ns) && i < |ns|
    ensures INODE_BYTES * i + INODE_BYTES <= |EncodeTable(ns)| &&
            var bs := EncodeTable(ns)[INODE_BYTES * i..][..INODE_BYTES];
            HoldsCells(bs, InodeCells(ns[i])) && bs[60..84] == ns[i].name
  {
    hide EncodeInode, InodeCells, HoldsCells;
    var bs := EncodeTable(ns);
    if i == 0 {
      InodeLayout(ns[0]);
      assert bs[0..][..INODE_BYTES] == EncodeInode(ns[0]);
    } else {
      TableLayout(ns[1..], i - 1);
      assert bs[INODE_BYTES * i..] == EncodeTable(ns[1..])[INODE_BYTES * (i - 1)..];
    }
  }
}
