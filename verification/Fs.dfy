/** The trace filesystem (kernel/fs.c): a bump-allocated extent store with a table of 32 inodes over
    a sector device on which any write may fail and leave anything in the sectors it was aimed at. */
module Fs {
  import opened Bytes

  const SECTOR: nat := 512
  const FS_MAGIC: nat := 0x4344_5836
  const FS_VERSION: nat := 3
  const FS_START: nat := 2048
  const FS_TOTAL: nat := 4096
  const INODE_SECTORS: nat := 8
  const DATA_START: nat := 2057
  const FS_END: nat := 6144
  const MAX_INODES: nat := 32
  const INODE_BYTES: nat := 128
  const NAME_BYTES: nat := 24

  const TRACE_FILE: nat := 1
  const EXEC_FILE: nat := 2

  type Sector = s: seq<byte> | |s| == SECTOR witness Zeros(SECTOR)

  type Disk = map<nat, Sector>

  datatype Super = Super(magic: nat, version: nat, totalSectors: nat, inodeCount: nat, inodeTableLba: nat,
                         dataStartLba: nat, nextFree: nat, nextSession: nat)

  datatype Inode = Inode(used: nat, kind: nat, sessionId: nat, size: nat, profile: nat, start: nat, sectors: nat,
                         created: nat, duration: nat, events: nat, hash: nat, name: seq<byte>)

  /** What trace_stop says about a session. */
  datatype Info = Info(profile: nat, start: nat, duration: nat, events: nat, hash: nat)

  /** What became of one device write: stored, or failed with `junk(i)` in its i-th sector. */
  datatype Outcome = Stored | Torn(junk: nat -> Sector)

  datatype FsState = FsState(disk: Disk, sb: Super, inodes: seq<Inode>, online: bool)

  const BLANK: Inode := Inode(0, 0, 0, 0, 0, 0, 0, 0, 0, 0, 0, Zeros(NAME_BYTES))

  // ---- Sectors ----

  /** The number of sectors of a file, in 32-bit arithmetic. */
  function SectorsFor(bytes: nat): (n: nat)
    ensures n >= 1
  {
    var n := (bytes + SECTOR - 1) % TWO_32 / SECTOR;
    if n == 0 then 1 else n
  }

  /** The rounding up wraps for the last 511 sizes that 32 bits can express, and only for those. */
  lemma CapacityExact(bytes: nat)
    requires bytes < TWO_32
    ensures bytes <= SECTOR * SectorsFor(bytes) <==> bytes <= TWO_32 - SECTOR
  {
  }

  /** The smallest such size gets one sector. */
  lemma CapacityWraps()
    ensures SectorsFor(TWO_32 - SECTOR + 1) == 1 && TWO_32 - SECTOR + 1 > SECTOR
  {
  }

  /** Sector `i` of a file: its bytes, then zeros. */
  function Chunk(data: seq<byte>, i: nat): Sector
  {
    seq(SECTOR, j => if 0 <= j && SECTOR * i + j < |data| then data[SECTOR * i + j] else 0)
  }

  function SectorAt(d: Disk, lba: nat): Sector
  {
    if lba in d then d[lba] else Zeros(SECTOR)
  }

  /** `n` consecutive sectors as one byte sequence. */
  function ReadRun(d: Disk, lba: nat, n: nat): (bs: seq<byte>)
    ensures |bs| == SECTOR * n
    decreases n
  {
    if n == 0 then [] else SectorAt(d, lba) + ReadRun(d, lba + 1, n - 1)
  }

  lemma {:induction false} ReadRunAt(d: Disk, lba: nat, n: nat, k: nat)
    requires k < SECTOR * n
    ensures ReadRun(d, lba, n)[k] == SectorAt(d, lba + k / SECTOR)[k % SECTOR]
    decreases n
  {
    if k >= SECTOR {
      ReadRunAt(d, lba + 1, n - 1, k - SECTOR);
      assert (k - SECTOR) / SECTOR == k / SECTOR - 1 && (k - SECTOR) % SECTOR == k % SECTOR;
    }
  }

  lemma {:induction false} ReadRunSame(d: Disk, e: Disk, lba: nat, n: nat)
    requires forall i :: lba <= i < lba + n ==> SectorAt(d, i) == SectorAt(e, i)
    ensures ReadRun(d, lba, n) == ReadRun(e, lba, n)
    decreases n
  {
    if n > 0 {
      ReadRunSame(d, e, lba + 1, n - 1);
    }
  }

  /** Sectors that hold the chunks of `data` read back as `data`. */
  lemma ChunksReadBack(d: Disk, lba: nat, data: seq<byte>, n: nat)
    requires |data| <= SECTOR * n
    requires forall i: nat :: i < n ==> SectorAt(d, lba + i) == Chunk(data, i)
    ensures ReadRun(d, lba, n)[..|data|] == data
  {
    forall k | 0 <= k < |data|
      ensures ReadRun(d, lba, n)[k] == data[k]
    {
      ReadRunAt(d, lba, n, k);
      ChunkHolds(data, k);
      assert SectorAt(d, lba + k / SECTOR) == Chunk(data, k / SECTOR);
    }
  }

  lemma ChunkHolds(data: seq<byte>, k: nat)
    requires k < |data|
    ensures Chunk(data, k / SECTOR)[k % SECTOR] == data[k]
  {
    assert SECTOR * (k / SECTOR) + k % SECTOR == k;
  }

  // ---- The device ----

  /** A write of `secs` at `lba`. */
  function DeviceWrite(d: Disk, lba: nat, secs: seq<Sector>, out: Outcome): (r: (bool, Disk))
    ensures r.0 == out.Stored?
    ensures forall a :: a in d ==> a in r.1
    ensures forall a: nat :: a < lba || a >= lba + |secs| ==> SectorAt(r.1, a) == SectorAt(d, a)
    ensures forall i :: 0 <= i < |secs| && out.Stored? ==> SectorAt(r.1, lba + i) == secs[i]
    decreases |secs|
  {
    if |secs| == 0 then (out.Stored?, d)
    else
      var n := |secs| - 1;
      var (ok, e) := DeviceWrite(d, lba, secs[..n], out);
      (ok, e[lba + n := match out case Stored => secs[n] case Torn(junk) => junk(n)])
  }

  /** The sector loop of a file write: stops at the first failure. */
  function WriteData(d: Disk, start: nat, data: seq<byte>, outs: nat -> Outcome, i: nat, n: nat): (r: (bool, Disk))
    requires i <= n
    ensures forall a :: a in d ==> a in r.1
    ensures forall a: nat :: a < start + i || a >= start + n ==> SectorAt(r.1, a) == SectorAt(d, a)
    ensures r.0 ==> forall j :: i <= j < n ==> SectorAt(r.1, start + j) == Chunk(data, j)
    decreases n - i
  {
    if i == n then (true, d)
    else
      var (ok, e) := DeviceWrite(d, start + i, [Chunk(data, i)], outs(i));
      assert ok ==> SectorAt(e, start + i) == Chunk(data, i);
      if !ok then (false, e) else WriteData(e, start, data, outs, i + 1, n)
  }

  // ---- The metadata on disk ----

  function EncodeSuper(sb: Super): Sector
  {
    Le(sb.magic, 4) + Le(sb.version, 4) + Le(sb.totalSectors, 4) + Le(sb.inodeCount, 4) +
    Le(sb.inodeTableLba, 4) + Le(sb.dataStartLba, 4) + Le(sb.nextFree, 4) + Le(sb.nextSession, 4) + Zeros(SECTOR - 32)
  }

  function DecodeSuper(s: Sector): Super
  {
    Super(FromLe(s[0..4]), FromLe(s[4..8]), FromLe(s[8..12]), FromLe(s[12..16]),
          FromLe(s[16..20]), FromLe(s[20..24]), FromLe(s[24..28]), FromLe(s[28..32]))
  }

  predicate SuperFits(sb: Super)
  {
    sb.magic < TWO_32 && sb.version < TWO_32 && sb.totalSectors < TWO_32 && sb.inodeCount < TWO_32 &&
    sb.inodeTableLba < TWO_32 && sb.dataStartLba < TWO_32 && sb.nextFree < TWO_32 && sb.nextSession < TWO_32
  }

  lemma SuperRoundTrip(sb: Super)
    requires SuperFits(sb)
    ensures DecodeSuper(EncodeSuper(sb)) == sb
  {
    Powers();
    var s := EncodeSuper(sb);
    assert s[0..4] == Le(sb.magic, 4) && s[4..8] == Le(sb.version, 4);
    assert s[8..12] == Le(sb.totalSectors, 4) && s[12..16] == Le(sb.inodeCount, 4);
    assert s[16..20] == Le(sb.inodeTableLba, 4) && s[20..24] == Le(sb.dataStartLba, 4);
    assert s[24..28] == Le(sb.nextFree, 4) && s[28..32] == Le(sb.nextSession, 4);
    LeRoundTrip(sb.magic, 4);
    LeRoundTrip(sb.version, 4);
    LeRoundTrip(sb.totalSectors, 4);
    LeRoundTrip(sb.inodeCount, 4);
    LeRoundTrip(sb.inodeTableLba, 4);
    LeRoundTrip(sb.dataStartLba, 4);
    LeRoundTrip(sb.nextFree, 4);
    LeRoundTrip(sb.nextSession, 4);
  }

  predicate InodeFits(n: Inode)
  {
    n.used < TWO_32 && n.kind < TWO_32 && n.sessionId < TWO_32 && n.size < TWO_32 && n.profile < TWO_32 &&
    n.start < TWO_32 && n.sectors < TWO_32 && n.created < TWO_64 && n.duration < TWO_64 &&
    n.events < TWO_64 && n.hash < TWO_64 && |n.name| == NAME_BYTES
  }

  function EncodeInode(n: Inode): (bs: seq<byte>)
    requires |n.name| == NAME_BYTES
    ensures |bs| == INODE_BYTES
  {
    Le(n.used, 4) + Le(n.kind, 4) + Le(n.sessionId, 4) + Le(n.size, 4) + Le(n.profile, 4) + Le(n.start, 4) +
    Le(n.sectors, 4) + Le(n.created, 8) + Le(n.duration, 8) + Le(n.events, 8) + Le(n.hash, 8) + n.name + Zeros(44)
  }

  function DecodeInode(bs: seq<byte>): Inode
    requires |bs| == INODE_BYTES
  {
    Inode(FromLe(bs[0..4]), FromLe(bs[4..8]), FromLe(bs[8..12]), FromLe(bs[12..16]), FromLe(bs[16..20]),
          FromLe(bs[20..24]), FromLe(bs[24..28]), FromLe(bs[28..36]), FromLe(bs[36..44]), FromLe(bs[44..52]),
          FromLe(bs[52..60]), bs[60..84])
  }

  lemma InodeRoundTrip(n: Inode)
    requires InodeFits(n)
    ensures DecodeInode(EncodeInode(n)) == n
  {
    Powers();
    var bs := EncodeInode(n);
    assert bs[0..4] == Le(n.used, 4) && bs[4..8] == Le(n.kind, 4) && bs[8..12] == Le(n.sessionId, 4);
    assert bs[12..16] == Le(n.size, 4) && bs[16..20] == Le(n.profile, 4) && bs[20..24] == Le(n.start, 4);
    assert bs[24..28] == Le(n.sectors, 4) && bs[28..36] == Le(n.created, 8) && bs[36..44] == Le(n.duration, 8);
    assert bs[44..52] == Le(n.events, 8) && bs[52..60] == Le(n.hash, 8) && bs[60..84] == n.name;
    LeRoundTrip(n.used, 4);
    LeRoundTrip(n.kind, 4);
    LeRoundTrip(n.sessionId, 4);
    LeRoundTrip(n.size, 4);
    LeRoundTrip(n.profile, 4);
    LeRoundTrip(n.start, 4);
    LeRoundTrip(n.sectors, 4);
    LeRoundTrip(n.created, 8);
    LeRoundTrip(n.duration, 8);
    LeRoundTrip(n.events, 8);
    LeRoundTrip(n.hash, 8);
  }

  predicate TableFits(ns: seq<Inode>)
  {
    forall i :: 0 <= i < |ns| ==> InodeFits(ns[i])
  }

  function EncodeTable(ns: seq<Inode>): (bs: seq<byte>)
    requires TableFits(ns)
    ensures |bs| == INODE_BYTES * |ns|
  {
    if |ns| == 0 then [] else EncodeInode(ns[0]) + EncodeTable(ns[1..])
  }

  function DecodeTable(bs: seq<byte>, n: nat): (ns: seq<Inode>)
    requires |bs| == INODE_BYTES * n
    ensures |ns| == n
    decreases n
  {
    if n == 0 then [] else [DecodeInode(bs[..INODE_BYTES])] + DecodeTable(bs[INODE_BYTES..], n - 1)
  }

  lemma {:induction false} TableRoundTrip(ns: seq<Inode>)
    requires TableFits(ns)
    ensures DecodeTable(EncodeTable(ns), |ns|) == ns
  {
    if |ns| > 0 {
      InodeRoundTrip(ns[0]);
      hide EncodeInode, DecodeInode;
      TableRoundTrip(ns[1..]);
      var bs := EncodeTable(ns);
      assert bs[..INODE_BYTES] == EncodeInode(ns[0]) && bs[INODE_BYTES..] == EncodeTable(ns[1..]);
    }
  }

  /** A byte image as the sectors that a multi-sector write sends. */
  function ToSectors(bs: seq<byte>, n: nat): (ss: seq<Sector>)
    ensures |ss| == n && forall i :: 0 <= i < n ==> ss[i] == Chunk(bs, i)
  {
    seq(n, i requires 0 <= i => Chunk(bs, i))
  }

  // ---- Operations ----

  function FindSessionFrom(ns: seq<Inode>, id: nat, i: nat): (r: int)
    requires i <= |ns|
    ensures r == -1 || i <= r < |ns|
    ensures r >= 0 ==> IsSession(ns[r], id)
    ensures r == -1 ==> forall j :: i <= j < |ns| ==> !IsSession(ns[j], id)
    decreases |ns| - i
  {
    if i == |ns| then -1 else if IsSession(ns[i], id) then i else FindSessionFrom(ns, id, i + 1)
  }

  predicate IsTrace(n: Inode)
  {
    n.used != 0 && n.kind == TRACE_FILE
  }

  predicate IsSession(n: Inode, id: nat)
  {
    IsTrace(n) && n.sessionId == id
  }

  function FreeInodeFrom(ns: seq<Inode>, i: nat): (r: int)
    requires i <= |ns|
    ensures r == -1 || i <= r < |ns|
    ensures r >= 0 ==> ns[r].used == 0
    ensures r == -1 ==> forall j :: i <= j < |ns| ==> ns[j].used != 0
    decreases |ns| - i
  {
    if i == |ns| then -1 else if ns[i].used == 0 then i else FreeInodeFrom(ns, i + 1)
  }

  /** strcmp(name, path) == 0 for a path without NUL. */
  predicate SameName(name: seq<byte>, path: seq<byte>)
  {
    |path| < |name| && name[..|path|] == path && name[|path|] == 0
  }

  function FindExecFrom(ns: seq<Inode>, path: seq<byte>, i: nat): (r: int)
    requires i <= |ns|
    ensures r == -1 || i <= r < |ns|
    ensures r >= 0 ==> ns[r].used != 0 && ns[r].kind == EXEC_FILE && SameName(ns[r].name, path)
    decreases |ns| - i
  {
    if i == |ns| then -1
    else if ns[i].used != 0 && ns[i].kind == EXEC_FILE && SameName(ns[i].name, path) then i
    else FindExecFrom(ns, path, i + 1)
  }

  /** copy_name into a zeroed field. */
  function NameField(path: seq<byte>): (n: seq<byte>)
    ensures |n| == NAME_BYTES
  {
    if |path| < NAME_BYTES then path + Zeros(NAME_BYTES - |path|) else path[..NAME_BYTES - 1] + [0]
  }

  function FlushInodes(s: FsState, out: Outcome): (bool, FsState)
    requires TableFits(s.inodes)
  {
    var (ok, d) := DeviceWrite(s.disk, FS_START + 1, ToSectors(EncodeTable(s.inodes), INODE_SECTORS), out);
    (ok, s.(disk := d))
  }

  function FlushSuper(s: FsState, out: Outcome): (bool, FsState)
  {
    var (ok, d) := DeviceWrite(s.disk, FS_START, [EncodeSuper(s.sb)], out);
    (ok, s.(disk := d))
  }

  function FreshSuper(): Super
  {
    Super(FS_MAGIC, FS_VERSION, FS_TOTAL, MAX_INODES, FS_START + 1, DATA_START, DATA_START, 1)
  }

  /** fs_format: superblock first, then the inode table. */
  function Format(d: Disk, outSuper: Outcome, outTable: Outcome): (bool, FsState)
  {
    var s := FsState(d, FreshSuper(), seq(MAX_INODES, _ => BLANK), false);
    var (ok, s1) := FlushSuper(s, outSuper);
    if !ok then (false, s1) else FlushInodes(s1, outTable)
  }

  /** fs_load: the state that a reboot finds. */
  function LoadDisk(d: Disk): FsState
  {
    FsState(d, DecodeSuper(SectorAt(d, FS_START)), DecodeTable(ReadRun(d, FS_START + 1, INODE_SECTORS), MAX_INODES), false)
  }

  function SessionInode(sb: Super, bytes: nat, info: Info): Inode
  {
    Inode(1, TRACE_FILE, sb.nextSession, bytes, info.profile, sb.nextFree, SectorsFor(bytes),
          info.start, info.duration, info.events, info.hash, Zeros(NAME_BYTES))
  }

  predicate InfoFits(info: Info)
  {
    info.profile < TWO_32 && info.start < TWO_64 && info.duration < TWO_64 && info.events < TWO_64 && info.hash < TWO_64
  }

  /** The session in memory, once its sectors are written: inode filled in, superblock advanced. */
  function Commit(s: FsState, i: nat, bytes: nat, info: Info): FsState
    requires i < |s.inodes|
  {
    s.(inodes := s.inodes[i := SessionInode(s.sb, bytes, info)],
       sb := s.sb.(nextFree := s.sb.nextFree + SectorsFor(bytes), nextSession := s.sb.nextSession + 1))
  }

  /** fs_write_trace_session. Device write number i of the call has outcome outs(i). */
  function WriteSession(s: FsState, data: seq<byte>, info: Info, outs: nat -> Outcome): (bool, FsState)
    requires Fits(s) && InfoFits(info) && |data| < TWO_32 && s.sb.nextSession + 1 < TWO_32
  {
    var n := SectorsFor(|data|);
    var i := FreeInodeFrom(s.inodes, 0);
    if !s.online || s.sb.nextFree + n > FS_END || i < 0 then (false, s)
    else
      var (ok, d) := WriteData(s.disk, s.sb.nextFree, data, outs, 0, n);
      if !ok then (false, s.(disk := d, inodes := s.inodes[i := BLANK]))
      else
        var s1 := Commit(s.(disk := d), i, |data|, info);
        var (ok1, s2) := FlushInodes(s1, outs(n));
        if !ok1 then (false, s2) else FlushSuper(s2, outs(n + 1))
  }

  ghost predicate Fits(s: FsState)
  {
    |s.inodes| == MAX_INODES && TableFits(s.inodes) && SuperFits(s.sb)
  }

  /** The bytes of a file. */
  function FileBytes(d: Disk, n: Inode): seq<byte>
    requires n.size <= SECTOR * n.sectors
  {
    ReadRun(d, n.start, n.sectors)[..n.size]
  }

  // ---- What every operation keeps ----

  predicate Holds(n: Inode, lba: nat)
  {
    n.used != 0 && n.start <= lba < n.start + n.sectors
  }

  ghost predicate Covered(ns: seq<Inode>, lba: nat)
  {
    exists i :: 0 <= i < |ns| && Holds(ns[i], lba)
  }

  /** The extents of the used inodes tile [data_start, next_free_lba) exactly. */
  ghost predicate Tiled(ns: seq<Inode>, nextFree: nat)
  {
    (forall i :: 0 <= i < |ns| && ns[i].used != 0 ==>
       DATA_START <= ns[i].start && ns[i].start + ns[i].sectors <= nextFree &&
       ns[i].sectors == SectorsFor(ns[i].size) && ns[i].size <= SECTOR * ns[i].sectors) &&
    (forall i, j, lba: nat :: 0 <= i < |ns| && 0 <= j < |ns| && Holds(ns[i], lba) && Holds(ns[j], lba) ==> i == j) &&
    (forall lba: nat :: DATA_START <= lba < nextFree ==> Covered(ns, lba))
  }

  function TraceCount(ns: seq<Inode>, i: nat): nat
    decreases |ns| - i
  {
    if i >= |ns| then 0 else (if IsTrace(ns[i]) then 1 else 0) + TraceCount(ns, i + 1)
  }

  /** Session ids are distinct, and the next one is 1 + the number of sessions. */
  ghost predicate Numbered(ns: seq<Inode>, nextSession: nat)
  {
    (forall i :: 0 <= i < |ns| && ns[i].used != 0 ==> ns[i].kind == TRACE_FILE || ns[i].kind == EXEC_FILE) &&
    (forall i :: 0 <= i < |ns| && IsTrace(ns[i]) ==> 1 <= ns[i].sessionId < nextSession) &&
    (forall i, j :: 0 <= i < j < |ns| && IsTrace(ns[i]) && IsTrace(ns[j]) ==> ns[i].sessionId != ns[j].sessionId) &&
    nextSession == 1 + TraceCount(ns, 0)
  }

  ghost predicate Inv(s: FsState)
  {
    Fits(s) && s.sb == FreshSuper().(nextFree := s.sb.nextFree, nextSession := s.sb.nextSession) &&
    DATA_START <= s.sb.nextFree <= FS_END && Tiled(s.inodes, s.sb.nextFree) && Numbered(s.inodes, s.sb.nextSession)
  }

  datatype Content = Missing | Content(node: Inode, bytes: seq<byte>)

  /** What fs_get_trace_session_info and, when the device answers, fs_read_trace_session deliver. */
  function SessionAt(s: FsState, id: nat): Content
  {
    var i := FindSessionFrom(s.inodes, id, 0);
    if i < 0 || s.inodes[i].size > SECTOR * s.inodes[i].sectors then Missing
    else Content(s.inodes[i], FileBytes(s.disk, s.inodes[i]))
  }

  lemma {:induction false} TraceCountUpdate(ns: seq<Inode>, ms: seq<Inode>, c: nat, i: nat)
    requires |ns| == |ms| && c < |ns| && forall j :: 0 <= j < |ns| && j != c ==> ns[j] == ms[j]
    ensures TraceCount(ms, i) == TraceCount(ns, i) +
              (if i <= c then (if IsTrace(ms[c]) then 1 else 0) - (if IsTrace(ns[c]) then 1 else 0) else 0)
    decreases |ns| - i
  {
    if i < |ns| {
      TraceCountUpdate(ns, ms, c, i + 1);
    }
  }

  lemma {:induction false} NoTraces(ns: seq<Inode>, i: nat)
    requires forall j :: 0 <= j < |ns| ==> !IsTrace(ns[j])
    ensures TraceCount(ns, i) == 0
    decreases |ns| - i
  {
    if i < |ns| {
      NoTraces(ns, i + 1);
    }
  }

  /** Filling a free inode with the extent at the end extends the tiling by that extent. */
  lemma AppendTiled(ns: seq<Inode>, nextFree: nat, c: nat, n: Inode)
    requires Tiled(ns, nextFree) && DATA_START <= nextFree && c < |ns| && ns[c].used == 0
    requires n.used != 0 && n.start == nextFree && n.sectors == SectorsFor(n.size) && n.size <= SECTOR * n.sectors
    ensures Tiled(ns[c := n], nextFree + n.sectors)
  {
    var ms := ns[c := n];
    forall lba: nat | DATA_START <= lba < nextFree + n.sectors
      ensures Covered(ms, lba)
    {
      if lba < nextFree {
        assert Covered(ns, lba);
        var i :| 0 <= i < |ns| && Holds(ns[i], lba);
        assert Holds(ms[i], lba);
      } else {
        assert Holds(ms[c], lba);
      }
    }
    forall i, j, lba: nat | 0 <= i < |ms| && 0 <= j < |ms| && Holds(ms[i], lba) && Holds(ms[j], lba)
      ensures i == j
    {
      assert i != c ==> Holds(ns[i], lba);
      assert j != c ==> Holds(ns[j], lba);
    }
  }

  lemma BlankInv(s: FsState, c: nat)
    requires Inv(s) && c < MAX_INODES && s.inodes[c].used == 0
    ensures Inv(s.(inodes := s.inodes[c := BLANK]))
  {
    UnusedTiled(s.inodes, s.sb.nextFree, c, BLANK);
    TraceCountUpdate(s.inodes, s.inodes[c := BLANK], c, 0);
  }

  predicate Storable(bytes: nat)
  {
    bytes <= TWO_32 - SECTOR
  }

  lemma CommitInv(s: FsState, c: nat, bytes: nat, info: Info)
    requires Inv(s) && c < MAX_INODES && s.inodes[c].used == 0 && Storable(bytes) && InfoFits(info)
    requires s.sb.nextFree + SectorsFor(bytes) <= FS_END && s.sb.nextSession + 1 < TWO_32
    ensures Inv(Commit(s, c, bytes, info))
  {
    var n := SessionInode(s.sb, bytes, info);
    CapacityExact(bytes);
    AppendTiled(s.inodes, s.sb.nextFree, c, n);
    TraceCountUpdate(s.inodes, s.inodes[c := n], c, 0);
  }

  /** A session write ends in one of two ways: nothing but a free inode touched, or the session
      committed in memory, whether or not the metadata reached the disk. */
  lemma WriteSessionCases(s: FsState, data: seq<byte>, info: Info, outs: nat -> Outcome)
    requires Inv(s) && InfoFits(info) && |data| < TWO_32 && s.sb.nextSession + 1 < TWO_32
    ensures var (ok, t) := WriteSession(s, data, info, outs);
            var i := FreeInodeFrom(s.inodes, 0);
            t.online == s.online &&
            (forall a: nat :: DATA_START <= a < s.sb.nextFree ==> SectorAt(t.disk, a) == SectorAt(s.disk, a)) &&
            ((!ok && t.sb == s.sb && (t.inodes == s.inodes || (i >= 0 && t.inodes == s.inodes[i := BLANK]))) ||
             (s.online && i >= 0 && s.sb.nextFree + SectorsFor(|data|) <= FS_END &&
              t.sb == Commit(s, i, |data|, info).sb && t.inodes == Commit(s, i, |data|, info).inodes &&
              forall j: nat :: j < SectorsFor(|data|) ==> SectorAt(t.disk, s.sb.nextFree + j) == Chunk(data, j)))
  {
    hide Tiled, Numbered, EncodeTable, EncodeSuper, ToSectors, Chunk, DeviceWrite, WriteData, SectorsFor, SectorAt;
  }

  lemma {:induction false} DataStored(d: Disk, start: nat, data: seq<byte>, outs: nat -> Outcome, i: nat, n: nat)
    requires i <= n
    ensures WriteData(d, start, data, outs, i, n).0 <==> forall j: nat :: i <= j < n ==> outs(j).Stored?
    decreases n - i
  {
    hide SectorAt, Chunk;
    if i < n {
      var (ok, e) := DeviceWrite(d, start + i, [Chunk(data, i)], outs(i));
      DataStored(e, start, data, outs, i + 1, n);
    }
  }

  /** A session write succeeds if and only if the filesystem is online, there is room and an inode for the
      session, and the device stores every one of the writes. */
  lemma WriteSucceeds(s: FsState, data: seq<byte>, info: Info, outs: nat -> Outcome)
    requires Fits(s) && InfoFits(info) && |data| < TWO_32 && s.sb.nextSession + 1 < TWO_32
    ensures var n := SectorsFor(|data|);
            WriteSession(s, data, info, outs).0 <==>
            s.online && s.sb.nextFree + n <= FS_END && (exists i :: 0 <= i < MAX_INODES && s.inodes[i].used == 0) &&
            forall j: nat :: j < n + 2 ==> outs(j).Stored?
  {
    var n := SectorsFor(|data|);
    DataStored(s.disk, s.sb.nextFree, data, outs, 0, n);
    hide EncodeTable, EncodeSuper, ToSectors, Chunk, WriteData, SectorsFor, SectorAt;
    assert (forall j: nat :: j < n + 2 ==> outs(j).Stored?) <==>
           (forall j: nat :: 0 <= j < n ==> outs(j).Stored?) && outs(n).Stored? && outs(n + 1).Stored?;
  }

  /** Every session write, whatever the device does, keeps the invariant. */
  lemma WriteSessionInv(s: FsState, data: seq<byte>, info: Info, outs: nat -> Outcome)
    requires Inv(s) && InfoFits(info) && Storable(|data|) && s.sb.nextSession + 1 < TWO_32
    ensures Inv(WriteSession(s, data, info, outs).1)
  {
    WriteSessionCases(s, data, info, outs);
    var i := FreeInodeFrom(s.inodes, 0);
    if i >= 0 {
      BlankInv(s, i);
      if s.sb.nextFree + SectorsFor(|data|) <= FS_END {
        CommitInv(s, i, |data|, info);
      }
    }
  }

  lemma {:induction false} FindIs(s: FsState, i: nat, id: nat)
    requires Inv(s) && i < MAX_INODES && IsSession(s.inodes[i], id)
    ensures FindSessionFrom(s.inodes, id, 0) == i
  {
    var r := FindSessionFrom(s.inodes, id, 0);
    assert r < i || r == i || r > i;
  }

  /** A file keeps its bytes when the sectors below the bump pointer do. */
  lemma FileKept(s: FsState, d: Disk, i: nat)
    requires Inv(s) && i < MAX_INODES && s.inodes[i].used != 0
    requires forall a: nat :: DATA_START <= a < s.sb.nextFree ==> SectorAt(d, a) == SectorAt(s.disk, a)
    ensures FileBytes(d, s.inodes[i]) == FileBytes(s.disk, s.inodes[i])
  {
    ReadRunSame(d, s.disk, s.inodes[i].start, s.inodes[i].sectors);
  }

  /** Has the write taken effect in memory? */
  predicate Committed(s: FsState, t: FsState)
  {
    t.sb.nextSession != s.sb.nextSession
  }

  lemma NewSession(s: FsState, data: seq<byte>, info: Info, t: FsState, c: nat)
    requires Inv(t) && InfoFits(info) && Storable(|data|) && c < |s.inodes|
    requires t.inodes == Commit(s, c, |data|, info).inodes
    requires forall j: nat :: j < SectorsFor(|data|) ==> SectorAt(t.disk, s.sb.nextFree + j) == Chunk(data, j)
    ensures SessionAt(t, s.sb.nextSession) == Content(SessionInode(s.sb, |data|, info), data)
  {
    FindIs(t, c, s.sb.nextSession);
    CapacityExact(|data|);
    ChunksReadBack(t.disk, s.sb.nextFree, data, SectorsFor(|data|));
  }

  lemma OldSession(s: FsState, t: FsState, id: nat)
    requires Inv(s) && Inv(t)
    requires forall i :: 0 <= i < MAX_INODES ==> (IsSession(s.inodes[i], id) <==> IsSession(t.inodes[i], id))
    requires forall i :: 0 <= i < MAX_INODES && IsSession(s.inodes[i], id) ==> t.inodes[i] == s.inodes[i]
    requires forall a: nat :: DATA_START <= a < s.sb.nextFree ==> SectorAt(t.disk, a) == SectorAt(s.disk, a)
    ensures SessionAt(t, id) == SessionAt(s, id)
  {
    var i := FindSessionFrom(s.inodes, id, 0);
    if i >= 0 {
      FindIs(t, i, id);
      FileKept(s, t.disk, i);
    }
  }

  /** A session file with these bytes, at this place, that says this about the session. */
  ghost predicate IsFile(c: Content, id: nat, start: nat, data: seq<byte>, info: Info)
  {
    c.Content? && c.bytes == data && c.node.used != 0 && c.node.kind == TRACE_FILE && c.node.sessionId == id &&
    c.node.size == |data| && c.node.start == start && c.node.profile == info.profile && c.node.created == info.start &&
    c.node.duration == info.duration && c.node.events == info.events && c.node.hash == info.hash &&
    c.node.name == Zeros(NAME_BYTES)
  }

  /** Round trip and frame: after any session write, the new session (if committed) reads back its exact bytes and
      everything that was said about it, and every other session reads as before. */
  lemma SessionsAfterWrite(s: FsState, data: seq<byte>, info: Info, outs: nat -> Outcome, id: nat)
    requires Inv(s) && InfoFits(info) && Storable(|data|) && s.sb.nextSession + 1 < TWO_32
    ensures var (ok, t) := WriteSession(s, data, info, outs);
            (ok ==> Committed(s, t)) &&
            if Committed(s, t) && id == s.sb.nextSession
            then IsFile(SessionAt(t, id), s.sb.nextSession, s.sb.nextFree, data, info)
            else SessionAt(t, id) == SessionAt(s, id)
  {
    var (ok, t) := WriteSession(s, data, info, outs);
    WriteSessionCases(s, data, info, outs);
    WriteSessionInv(s, data, info, outs);
    hide WriteSession, Chunk, SectorAt, SessionAt, Tiled, FreeInodeFrom;
    var c := FreeInodeFrom(s.inodes, 0);
    if Committed(s, t) && id == s.sb.nextSession {
      NewSession(s, data, info, t, c);
    } else {
      OldSession(s, t, id);
    }
  }

  // ---- Reboot ----

  ghost predicate OnDisk(s: FsState)
    requires TableFits(s.inodes)
  {
    SectorAt(s.disk, FS_START) == EncodeSuper(s.sb) &&
    forall i: nat :: i < INODE_SECTORS ==> SectorAt(s.disk, FS_START + 1 + i) == Chunk(EncodeTable(s.inodes), i)
  }

  /** A session write that succeeds has put the metadata on disk. */
  lemma SuccessIsOnDisk(s: FsState, data: seq<byte>, info: Info, outs: nat -> Outcome)
    requires Inv(s) && InfoFits(info) && Storable(|data|) && s.sb.nextSession + 1 < TWO_32
    requires WriteSession(s, data, info, outs).0
    ensures Inv(WriteSession(s, data, info, outs).1) && OnDisk(WriteSession(s, data, info, outs).1)
  {
    WriteSessionInv(s, data, info, outs);
  }

  /** What is on disk is what a reboot loads. */
  lemma RebootLoads(s: FsState)
    requires Inv(s) && OnDisk(s)
    ensures LoadDisk(s.disk) == s.(online := false)
  {
    SuperRoundTrip(s.sb);
    var bs := EncodeTable(s.inodes);
    ChunksReadBack(s.disk, FS_START + 1, bs, INODE_SECTORS);
    assert ReadRun(s.disk, FS_START + 1, INODE_SECTORS)[..|bs|] == ReadRun(s.disk, FS_START + 1, INODE_SECTORS);
    TableRoundTrip(s.inodes);
  }

  /** A freshly formatted disk satisfies the invariant and is what a reboot would load. */
  lemma FormatInv(d: Disk, outSuper: Outcome, outTable: Outcome)
    requires Format(d, outSuper, outTable).0
    ensures var s := Format(d, outSuper, outTable).1;
            Inv(s) && OnDisk(s) && LoadDisk(s.disk) == s && s.sb.nextFree == DATA_START
  {
    FormatFlushes(d, outSuper, outTable);
    hide Format, LoadDisk, OnDisk;
    var s := Format(d, outSuper, outTable).1;
    NoTraces(s.inodes, 0);
    RebootLoads(s);
  }

  lemma FormatFlushes(d: Disk, outSuper: Outcome, outTable: Outcome)
    requires Format(d, outSuper, outTable).0
    ensures var s := Format(d, outSuper, outTable).1;
            s == FsState(s.disk, FreshSuper(), seq(MAX_INODES, _ => BLANK), false) && Fits(s) && OnDisk(s)
  {
    hide EncodeTable, EncodeSuper, Chunk;
  }

  // ---- Executables ----

  datatype Seed = Seed(path: seq<byte>, image: seq<byte>)

  ghost predicate SeedsFit(seeds: seq<Seed>)
  {
    forall k :: 0 <= k < |seeds| ==> |seeds[k].image| <= TWO_32 - SECTOR
  }

  /** fs_seed_exec_file. */
  function SeedExec(s: FsState, seed: Seed, outs: nat -> Outcome): (bool, FsState)
    requires Fits(s) && |seed.image| < TWO_32
  {
    var i := FreeInodeFrom(s.inodes, 0);
    if FindExecFrom(s.inodes, seed.path, 0) >= 0 then (true, s)
    else if i < 0 then (false, s)
    else
      var n := SectorsFor(|seed.image|);
      var half := BLANK.(kind := EXEC_FILE, name := NameField(seed.path));
      if s.sb.nextFree + n > FS_END then (false, s.(inodes := s.inodes[i := half]))
      else
        var (ok, d) := WriteData(s.disk, s.sb.nextFree, seed.image, outs, 0, n);
        if !ok then (false, s.(disk := d, inodes := s.inodes[i := half]))
        else (true, s.(disk := d,
                       inodes := s.inodes[i := half.(used := 1, size := |seed.image|, start := s.sb.nextFree, sectors := n)],
                       sb := s.sb.(nextFree := s.sb.nextFree + n)))
  }

  lemma NumberedExec(ns: seq<Inode>, nextSession: nat, c: nat, n: Inode)
    requires Numbered(ns, nextSession) && c < |ns| && ns[c].used == 0 && n.kind == EXEC_FILE
    ensures Numbered(ns[c := n], nextSession)
  {
    TraceCountUpdate(ns, ns[c := n], c, 0);
  }

  lemma SeedExecInv(s: FsState, seed: Seed, outs: nat -> Outcome)
    requires Inv(s) && Storable(|seed.image|)
    ensures Inv(SeedExec(s, seed, outs).1)
  {
    var (ok, t) := SeedExec(s, seed, outs);
    hide Tiled, WriteData, Chunk, SectorAt, SectorsFor, FreeInodeFrom, FindExecFrom;
    var i := FreeInodeFrom(s.inodes, 0);
    if i >= 0 && FindExecFrom(s.inodes, seed.path, 0) < 0 {
      assert t.inodes == s.inodes[i := t.inodes[i]] && t.inodes[i].kind == EXEC_FILE && InodeFits(t.inodes[i]);
      CapacityExact(|seed.image|);
      NumberedExec(s.inodes, s.sb.nextSession, i, t.inodes[i]);
      hide Numbered;
      if ok {
        AppendTiled(s.inodes, s.sb.nextFree, i, t.inodes[i]);
      } else {
        UnusedTiled(s.inodes, s.sb.nextFree, i, t.inodes[i]);
      }
    }
  }

  lemma {:induction false} FindExecUpdate(ns: seq<Inode>, c: nat, n: Inode, path: seq<byte>, i: nat)
    requires c < |ns| && i <= |ns| && FindExecFrom(ns, path, i) == -1
    requires n.used != 0 && n.kind == EXEC_FILE && SameName(n.name, path)
    ensures FindExecFrom(ns[c := n], path, i) == if i <= c then c as int else -1
    decreases |ns| - i
  {
    if i < |ns| {
      FindExecUpdate(ns, c, n, path, i + 1);
    }
  }

  /** A file that has just been seeded is found and reads back its image; sessions are as before. */
  lemma SeedReadsBack(s: FsState, seed: Seed, outs: nat -> Outcome, id: nat)
    requires Inv(s) && Storable(|seed.image|) && |seed.path| < NAME_BYTES
    ensures var (ok, t) := SeedExec(s, seed, outs);
            SessionAt(t, id) == SessionAt(s, id) &&
            (ok ==> FindExecFrom(t.inodes, seed.path, 0) >= 0) &&
            (ok && FindExecFrom(s.inodes, seed.path, 0) < 0 ==>
               var n := t.inodes[FindExecFrom(t.inodes, seed.path, 0)];
               n.size <= SECTOR * n.sectors && FileBytes(t.disk, n) == seed.image)
  {
    hide Tiled, Chunk, SectorAt, ReadRun, SectorsFor, DeviceWrite, WriteData;
    var (ok, t) := SeedExec(s, seed, outs);
    SeedExecInv(s, seed, outs);
    var c := FreeInodeFrom(s.inodes, 0);
    if c >= 0 && FindExecFrom(s.inodes, seed.path, 0) < 0 {
      if ok {
        FindExecUpdate(s.inodes, c, t.inodes[c], seed.path, 0);
        CapacityExact(|seed.image|);
        hide FindExecFrom, FreeInodeFrom;
        ChunksReadBack(t.disk, s.sb.nextFree, seed.image, SectorsFor(|seed.image|));
      }
      SeedSessions(s, seed, outs, id);
    }
  }

  lemma SeedSessions(s: FsState, seed: Seed, outs: nat -> Outcome, id: nat)
    requires Inv(s) && Storable(|seed.image|)
    ensures SessionAt(SeedExec(s, seed, outs).1, id) == SessionAt(s, id)
  {
    SeedExecInv(s, seed, outs);
    hide Tiled, WriteData, Chunk, SectorAt, ReadRun, SessionAt, FindExecFrom, FreeInodeFrom;
    OldSession(s, SeedExec(s, seed, outs).1, id);
  }

  lemma UnusedTiled(ns: seq<Inode>, nextFree: nat, c: nat, n: Inode)
    requires Tiled(ns, nextFree) && c < |ns| && ns[c].used == 0 && n.used == 0
    ensures Tiled(ns[c := n], nextFree)
  {
    var ms := ns[c := n];
    forall lba: nat | DATA_START <= lba < nextFree
      ensures Covered(ms, lba)
    {
      assert Covered(ns, lba);
      var i :| 0 <= i < |ns| && Holds(ns[i], lba);
      assert Holds(ms[i], lba);
    }
  }

  lemma SeedFits(s: FsState, seed: Seed, outs: nat -> Outcome)
    requires Fits(s) && |seed.image| < TWO_32
    ensures Fits(SeedExec(s, seed, outs).1)
  {
  }

  function Later(outs: nat -> Outcome, n: nat): nat -> Outcome
  {
    (k: nat) => outs(k + n)
  }

  /** fs_seed_execs; the device writes for each seed are numbered apart. */
  function SeedAll(s: FsState, seeds: seq<Seed>, outs: nat -> Outcome): FsState
    requires Fits(s) && SeedsFit(seeds)
    decreases |seeds|
  {
    if |seeds| == 0 then s
    else
      SeedFits(s, seeds[0], outs);
      SeedAll(SeedExec(s, seeds[0], outs).1, seeds[1..], Later(outs, FS_TOTAL))
  }

  lemma {:induction false} SeedAllInv(s: FsState, seeds: seq<Seed>, outs: nat -> Outcome)
    requires Inv(s) && SeedsFit(seeds)
    ensures Inv(SeedAll(s, seeds, outs)) && SeedAll(s, seeds, outs).online == s.online
    decreases |seeds|
  {
    if |seeds| > 0 {
      SeedExecInv(s, seeds[0], outs);
      SeedAllInv(SeedExec(s, seeds[0], outs).1, seeds[1..], Later(outs, FS_TOTAL));
    }
  }

  ghost predicate Seeded(ns: seq<Inode>, seeds: seq<Seed>)
  {
    forall k :: 0 <= k < |seeds| ==> FindExecFrom(ns, seeds[k].path, 0) >= 0
  }

  /** Seeding again changes nothing. */
  lemma {:induction false} ReseedIsIdentity(s: FsState, seeds: seq<Seed>, outs: nat -> Outcome)
    requires Fits(s) && Seeded(s.inodes, seeds) && SeedsFit(seeds)
    ensures SeedAll(s, seeds, outs) == s
    decreases |seeds|
  {
    if |seeds| > 0 {
      assert FindExecFrom(s.inodes, seeds[0].path, 0) >= 0;
      ReseedIsIdentity(s, seeds[1..], Later(outs, FS_TOTAL));
    }
  }

  lemma {:induction false} DecodedTableFits(bs: seq<byte>, n: nat)
    requires |bs| == INODE_BYTES * n
    ensures TableFits(DecodeTable(bs, n))
    decreases n
  {
    if n > 0 {
      DecodedTableFits(bs[INODE_BYTES..], n - 1);
      DecodedInodeFits(bs[..INODE_BYTES]);
    }
  }

  lemma DecodedInodeFits(bs: seq<byte>)
    requires |bs| == INODE_BYTES
    ensures InodeFits(DecodeInode(bs))
  {
    Powers();
    FromLeRoundTrip(bs[0..4]);
    FromLeRoundTrip(bs[4..8]);
    FromLeRoundTrip(bs[8..12]);
    FromLeRoundTrip(bs[12..16]);
    FromLeRoundTrip(bs[16..20]);
    FromLeRoundTrip(bs[20..24]);
    FromLeRoundTrip(bs[24..28]);
    FromLeRoundTrip(bs[28..36]);
    FromLeRoundTrip(bs[36..44]);
    FromLeRoundTrip(bs[44..52]);
    FromLeRoundTrip(bs[52..60]);
  }

  lemma LoadedFits(d: Disk)
    ensures Fits(LoadDisk(d))
  {
    var s := SectorAt(d, FS_START);
    Powers();
    FromLeRoundTrip(s[0..4]);
    FromLeRoundTrip(s[4..8]);
    FromLeRoundTrip(s[8..12]);
    FromLeRoundTrip(s[12..16]);
    FromLeRoundTrip(s[16..20]);
    FromLeRoundTrip(s[20..24]);
    FromLeRoundTrip(s[24..28]);
    FromLeRoundTrip(s[28..32]);
    DecodedTableFits(ReadRun(d, FS_START + 1, INODE_SECTORS), MAX_INODES);
  }

  lemma {:induction false} SeedAllFits(s: FsState, seeds: seq<Seed>, outs: nat -> Outcome)
    requires Fits(s) && SeedsFit(seeds)
    ensures Fits(SeedAll(s, seeds, outs))
    decreases |seeds|
  {
    if |seeds| > 0 {
      SeedFits(s, seeds[0], outs);
      SeedAllFits(SeedExec(s, seeds[0], outs).1, seeds[1..], Later(outs, FS_TOTAL));
    }
  }

  /** fs_init once the controller answers: load, or format a disk that is not ours or cannot be read; seed; flush
      both. `loads(0)` and `loads(1)` say whether the two loads can read the disk. A filesystem that stays
      offline is given the tables of the format. */
  function Mount(d: Disk, seeds: seq<Seed>, outs: nat -> Outcome, loads: nat -> bool): FsState
    requires SeedsFit(seeds)
  {
    var s0 := LoadDisk(d);
    LoadedFits(d);
    if loads(0) && s0.sb.magic == FS_MAGIC && s0.sb.version == FS_VERSION then Settle(s0, seeds, Later(outs, 2))
    else
      var (ok, s1) := Format(d, outs(0), outs(1));
      LoadedFits(s1.disk);
      if !ok || !loads(1) then s1 else Settle(LoadDisk(s1.disk), seeds, Later(outs, 2))
  }

  function Settle(s: FsState, seeds: seq<Seed>, outs: nat -> Outcome): FsState
    requires Fits(s) && SeedsFit(seeds)
  {
    var s1 := SeedAll(s.(online := true), seeds, Later(outs, 2));
    SeedAllFits(s.(online := true), seeds, Later(outs, 2));
    FlushSuper(FlushInodes(s1, outs(0)).1, outs(1)).1
  }

  lemma SettleKeeps(s: FsState, seeds: seq<Seed>, outs: nat -> Outcome)
    requires Inv(s) && Seeded(s.inodes, seeds) && SeedsFit(seeds)
    ensures var t := Settle(s, seeds, outs);
            t.sb == s.sb && t.inodes == s.inodes && t.online &&
            forall a: nat :: DATA_START <= a ==> SectorAt(t.disk, a) == SectorAt(s.disk, a)
  {
    ReseedIsIdentity(s.(online := true), seeds, Later(outs, 2));
    hide Tiled, Numbered, EncodeTable, EncodeSuper, ToSectors, SectorAt, DeviceWrite, SeedAll;
  }

  /** A reboot after a successful write finds everything as it was, and re-seeding changes nothing,
      even if the flushes at the end of fs_init fail. */
  lemma RebootPreserves(s: FsState, seeds: seq<Seed>, outs: nat -> Outcome, loads: nat -> bool, id: nat)
    requires Inv(s) && OnDisk(s) && Seeded(s.inodes, seeds) && SeedsFit(seeds) && loads(0)
    ensures var t := Mount(s.disk, seeds, outs, loads);
            t.sb == s.sb && t.inodes == s.inodes && t.online && Inv(t) && SessionAt(t, id) == SessionAt(s, id)
  {
    var s0 := s.(online := false);
    MountLoads(s, seeds, outs, loads);
    assert Inv(s0);
    hide Inv, Mount, Settle, SessionAt, OnDisk;
    SettleKeeps(s0, seeds, Later(outs, 2));
    SameMetadata(s, Mount(s.disk, seeds, outs, loads), id);
  }

  /** A reboot that cannot read the tables formats the disk: a session survives exactly if they can be read. */
  lemma RebootExact(s: FsState, seeds: seq<Seed>, outs: nat -> Outcome, loads: nat -> bool, id: nat)
    requires Inv(s) && OnDisk(s) && Seeded(s.inodes, seeds) && SeedsFit(seeds) && SessionAt(s, id).Content?
    ensures SessionAt(Mount(s.disk, seeds, outs, loads), id) == SessionAt(s, id) <==> loads(0)
  {
    if loads(0) {
      RebootPreserves(s, seeds, outs, loads, id);
    } else {
      UnreadableLosesAll(s.disk, seeds, outs, loads, id);
    }
  }

  /** The superblock's sector starts with the two words that say so. */
  predicate Ours(d: Disk)
  {
    var s := SectorAt(d, FS_START);
    FromLe(s[..4]) == 0x4344_5836 && FromLe(s[4..8]) == 3
  }

  lemma {:induction false} SeedAllOnline(s: FsState, seeds: seq<Seed>, outs: nat -> Outcome)
    requires Fits(s) && SeedsFit(seeds)
    ensures SeedAll(s, seeds, outs).online == s.online
    decreases |seeds|
  {
    if |seeds| > 0 {
      SeedFits(s, seeds[0], outs);
      SeedOnline(s, seeds[0], outs);
      hide SeedExec, Fits;
      SeedAllOnline(SeedExec(s, seeds[0], outs).1, seeds[1..], Later(outs, FS_TOTAL));
    }
  }

  lemma SeedOnline(s: FsState, seed: Seed, outs: nat -> Outcome)
    requires Fits(s) && |seed.image| < TWO_32
    ensures SeedExec(s, seed, outs).1.online == s.online
  {
    hide TableFits, SuperFits, WriteData, SectorsFor;
  }

  /** fs_init brings the filesystem up exactly if the disk is one of ours and can be read, or can be formatted and then
      read. */
  lemma OnlineExact(d: Disk, seeds: seq<Seed>, outs: nat -> Outcome, loads: nat -> bool)
    requires SeedsFit(seeds)
    ensures Mount(d, seeds, outs, loads).online <==>
            (loads(0) && Ours(d)) || (outs(0).Stored? && outs(1).Stored? && loads(1))
  {
    hide EncodeTable, EncodeSuper, ToSectors, SeedAll, DecodeTable, SectorAt, Fits, TableFits;
    var s0, s1 := LoadDisk(d), Format(d, outs(0), outs(1)).1;
    LoadedFits(d);
    LoadedFits(s1.disk);
    SettleOnline(s0, seeds, Later(outs, 2));
    SettleOnline(LoadDisk(s1.disk), seeds, Later(outs, 2));
    hide Settle;
  }

  lemma SettleOnline(s: FsState, seeds: seq<Seed>, outs: nat -> Outcome)
    requires Fits(s) && SeedsFit(seeds)
    ensures Settle(s, seeds, outs).online
  {
    SeedAllOnline(s.(online := true), seeds, Later(outs, 2));
    hide SeedAll, EncodeTable, EncodeSuper, ToSectors, DeviceWrite;
  }

  /** A boot that cannot read the tables, or that finds another magic number or version, leaves no session. */
  lemma UnreadableLosesAll(d: Disk, seeds: seq<Seed>, outs: nat -> Outcome, loads: nat -> bool, id: nat)
    requires SeedsFit(seeds) && (!loads(0) || !Ours(d))
    ensures SessionAt(Mount(d, seeds, outs, loads), id) == Missing
  {
    FormatBlanks(d, outs(0), outs(1));
    var (ok, s1) := Format(d, outs(0), outs(1));
    NoSession(s1.inodes, id);
    if ok {
      FormatInv(d, outs(0), outs(1));
      hide Inv, Format, LoadDisk, OnDisk, FindSessionFrom;
      SettleSessions(s1, seeds, Later(outs, 2), id);
    }
  }

  lemma FormatBlanks(d: Disk, out: Outcome, out': Outcome)
    ensures var s := Format(d, out, out').1;
            !s.online && |s.inodes| == MAX_INODES && forall j :: 0 <= j < MAX_INODES ==> s.inodes[j] == BLANK
  {
    hide EncodeTable, EncodeSuper, Chunk, ToSectors;
  }

  lemma NoSession(ns: seq<Inode>, id: nat)
    requires forall j :: 0 <= j < |ns| ==> ns[j] == BLANK
    ensures FindSessionFrom(ns, id, 0) == -1
  {
  }

  /** Seeding and flushing keep every session. */
  lemma SettleSessions(s: FsState, seeds: seq<Seed>, outs: nat -> Outcome, id: nat)
    requires Inv(s) && SeedsFit(seeds)
    ensures SessionAt(Settle(s, seeds, outs), id).Content? <==> SessionAt(s, id).Content?
  {
    var s0, later := s.(online := true), Later(outs, 2);
    assert Inv(s0);
    SeedAllSessions(s0, seeds, later, id);
    SeedAllInv(s0, seeds, later);
    hide SeedAll, Inv, EncodeTable, EncodeSuper, ToSectors, DeviceWrite, FindSessionFrom;
    assert Settle(s, seeds, outs).inodes == SeedAll(s0, seeds, later).inodes;
  }

  lemma {:induction false} SeedAllSessions(s: FsState, seeds: seq<Seed>, outs: nat -> Outcome, id: nat)
    requires Inv(s) && SeedsFit(seeds)
    ensures SessionAt(SeedAll(s, seeds, outs), id) == SessionAt(s, id)
    decreases |seeds|
  {
    if |seeds| > 0 {
      SeedExecInv(s, seeds[0], outs);
      SeedSessions(s, seeds[0], outs, id);
      hide SeedExec, Inv, SessionAt;
      SeedAllSessions(SeedExec(s, seeds[0], outs).1, seeds[1..], Later(outs, FS_TOTAL), id);
    }
  }

  lemma SameMetadata(s: FsState, t: FsState, id: nat)
    requires Inv(s) && t.sb == s.sb && t.inodes == s.inodes
    requires forall a: nat :: DATA_START <= a ==> SectorAt(t.disk, a) == SectorAt(s.disk, a)
    ensures Inv(t) && SessionAt(t, id) == SessionAt(s, id)
  {
    hide Tiled, Numbered, SessionAt;
    OldSession(s, t, id);
  }

  lemma MountLoads(s: FsState, seeds: seq<Seed>, outs: nat -> Outcome, loads: nat -> bool)
    requires Inv(s) && OnDisk(s) && SeedsFit(seeds) && loads(0)
    ensures Mount(s.disk, seeds, outs, loads) == Settle(s.(online := false), seeds, Later(outs, 2))
  {
    RebootLoads(s);
    hide Tiled, Numbered, LoadDisk, Settle, OnDisk;
  }

  // ---- Whole runs ----

  datatype Job = Job(data: seq<byte>, info: Info, outs: nat -> Outcome)

  ghost predicate JobFits(j: Job)
  {
    Storable(|j.data|) && InfoFits(j.info)
  }

  lemma {:induction false} TraceCountBound(ns: seq<Inode>, i: nat)
    requires i <= |ns|
    ensures TraceCount(ns, i) <= |ns| - i
    decreases |ns| - i
  {
    if i < |ns| {
      TraceCountBound(ns, i + 1);
    }
  }

  lemma JobStep(s: FsState, j: Job)
    requires Inv(s) && JobFits(j)
    ensures s.sb.nextSession + 1 < TWO_32 && Inv(WriteSession(s, j.data, j.info, j.outs).1)
  {
    TraceCountBound(s.inodes, 0);
    WriteSessionInv(s, j.data, j.info, j.outs);
  }

  ghost function RunJobs(s: FsState, jobs: seq<Job>): FsState
    requires Inv(s) && forall k :: 0 <= k < |jobs| ==> JobFits(jobs[k])
    decreases |jobs|
  {
    if |jobs| == 0 then s
    else
      JobStep(s, jobs[0]);
      RunJobs(WriteSession(s, jobs[0].data, jobs[0].info, jobs[0].outs).1, jobs[1..])
  }

  /** After any sequence of session writes, each of which may fail at any sector: the invariant holds,
      and every session that existed reads back the same bytes. */
  lemma {:induction false} RunJobsKeeps(s: FsState, jobs: seq<Job>, id: nat)
    requires Inv(s) && forall k :: 0 <= k < |jobs| ==> JobFits(jobs[k])
    ensures Inv(RunJobs(s, jobs)) && s.sb.nextSession <= RunJobs(s, jobs).sb.nextSession
    ensures id < s.sb.nextSession ==> SessionAt(RunJobs(s, jobs), id) == SessionAt(s, id)
    decreases |jobs|
  {
    if |jobs| > 0 {
      JobStep(s, jobs[0]);
      var t := WriteSession(s, jobs[0].data, jobs[0].info, jobs[0].outs).1;
      SessionsAfterWrite(s, jobs[0].data, jobs[0].info, jobs[0].outs, id);
      WriteSessionCases(s, jobs[0].data, jobs[0].info, jobs[0].outs);
      hide Inv, WriteSession, SessionAt;
      RunJobsKeeps(t, jobs[1..], id);
    }
  }

  // ---- The filesystem as the kernel keeps it ----

  class TraceFs {
    var disk: Disk
    var sb: Super
    var inodes: seq<Inode>
    var online: bool

    ghost function View(): FsState
      reads this
    {
      FsState(disk, sb, inodes, online)
    }

    /** fs_init on a disk whose controller answers. */
    constructor (d: Disk, seeds: seq<Seed>, outs: nat -> Outcome, loads: nat -> bool)
      requires SeedsFit(seeds)
      ensures View() == Mount(d, seeds, outs, loads)
    {
      disk, online := d, false;
      sb, inodes := FreshSuper(), [];
      new;
      hide LoadDisk, Format, SeedAll, FlushSuper, FlushInodes, TableFits, SuperFits, FreshSuper;
      LoadedFits(d);
      if loads(0) {
        LoadTables();
      }
      if !loads(0) || sb.magic != FS_MAGIC || sb.version != FS_VERSION {
        var ok := FormatDisk(outs(0), outs(1));
        if !ok || !loads(1) {
          return;
        }
        LoadedFits(disk);
        LoadTables();
      }
      online := true;
      SeedAllFits(View(), seeds, Later(Later(outs, 2), 2));
      SeedExecs(seeds, Later(Later(outs, 2), 2));
      var _ := FlushInodeTable(outs(2));
      var _ := FlushSuperblock(outs(3));
    }

    /** fs_flush_superblock. */
    method FlushSuperblock(out: Outcome) returns (ok: bool)
      modifies this`disk
      ensures (ok, View()) == FlushSuper(old(View()), out)
    {
      var r := DeviceWrite(disk, FS_START, [EncodeSuper(sb)], out);
      ok, disk := r.0, r.1;
    }

    /** fs_flush_inodes. */
    method FlushInodeTable(out: Outcome) returns (ok: bool)
      requires TableFits(inodes)
      modifies this`disk
      ensures (ok, View()) == FlushInodes(old(View()), out)
    {
      var r := DeviceWrite(disk, FS_START + 1, ToSectors(EncodeTable(inodes), INODE_SECTORS), out);
      ok, disk := r.0, r.1;
    }

    /** fs_load, when the disk can be read: one sector, then the eight of the table. */
    method LoadTables()
      requires !online
      modifies this`sb, this`inodes
      ensures View() == LoadDisk(disk)
    {
      hide DecodeSuper, DecodeInode, SectorAt;
      sb := DecodeSuper(SectorAt(disk, FS_START));
      ReadRunNone(disk, FS_START + 1);
      var bytes: seq<byte> := [];
      for k := 0 to INODE_SECTORS
        invariant sb == DecodeSuper(SectorAt(disk, FS_START)) && bytes == ReadRun(disk, FS_START + 1, k)
      {
        ReadRunSnoc(disk, FS_START + 1, k);
        bytes := bytes + SectorAt(disk, FS_START + 1 + k);
      }
      inodes := DecodeTable(bytes, MAX_INODES);
    }

    /** fs_format. */
    method FormatDisk(outSuper: Outcome, outTable: Outcome) returns (ok: bool)
      requires !online
      modifies this
      ensures (ok, View()) == Format(old(disk), outSuper, outTable) && !online
    {
      hide DeviceWrite, EncodeTable, EncodeSuper, ToSectors;
      sb := Super(FS_MAGIC, FS_VERSION, FS_TOTAL, MAX_INODES, FS_START + 1, DATA_START, DATA_START, 1);
      inodes := seq(MAX_INODES, _ => BLANK);
      ok := FlushSuperblock(outSuper);
      if ok {
        ok := FlushInodeTable(outTable);
      }
    }

    /** fs_write_raw_file, for inode `i`. */
    method WriteRawFile(i: nat, data: seq<byte>, outs: nat -> Outcome) returns (ok: bool)
      requires i < |inodes|
      modifies this
      ensures var n := SectorsFor(|data|);
              var s := old(View());
              var w := WriteData(s.disk, s.sb.nextFree, data, outs, 0, n);
              ok == (s.sb.nextFree + n <= FS_END && w.0) &&
              View() == (if s.sb.nextFree + n > FS_END then s
                         else if !ok then s.(disk := w.1)
                         else s.(disk := w.1, sb := s.sb.(nextFree := s.sb.nextFree + n),
                                 inodes := s.inodes[i := s.inodes[i].(size := |data|, start := s.sb.nextFree, sectors := n)]))
    {
      hide WriteData, DeviceWrite;
      var n := SectorsFor(|data|);
      var start := sb.nextFree;
      if sb.nextFree + n > FS_END {
        return false;
      }
      ok := WriteSectors(start, data, n, outs);
      if !ok {
        return;
      }
      inodes := inodes[i := inodes[i].(size := |data|, start := start, sectors := n)];
      sb := sb.(nextFree := sb.nextFree + n);
    }

    /** fs_seed_exec_file. */
    method SeedExecFile(seed: Seed, outs: nat -> Outcome) returns (ok: bool)
      requires Fits(View()) && |seed.image| < TWO_32
      modifies this
      ensures (ok, View()) == SeedExec(old(View()), seed, outs)
    {
      hide WriteData, DeviceWrite, TableFits, SuperFits, NameField;
      var found := FindExec(seed.path);
      if found >= 0 {
        return true;
      }
      var i := AllocInode();
      if i < 0 {
        return false;
      }
      inodes := inodes[i := BLANK.(used := 1, kind := EXEC_FILE, name := NameField(seed.path))];
      ok := WriteRawFile(i, seed.image, outs);
      if !ok {
        inodes := inodes[i := inodes[i].(used := 0)];
      }
      assert inodes == SeedExec(old(View()), seed, outs).1.inodes;
    }

    /** fs_seed_execs. */
    method SeedExecs(seeds: seq<Seed>, outs: nat -> Outcome)
      requires Fits(View()) && SeedsFit(seeds)
      modifies this
      ensures View() == SeedAll(old(View()), seeds, outs)
      decreases |seeds|
    {
      if |seeds| > 0 {
        hide SeedExec, TableFits, SuperFits;
        SeedFits(View(), seeds[0], outs);
        var _ := SeedExecFile(seeds[0], outs);
        SeedExecs(seeds[1..], Later(outs, FS_TOTAL));
      }
    }

    method FindSession(id: nat) returns (r: int)
      ensures r == FindSessionFrom(inodes, id, 0)
    {
      for i := 0 to |inodes|
        invariant FindSessionFrom(inodes, id, 0) == FindSessionFrom(inodes, id, i)
      {
        if inodes[i].used != 0 && inodes[i].kind == TRACE_FILE && inodes[i].sessionId == id {
          return i;
        }
      }
      r := -1;
    }

    /** fs_alloc_inode, as an index; the inode is filled in or blanked by the caller. */
    method AllocInode() returns (r: int)
      ensures r == FreeInodeFrom(inodes, 0)
    {
      for i := 0 to |inodes|
        invariant FreeInodeFrom(inodes, 0) == FreeInodeFrom(inodes, i)
      {
        if inodes[i].used == 0 {
          return i;
        }
      }
      r := -1;
    }

    /** The sector loop shared by session and executable writes. */
    method WriteSectors(start: nat, data: seq<byte>, n: nat, outs: nat -> Outcome) returns (ok: bool)
      modifies this
      ensures View() == old(View()).(disk := WriteData(old(disk), start, data, outs, 0, n).1)
      ensures ok == WriteData(old(disk), start, data, outs, 0, n).0
    {
      for i := 0 to n
        invariant View() == old(View()).(disk := disk)
        invariant WriteData(disk, start, data, outs, i, n) == WriteData(old(disk), start, data, outs, 0, n)
      {
        var (stored, d) := DeviceWrite(disk, start + i, [Chunk(data, i)], outs(i));
        disk := d;
        if !stored {
          return false;
        }
      }
      ok := true;
    }

    method WriteTraceSession(data: seq<byte>, info: Info, outs: nat -> Outcome) returns (ok: bool, id: nat)
      requires Fits(View()) && InfoFits(info) && |data| < TWO_32 && sb.nextSession + 1 < TWO_32
      modifies this
      ensures View() == WriteSession(old(View()), data, info, outs).1 && ok == WriteSession(old(View()), data, info, outs).0
      ensures ok ==> id == old(sb.nextSession)
    {
      hide WriteData, DeviceWrite, EncodeTable, ToSectors, EncodeSuper;
      id := 0;
      if !online {
        return false, 0;
      }
      var n := SectorsFor(|data|);
      if sb.nextFree + n > FS_END {
        return false, 0;
      }
      var i := AllocInode();
      if i < 0 {
        return false, 0;
      }
      ghost var before := View();
      var stored := WriteSectors(sb.nextFree, data, n, outs);
      if !stored {
        inodes := inodes[i := BLANK];
        return false, 0;
      }
      id := sb.nextSession;
      inodes := inodes[i := SessionInode(sb, |data|, info)];
      sb := sb.(nextFree := sb.nextFree + n, nextSession := sb.nextSession + 1);
      assert View() == Commit(before.(disk := disk), i, |data|, info);
      assert TableFits(inodes);
      var (flushed, d) := DeviceWrite(disk, FS_START + 1, ToSectors(EncodeTable(inodes), INODE_SECTORS), outs(n));
      disk := d;
      if !flushed {
        return false, 0;
      }
      var last := DeviceWrite(disk, FS_START, [EncodeSuper(sb)], outs(n + 1));
      ok, disk := last.0, last.1;
    }

    /** The sector loop of both reads; `size - offset` never goes below zero. */
    method ReadFile(node: Inode, readable: nat -> bool) returns (ok: bool, bytes: seq<byte>)
      requires node.sectors == SectorsFor(node.size) && node.size <= SECTOR * node.sectors && node.size < TWO_32
      ensures ok <==> forall k: nat :: k < node.sectors ==> readable(k)
      ensures ok ==> bytes == FileBytes(disk, node)
    {
      bytes := [];
      for k := 0 to node.sectors
        invariant bytes == ReadRun(disk, node.start, k)[..Filled(node.size, k)]
        invariant forall j: nat :: j < k ==> readable(j)
      {
        OffsetInFile(node.size, k);
        var chunk: nat := node.size - SECTOR * k;
        if chunk > SECTOR {
          chunk := SECTOR;
        }
        if !readable(k) {
          return false, [];
        }
        ReadStep(disk, node.start, node.size, k);
        bytes := bytes + SectorAt(disk, node.start + k)[..chunk];
      }
      ok := true;
    }

    method ReadTraceSession(id: nat, readable: nat -> bool) returns (ok: bool, bytes: seq<byte>)
      requires Inv(View())
      ensures ok ==> SessionAt(View(), id).Content? && bytes == SessionAt(View(), id).bytes
      ensures ok <==> online && SessionAt(View(), id).Content? &&
                      forall k: nat :: k < SessionAt(View(), id).node.sectors ==> readable(k)
    {
      var i := FindSession(id);
      if !online || i < 0 {
        return false, [];
      }
      ok, bytes := ReadFile(inodes[i], readable);
    }

    method FindExec(path: seq<byte>) returns (r: int)
      ensures r == FindExecFrom(inodes, path, 0)
    {
      for i := 0 to |inodes|
        invariant FindExecFrom(inodes, path, 0) == FindExecFrom(inodes, path, i)
      {
        if inodes[i].used != 0 && inodes[i].kind == EXEC_FILE && SameName(inodes[i].name, path) {
          return i;
        }
      }
      r := -1;
    }

    method ReadExecFile(path: seq<byte>, readable: nat -> bool) returns (ok: bool, bytes: seq<byte>)
      requires Inv(View())
      ensures ok <==> online && FindExecFrom(inodes, path, 0) >= 0 &&
                      forall k: nat :: k < inodes[FindExecFrom(inodes, path, 0)].sectors ==> readable(k)
      ensures ok ==> bytes == FileBytes(disk, inodes[FindExecFrom(inodes, path, 0)])
    {
      var i := FindExec(path);
      if !online || i < 0 {
        return false, [];
      }
      ok, bytes := ReadFile(inodes[i], readable);
    }
  }

  /** How much of a file its first `k` sectors hold. */
  function Filled(size: nat, k: nat): nat
  {
    if size < SECTOR * k then size else SECTOR * k
  }

  lemma OffsetInFile(size: nat, k: nat)
    requires size < TWO_32 && size <= SECTOR * SectorsFor(size) && k < SectorsFor(size)
    ensures SECTOR * k <= size
  {
    CapacityExact(size);
  }

  lemma {:induction false} ReadRunSnoc(d: Disk, lba: nat, n: nat)
    ensures ReadRun(d, lba, n + 1) == ReadRun(d, lba, n) + SectorAt(d, lba + n)
    decreases n
  {
    if n > 0 {
      ReadRunSnoc(d, lba + 1, n - 1);
    }
  }

  lemma ReadRunNone(d: Disk, lba: nat)
    ensures ReadRun(d, lba, 0) == []
  {
  }

  lemma ReadStep(d: Disk, lba: nat, size: nat, k: nat)
    requires SECTOR * k <= size
    ensures ReadRun(d, lba, k + 1)[..Filled(size, k + 1)] ==
            ReadRun(d, lba, k)[..Filled(size, k)] +
            SectorAt(d, lba + k)[..if size - SECTOR * k > SECTOR then SECTOR else size - SECTOR * k]
  {
    ReadRunSnoc(d, lba, k);
  }
}
