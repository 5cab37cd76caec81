/** fs_init on a blank disk whose writes are all stored (kernel/fs.c): what it leaves is mounted, on disk, holds
    every seeded executable and has room for sessions. */
module FreshDisk {
  import opened Bytes
  import opened Fs

  ghost predicate AllStored(outs: nat -> Outcome)
  {
    forall k: nat :: outs(k).Stored?
  }

  /** Executables of one sector each, with names that fit, and room in the table for a session. */
  ghost predicate SmallSeeds(seeds: seq<Seed>)
  {
    |seeds| < MAX_INODES - 1 && forall k :: 0 <= k < |seeds| ==> SmallSeed(seeds[k])
  }

  ghost predicate SmallSeed(seed: Seed)
  {
    |seed.image| <= SECTOR && |seed.path| < NAME_BYTES
  }

  /** At most `n` inodes and `n` sectors are in use. */
  ghost predicate Roomy(s: FsState, n: nat)
  {
    Inv(s) && s.online && (forall j :: n <= j < MAX_INODES ==> s.inodes[j].used == 0) && s.sb.nextFree <= DATA_START + n
  }

  lemma {:induction false} ExecFound(ns: seq<Inode>, path: seq<byte>, i: nat, r: nat)
    requires i <= r < |ns| && ns[r].used != 0 && ns[r].kind == EXEC_FILE && SameName(ns[r].name, path)
    ensures FindExecFrom(ns, path, i) >= 0
    decreases r - i
  {
    if i < r {
      ExecFound(ns, path, i + 1, r);
    }
  }

  /** Filling an unused inode loses no executable. */
  lemma ExecKept(ns: seq<Inode>, c: nat, n: Inode, path: seq<byte>)
    requires c < |ns| && ns[c].used == 0 && FindExecFrom(ns, path, 0) >= 0
    ensures FindExecFrom(ns[c := n], path, 0) >= 0
  {
    ExecFound(ns[c := n], path, 0, FindExecFrom(ns, path, 0));
  }

  lemma SeededKept(ns: seq<Inode>, c: nat, n: Inode, seeds: seq<Seed>)
    requires c < |ns| && ns[c].used == 0 && Seeded(ns, seeds)
    ensures Seeded(ns[c := n], seeds)
  {
    forall k | 0 <= k < |seeds|
      ensures FindExecFrom(ns[c := n], seeds[k].path, 0) >= 0
    {
      ExecKept(ns, c, n, seeds[k].path);
    }
  }

  /** A session write, successful or not, loses no executable. */
  lemma WriteKeepsSeeds(s: FsState, data: seq<byte>, info: Info, outs: nat -> Outcome, seeds: seq<Seed>)
    requires Inv(s) && InfoFits(info) && |data| < TWO_32 && s.sb.nextSession + 1 < TWO_32 && Seeded(s.inodes, seeds)
    ensures Seeded(WriteSession(s, data, info, outs).1.inodes, seeds)
  {
    WriteSessionCases(s, data, info, outs);
    hide WriteSession, Seeded, Tiled, Numbered, SectorAt, Chunk;
    var i := FreeInodeFrom(s.inodes, 0);
    if i >= 0 {
      SeededKept(s.inodes, i, BLANK, seeds);
      SeededKept(s.inodes, i, SessionInode(s.sb, |data|, info), seeds);
    }
  }

  lemma {:induction false} RunKeepsSeeds(s: FsState, jobs: seq<Job>, seeds: seq<Seed>)
    requires Inv(s) && (forall k :: 0 <= k < |jobs| ==> JobFits(jobs[k])) && Seeded(s.inodes, seeds)
    ensures Seeded(RunJobs(s, jobs).inodes, seeds)
    decreases |jobs|
  {
    if |jobs| > 0 {
      var j := jobs[0];
      JobStep(s, j);
      WriteKeepsSeeds(s, j.data, j.info, j.outs, seeds);
      hide Inv, WriteSession, Seeded;
      RunKeepsSeeds(WriteSession(s, j.data, j.info, j.outs).1, jobs[1..], seeds);
    }
  }

  lemma FirstFree(s: FsState, n: nat)
    requires Roomy(s, n) && n < MAX_INODES
    ensures 0 <= FreeInodeFrom(s.inodes, 0) <= n
  {
    NotPast(s.inodes, 0, n);
  }

  lemma {:induction false} NotPast(ns: seq<Inode>, i: nat, n: nat)
    requires i <= n < |ns| && ns[n].used == 0
    ensures 0 <= FreeInodeFrom(ns, i) <= n
    decreases n - i
  {
    if i < n {
      NotPast(ns, i + 1, n);
    }
  }

  lemma SeedOne(s: FsState, seed: Seed, outs: nat -> Outcome, n: nat, done: seq<Seed>)
    requires Roomy(s, n) && n < MAX_INODES && SmallSeed(seed) && AllStored(outs) && Seeded(s.inodes, done)
    ensures var t := SeedExec(s, seed, outs).1; Roomy(t, n + 1) && Seeded(t.inodes, done + [seed])
  {
    var (ok, t) := SeedExec(s, seed, outs);
    SeedOneStored(s, seed, outs, n);
    SeedExecInv(s, seed, outs);
    SeedReadsBack(s, seed, outs, 0);
    FirstFree(s, n);
    var c := FreeInodeFrom(s.inodes, 0);
    hide SeedExec, Inv, FindExecFrom, FreeInodeFrom;
    if t.inodes != s.inodes {
      SeededKept(s.inodes, c, t.inodes[c], done);
    }
  }

  lemma SeedOneStored(s: FsState, seed: Seed, outs: nat -> Outcome, n: nat)
    requires Roomy(s, n) && n < MAX_INODES && SmallSeed(seed) && AllStored(outs)
    ensures var (ok, t) := SeedExec(s, seed, outs);
            var c := FreeInodeFrom(s.inodes, 0);
            ok && t.online && t.sb.nextFree <= s.sb.nextFree + 1 && c >= 0 &&
            (t.inodes == s.inodes || t.inodes == s.inodes[c := t.inodes[c]])
  {
    FirstFree(s, n);
    DataStored(s.disk, s.sb.nextFree, seed.image, outs, 0, SectorsFor(|seed.image|));
    assert SectorsFor(|seed.image|) == 1;
    hide WriteData, SectorsFor, FindExecFrom, FreeInodeFrom, NameField, Tiled, Numbered, TableFits;
  }

  lemma {:induction false} SeedMany(s: FsState, seeds: seq<Seed>, outs: nat -> Outcome, n: nat, done: seq<Seed>)
    requires Roomy(s, n) && n + |seeds| < MAX_INODES && AllStored(outs) && Seeded(s.inodes, done) && SeedsFit(seeds)
    requires forall k :: 0 <= k < |seeds| ==> SmallSeed(seeds[k])
    ensures var t := SeedAll(s, seeds, outs); Roomy(t, n + |seeds|) && Seeded(t.inodes, done + seeds)
    decreases |seeds|
  {
    hide SeedExec, FindExecFrom, Tiled, Numbered, TableFits, SuperFits;
    if |seeds| == 0 {
      assert done + seeds == done;
    } else {
      var s1 := SeedExec(s, seeds[0], outs).1;
      SeedOne(s, seeds[0], outs, n, done);
      SeedFits(s, seeds[0], outs);
      assert AllStored(Later(outs, FS_TOTAL));
      hide Roomy, SmallSeed, AllStored, Seeded;
      SeedMany(s1, seeds[1..], Later(outs, FS_TOTAL), n + 1, done + [seeds[0]]);
      assert done + [seeds[0]] + seeds[1..] == done + seeds;
    }
  }

  lemma FlushedOnDisk(s: FsState, out: Outcome, out': Outcome)
    requires Inv(s) && out.Stored? && out'.Stored?
    ensures var t := FlushSuper(FlushInodes(s, out).1, out').1;
            t == s.(disk := t.disk) && OnDisk(t)
  {
    hide EncodeTable, EncodeSuper, Chunk, Tiled, Numbered;
  }

  lemma BlankDisk()
    ensures LoadDisk(map[]).sb.magic == 0
  {
    hide DecodeTable, ReadRun;
    var z := SectorAt(map[], FS_START);
    assert z[0..4] == Le(0, 4);
    Powers();
    LeRoundTrip(0, 4);
  }

  /** After a blank disk has been formatted: seeding, and both flushes. */
  lemma SettleFresh(s: FsState, seeds: seq<Seed>, outs: nat -> Outcome)
    requires Roomy(s.(online := true), 0) && AllStored(outs) && SmallSeeds(seeds) && SeedsFit(seeds)
    ensures var t := Settle(s, seeds, outs); Roomy(t, |seeds|) && Seeded(t.inodes, seeds) && OnDisk(t)
  {
    hide SeedAll, FindExecFrom, OnDisk, FlushInodes, FlushSuper, Tiled, Numbered, TableFits, SuperFits;
    var s2, later := s.(online := true), Later(outs, 2);
    assert AllStored(later);
    SeedMany(s2, seeds, later, 0, []);
    assert [] + seeds == seeds;
    var s3 := SeedAll(s2, seeds, later);
    FlushedOnDisk(s3, outs(0), outs(1));
  }

  lemma FormatRoomy(outs: nat -> Outcome)
    requires AllStored(outs)
    ensures var (ok, s) := Format(map[], outs(0), outs(1)); ok && LoadDisk(s.disk) == s && Roomy(s.(online := true), 0)
  {
    FormatSucceeds(outs(0), outs(1));
    FormatInv(map[], outs(0), outs(1));
    hide Format, LoadDisk, Tiled, Numbered;
  }

  lemma FreshMount(seeds: seq<Seed>, outs: nat -> Outcome, loads: nat -> bool)
    requires AllStored(outs) && SmallSeeds(seeds) && loads(1)
    ensures SeedsFit(seeds)
    ensures var t := Mount(map[], seeds, outs, loads); Roomy(t, |seeds|) && Seeded(t.inodes, seeds) && OnDisk(t)
  {
    BlankDisk();
    assert SeedsFit(seeds);
    FormatRoomy(outs);
    var (ok, s1) := Format(map[], outs(0), outs(1));
    hide Format, LoadDisk, Settle, Roomy, OnDisk, SeedsFit, SmallSeeds, FindExecFrom;
    assert AllStored(Later(outs, 2));
    SettleFresh(s1, seeds, Later(outs, 2));
  }

  lemma {:induction false} SeedsKeepId(s: FsState, seeds: seq<Seed>, outs: nat -> Outcome)
    requires Fits(s) && SeedsFit(seeds)
    ensures SeedAll(s, seeds, outs).sb.nextSession == s.sb.nextSession
    decreases |seeds|
  {
    if |seeds| > 0 {
      var s1 := SeedExec(s, seeds[0], outs).1;
      SeedFits(s, seeds[0], outs);
      assert s1.sb.nextSession == s.sb.nextSession;
      hide SeedExec;
      SeedsKeepId(s1, seeds[1..], Later(outs, FS_TOTAL));
    }
  }

  /** The first session of a fresh disk is number 1. */
  lemma FirstSession(seeds: seq<Seed>, outs: nat -> Outcome, loads: nat -> bool)
    requires AllStored(outs) && SmallSeeds(seeds) && SeedsFit(seeds)
    ensures Mount(map[], seeds, outs, loads).sb.nextSession == 1
  {
    BlankDisk();
    FormatRoomy(outs);
    var s := Format(map[], outs(0), outs(1)).1;
    assert s.sb.nextSession == 1;
    hide Format, LoadDisk, SeedAll, EncodeTable, EncodeSuper, DeviceWrite, ToSectors, Tiled, Numbered, TableFits, SuperFits;
    SeedsKeepId(s.(online := true), seeds, Later(Later(outs, 2), 2));
  }

  lemma FormatSucceeds(out: Outcome, out': Outcome)
    requires out.Stored? && out'.Stored?
    ensures Format(map[], out, out').0 && !Format(map[], out, out').1.online
    ensures forall j :: 0 <= j < MAX_INODES ==> Format(map[], out, out').1.inodes[j] == BLANK
  {
    hide EncodeTable, EncodeSuper, Chunk;
  }
}
