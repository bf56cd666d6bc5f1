/** Directories: files whose contents are entries (crates/fat32/src/dir.rs, and `dir_info` of vf.rs). */
module Directories {
  import opened LittleEndian
  import opened Options
  import opened Sequences
  import opened BlockCaches
  import opened DirEntries
  import opened FatVolumes
  import opened FatChains
  import opened FatManagers
  import opened FileSystems
  import opened ChainBytes
  import opened VirtFiles
  import opened LongNames
  import opened ShortNames
  import opened DirectoryContents
  import opened DirectoryEntries
  import opened DirectoryRuns
  import opened DirectoryRoom

  /** The entries of the directory, as its handle sees them. */
  ghost function EntriesNow(dir: VirtFile): seq<DirEntry>
    requires dir.Valid()
    reads dir.fs, dir.fs.fat, dir.fs.cache, dir.fs.cache.device, dir.fs.cache.lru, dir.clusterChain
  {
    Entries(dir.fs.geometry, dir.fs.cache.Disk(), dir.clusterChain.clusterVec)
  }

  /** A directory with clusters, whose vector is that of the table. */
  ghost predicate DirOk(dir: VirtFile)
    reads dir.fs, dir.fs.fat, dir.fs.cache, dir.fs.cache.device, dir.fs.cache.lru, dir.clusterChain
  {
    dir.Valid() && dir.Agrees() && dir.isDir && dir.Clusters() == dir.clusterChain.clusterVec != []
  }

  lemma ReadIsEntry(g: Geometry, d: Blocks, cs: seq<nat>, i: nat, before: seq<Byte>, s: seq<Byte>, n: nat)
    requires g.Ok() && InData(g, cs) && |s| == DIRENT_SIZE
    requires n == Available(Capacity(g, cs), i * DIRENT_SIZE, DIRENT_SIZE)
    requires ReadSoFar(g, d, cs, i * DIRENT_SIZE, before, s, n)
    ensures n == DIRENT_SIZE <==> i < EntryRoom(g, cs)
    ensures n != DIRENT_SIZE ==> n == 0
    ensures i < EntryRoom(g, cs) ==> Entries(g, d, cs)[i] == s
  {
    hide ByteAt, Capacity, Entries;
    EntryInRoom(g, cs, i);
    if i < EntryRoom(g, cs) {
      EntryFromBytes(g, d, cs, i, s);
    }
  }

  /** `read_at` into an entry: a whole one, or nothing at the end of the directory. */
  method ReadEntry(dir: VirtFile, i: nat) returns (e: Option<DirEntry>)
    requires dir.Valid()
    modifies dir.fs.cache.Repr()
    ensures dir.Valid() && fresh(dir.fs.cache.Repr() - old(dir.fs.cache.Repr())) && dir.fs.cache.Disk() == old(dir.fs.cache.Disk())
    ensures e == if i < |EntriesNow(dir)| then Some(EntriesNow(dir)[i]) else None
  {
    hide Logical, CacheOk, Fat, BlockCacheManager.Valid, BlockCacheManager.Disk, Capacity, InData, ReadSoFar, Entries, Available, PlaceOk, ByteAt;
    var buf := new Byte[32];
    ghost var before := buf[..];
    var n := dir.ReadAt(i * DIRENT_SIZE, buf);
    ReadIsEntry(dir.fs.geometry, dir.fs.cache.Disk(), dir.clusterChain.clusterVec, i, before, buf[..], n);
    if n != DIRENT_SIZE {
      return None;
    }
    return Some(buf[..]);
  }

  /** `empty_entry_index`, in entries; nothing for a file that is no directory. */
  method EmptyEntryIndex(dir: VirtFile) returns (r: Option<nat>)
    requires dir.Valid()
    modifies dir.fs.cache.Repr()
    ensures dir.Valid() && fresh(dir.fs.cache.Repr() - old(dir.fs.cache.Repr())) && dir.fs.cache.Disk() == old(dir.fs.cache.Disk())
    ensures r.Some? <==> dir.isDir
    ensures r.Some? ==> EmptyIndex(EntriesNow(dir), r.value)
  {
    hide Logical, CacheOk, Fat, BlockCacheManager.Valid, BlockCacheManager.Disk, Capacity, InData, Entries, PlaceOk, IsEmpty;
    if !dir.isDir {
      return None;
    }
    ghost var es := EntriesNow(dir);
    var i: nat := 0;
    while true
      invariant i <= |es|
      invariant dir.Valid() && fresh(dir.fs.cache.Repr() - old(dir.fs.cache.Repr())) && dir.fs.cache.Disk() == old(dir.fs.cache.Disk())
      invariant forall j :: 0 <= j < i ==> !IsEmpty(es[j])
      decreases |es| - i
    {
      var e := ReadEntry(dir, i);
      if e == None || IsEmpty(e.value) {
        return Some(i);
      }
      i := i + 1;
    }
  }

  // ---------------------------------------------------------------- handles

  /** The vector of a handle that was made for an entry. */
  ghost predicate VectorFor(fat: FatTable, e: DirEntry, vec: seq<nat>) {
    if FirstClusterOf(e) == NEW_VIRT_FILE_CLUSTER then vec == [] else Chain(fat, vec) && vec[0] == FirstClusterOf(e)
  }

  /** If the entry has a first cluster, a chain begins there. */
  ghost predicate Chained(fat: FatTable, e: DirEntry) {
    exists vec :: VectorFor(fat, e, vec)
  }

  /** The handle is for entry `at` of the directory and the `n` long entries before it. */
  ghost predicate HandleFor(f: VirtFile, dir: VirtFile, at: nat, n: nat)
    reads dir.fs, dir.fs.fat, dir.fs.cache, dir.fs.cache.device, dir.fs.cache.lru, dir.clusterChain
    reads f.fs, f.fs.fat, f.fs.cache, f.fs.cache.device, f.fs.cache.lru, f.clusterChain
  {
    && dir.Valid() && f.Valid() && f.fs == dir.fs && f.clusterChain != dir.clusterChain
    && n <= at < |EntriesNow(dir)|
    && f.sdePos == Place(dir.fs.geometry, dir.clusterChain.clusterVec, at)
    && |f.ldePos| == n
    && (forall i :: 0 <= i < n ==> f.ldePos[i] == Place(dir.fs.geometry, dir.clusterChain.clusterVec, at - n + i))
    && f.isDir == (EntriesNow(dir)[at][11] == ATTR_DIRECTORY)
    && VectorFor(dir.fs.fat.Table(), EntriesNow(dir)[at], f.clusterChain.clusterVec)
  }

  lemma EntryInBlock(g: Geometry, d: Blocks, cs: seq<nat>, i: nat, block: Block, at: nat)
    requires g.Ok() && InData(g, cs) && i < EntryRoom(g, cs) && at < BLOCK_SIZE
    requires i * DIRENT_SIZE < Capacity(g, cs) && BlockReads(g, d, cs, i * DIRENT_SIZE, block, at)
    requires at == i * DIRENT_SIZE % BLOCK_SIZE
    ensures at + DIRENT_SIZE <= BLOCK_SIZE && block[at..at + DIRENT_SIZE] == Entries(g, d, cs)[i]
  {
    hide ByteAt, Capacity, Entries;
    AlignedInBlock(i);
    var e := block[at..at + DIRENT_SIZE];
    EntryFromBytes(g, d, cs, i, e);
  }

  lemma VectorInData(g: Geometry, d: Blocks, e: DirEntry, vec: seq<nat>)
    requires VectorFor(Fat(g, d), e, vec)
    ensures InData(g, vec)
  {
    hide Fat, FirstClusterOf, Chain;
    if vec != [] {
      ChainInData(g, d, vec, Fat(g, d));
    }
  }

  lemma VectorStart(fat: FatTable, e: DirEntry, vec: seq<nat>)
    requires VectorFor(fat, e, vec)
    ensures FirstClusterOf(e) >= 2 ==> vec != [] && Chain(fat, vec) && [FirstClusterOf(e)] <= vec
    ensures FirstClusterOf(e) < 2 ==> vec == []
  {
    hide FirstClusterOf;
  }

  /** The first cluster of the file whose short entry is entry `at`, read at its place on the disk. */
  method FirstClusterAt(dir: VirtFile, at: nat) returns (cluster: nat)
    requires DirOk(dir) && at < |EntriesNow(dir)|
    modifies dir.fs.cache.Repr()
    ensures DirOk(dir) && fresh(dir.fs.cache.Repr() - old(dir.fs.cache.Repr())) && dir.fs.cache.Disk() == old(dir.fs.cache.Disk())
    ensures cluster == FirstClusterOf(EntriesNow(dir)[at])
  {
    hide Logical, CacheOk, Fat, BlockCacheManager.Valid, Capacity, InData, Entries, PlaceOk, FirstClusterOf, Agree, Owned, BlockReads,
      Chain, Geometry.ClusterSize;
    ghost var g, cs := dir.fs.geometry, dir.clusterChain.clusterVec;
    EntryInRoom(g, cs, at);
    dir.fs.cache.SameBlocks();
    var pos := dir.DirentBlockPos(at * DIRENT_SIZE);
    dir.fs.cache.SameBlocks();
    OffsetInBlock(g, at * DIRENT_SIZE);
    var block := dir.fs.cache.ReadBlock(pos.0);
    EntryInBlock(g, dir.fs.cache.Disk(), cs, at, block, pos.1);
    return FirstClusterOf(block[pos.1..pos.1 + DIRENT_SIZE]);
  }

  /** `generate_cluster_chain`: the first cluster is read from the entry, the others from the table. */
  method GenerateClusterChain(dir: VirtFile, at: nat) returns (chain: ClusterChain)
    requires DirOk(dir) && at < |EntriesNow(dir)| && Chained(dir.fs.fat.Table(), EntriesNow(dir)[at])
    modifies dir.fs.cache.Repr()
    ensures DirOk(dir) && fresh(dir.fs.cache.Repr() - old(dir.fs.cache.Repr())) && dir.fs.cache.Disk() == old(dir.fs.cache.Disk())
    ensures EntriesNow(dir) == old(EntriesNow(dir))
    ensures fresh(chain) && chain.fat == dir.fs.fat && VectorFor(dir.fs.fat.Table(), EntriesNow(dir)[at], chain.clusterVec)
  {
    hide Logical, CacheOk, Fat, BlockCacheManager.Valid, Capacity, InData, Entries, PlaceOk, FirstClusterOf, Agree, Owned,
      VectorFor, Chain, Geometry.ClusterSize;
    ghost var e := EntriesNow(dir)[at];
    ghost var vec :| VectorFor(dir.fs.fat.Table(), e, vec);
    var cluster := FirstClusterAt(dir, at);
    VectorStart(dir.fs.fat.Table(), e, vec);
    chain := new ClusterChain(dir.fs.fat, cluster);
    chain.Generate(vec);
  }

  /** The handle for entry `at` and the `n` long entries before it. */
  method FoundFile(dir: VirtFile, at: nat, n: nat, sde: DirEntry) returns (f: VirtFile)
    requires DirOk(dir) && n <= at < |EntriesNow(dir)| && sde == EntriesNow(dir)[at] && Chained(dir.fs.fat.Table(), sde)
    modifies dir.fs.cache.Repr()
    ensures DirOk(dir) && fresh(dir.fs.cache.Repr() - old(dir.fs.cache.Repr())) && dir.fs.cache.Disk() == old(dir.fs.cache.Disk())
    ensures fresh(f) && fresh(f.clusterChain) && HandleFor(f, dir, at, n)
  {
    hide Logical, CacheOk, Fat, BlockCacheManager.Valid, Capacity, InData, Entries, PlaceOk, FirstClusterOf, Agree, Owned,
      VectorFor, Chain, Geometry.ClusterSize, EntryIn, FileSizeOf, EntryRoom;
    ghost var g, cs := dir.fs.geometry, dir.clusterChain.clusterVec;
    EntryInRoom(g, cs, at);
    var sdePos := dir.DirentClusterPos(at * DIRENT_SIZE);
    var ldePos: seq<DirEntryPos> := [];
    var i := 0;
    while i < n
      invariant 0 <= i <= n && |ldePos| == i
      invariant DirOk(dir) && fresh(dir.fs.cache.Repr() - old(dir.fs.cache.Repr())) && dir.fs.cache.Disk() == old(dir.fs.cache.Disk())
      invariant forall j :: 0 <= j < i ==> ldePos[j] == Place(g, cs, at - n + j)
    {
      EntryInRoom(g, cs, at - n + i);
      var pos := dir.DirentClusterPos((at - n + i) * DIRENT_SIZE);
      ldePos := ldePos + [pos];
      i := i + 1;
    }
    var chain := GenerateClusterChain(dir, at);
    PlaceIsOk(g, cs, at);
    VectorInData(g, dir.fs.cache.Disk(), sde, chain.clusterVec);
    f := new VirtFile(dir.fs, chain, sdePos, ldePos, sde[11] == ATTR_DIRECTORY);
  }

  // ---------------------------------------------------------------- searches

  /** `find_by_sfn`. */
  method FindBySfn(dir: VirtFile, name: seq<Byte>) returns (r: Option<VirtFile>, ghost at: nat)
    requires DirOk(dir)
    requires forall i: nat :: i < |EntriesNow(dir)| && ShortHit(EntriesNow(dir), i, UpperAll(name)) ==>
               Chained(dir.fs.fat.Table(), EntriesNow(dir)[i])
    modifies dir.fs.cache.Repr()
    ensures DirOk(dir) && fresh(dir.fs.cache.Repr() - old(dir.fs.cache.Repr())) && dir.fs.cache.Disk() == old(dir.fs.cache.Disk())
    ensures r == None ==> forall i: nat :: i < |EntriesNow(dir)| ==> !ShortHit(EntriesNow(dir), i, UpperAll(name))
    ensures r.Some? ==>
              && at < |EntriesNow(dir)| && ShortHit(EntriesNow(dir), at, UpperAll(name))
              && (forall i :: 0 <= i < at ==> !ShortHit(EntriesNow(dir), i, UpperAll(name)))
              && fresh(r.value) && fresh(r.value.clusterChain) && HandleFor(r.value, dir, at, 0)
  {
    hide Logical, CacheOk, Fat, BlockCacheManager.Valid, Capacity, InData, Entries, PlaceOk, FirstClusterOf, Agree, Owned,
      HandleFor, Chain, UpperAll, ShownName, Chained;
    ghost var es := EntriesNow(dir);
    var upper := UpperAll(name);
    at := 0;
    var i: nat := 0;
    while true
      invariant i <= |es|
      invariant DirOk(dir) && fresh(dir.fs.cache.Repr() - old(dir.fs.cache.Repr())) && dir.fs.cache.Disk() == old(dir.fs.cache.Disk())
      invariant forall j :: 0 <= j < i ==> !ShortHit(es, j, upper)
      decreases |es| - i
    {
      var sde := ReadEntry(dir, i);
      if sde == None {
        return None, at;
      }
      var shown := GetNameUppercase(sde.value);
      if !IsDeleted(sde.value) && upper == shown {
        assert ShortHit(es, i, upper);
        var f := FoundFile(dir, i, 0, sde.value);
        return Some(f), i;
      }
      i := i + 1;
    }
  }

  /** `order & 0x40` and `order ^ 0x40`, for a byte. */
  predicate MarkedLast(order: Byte) {
    order / LAST_LONG_ENTRY % 2 == 1
  }

  /** Entries `i` up to `i + n` match, and the short entry behind them does. */
  lemma AllPartsMatch(es: seq<DirEntry>, i: nat, cs: seq<seq<Unit>>)
    requires cs != [] && i + |cs| < |es|
    requires forall k :: 0 <= k < |cs| ==> PartAt(es, i, cs, k)
    requires MarkedLast(es[i][0]) && !IsDeleted(es[i]) && es[i][0] - LAST_LONG_ENTRY == |cs|
    requires !IsDeleted(es[i + |cs|]) && es[i + |cs| - 1][13] == CheckSum(es[i + |cs|][..11], 0)
    ensures LongHit(es, i, cs)
  {
    assert PartAt(es, i, cs, 0);
  }

  /** Once the entries do not suffice from `i` on, there is no match from there on. */
  lemma NoneBehind(es: seq<DirEntry>, i: nat, cs: seq<seq<Unit>>)
    requires i + |cs| >= |es|
    ensures forall j: nat :: i <= j < |es| ==> !LongHit(es, j, cs)
  {
  }

  /** The inner loop of `find_by_lfn`: the chunks before the last one.  The entry that was read last is the one
      whose checksum counts. */
  method MatchParts(dir: VirtFile, i: nat, cs: seq<seq<Unit>>, first: DirEntry) returns (r: Option<bool>, lde: DirEntry)
    requires DirOk(dir) && cs != [] && i < |EntriesNow(dir)| && first == EntriesNow(dir)[i] && PartAt(EntriesNow(dir), i, cs, 0)
    modifies dir.fs.cache.Repr()
    ensures DirOk(dir) && fresh(dir.fs.cache.Repr() - old(dir.fs.cache.Repr())) && dir.fs.cache.Disk() == old(dir.fs.cache.Disk())
    ensures r == None ==> i + |cs| >= |EntriesNow(dir)|
    ensures r == Some(true) ==>
              && i + |cs| - 1 < |EntriesNow(dir)| && lde == EntriesNow(dir)[i + |cs| - 1]
              && forall k :: 0 <= k < |cs| ==> PartAt(EntriesNow(dir), i, cs, k)
    ensures r == Some(false) ==> !LongHit(EntriesNow(dir), i, cs)
  {
    hide Logical, CacheOk, Fat, BlockCacheManager.Valid, Capacity, InData, Entries, PlaceOk, FirstClusterOf, Agree, Owned, Chain, NameUtf16;
    ghost var es := EntriesNow(dir);
    lde := first;
    var k: nat := 1;
    while k < |cs|
      invariant 1 <= k <= |cs| && i + k - 1 < |es| && lde == es[i + k - 1]
      invariant DirOk(dir) && fresh(dir.fs.cache.Repr() - old(dir.fs.cache.Repr())) && dir.fs.cache.Disk() == old(dir.fs.cache.Disk())
      invariant forall l :: 0 <= l < k ==> PartAt(es, i, cs, l)
    {
      var e := ReadEntry(dir, i + k);
      if e == None {
        return None, lde;
      }
      lde := e.value;
      if NameUtf16(lde) != cs[|cs| - 1 - k] || lde[11] != ATTR_LONG_NAME {
        assert !PartAt(es, i, cs, k);
        return Some(false), lde;
      }
      k := k + 1;
    }
    return Some(true), lde;
  }

  datatype Trial = OutOfEntries | NoMatch | Match(file: VirtFile)

  /** The rest of a turn of `find_by_lfn`, once the entry of the last chunk was found. */
  method MatchFrom(dir: VirtFile, i: nat, cs: seq<seq<Unit>>, first: DirEntry) returns (r: Trial)
    requires DirOk(dir) && cs != [] && i < |EntriesNow(dir)| && first == EntriesNow(dir)[i] && PartAt(EntriesNow(dir), i, cs, 0)
    requires MarkedLast(first[0]) && !IsDeleted(first) && first[0] - LAST_LONG_ENTRY == |cs|
    requires LongHit(EntriesNow(dir), i, cs) ==> Chained(dir.fs.fat.Table(), EntriesNow(dir)[i + |cs|])
    modifies dir.fs.cache.Repr()
    ensures DirOk(dir) && fresh(dir.fs.cache.Repr() - old(dir.fs.cache.Repr())) && dir.fs.cache.Disk() == old(dir.fs.cache.Disk())
    ensures r.OutOfEntries? ==> i + |cs| >= |EntriesNow(dir)|
    ensures r.NoMatch? ==> !LongHit(EntriesNow(dir), i, cs)
    ensures r.Match? ==>
              && LongHit(EntriesNow(dir), i, cs)
              && fresh(r.file) && fresh(r.file.clusterChain) && HandleFor(r.file, dir, i + |cs|, |cs|)
  {
    hide Logical, CacheOk, Fat, BlockCacheManager.Valid, Capacity, InData, Entries, PlaceOk, FirstClusterOf, Agree, Owned,
      HandleFor, Chain, NameUtf16, Chained, LongHit, CheckSum, PartAt;
    ghost var es := EntriesNow(dir);
    var matched, last := MatchParts(dir, i, cs, first);
    if matched == None {
      return OutOfEntries;
    }
    if !matched.value {
      return NoMatch;
    }
    var checksum := last[13];
    var sde := ReadEntry(dir, i + |cs|);
    if sde == None {
      return OutOfEntries;
    }
    var sum := GenCheckSum(sde.value);
    if IsDeleted(sde.value) || checksum != sum {
      OtherShort(es, i, cs);
      return NoMatch;
    }
    AllPartsMatch(es, i, cs);
    var f := FoundFile(dir, i + |cs|, |cs|, sde.value);
    return Match(f);
  }

  /** `find_by_lfn`. */
  method FindByLfn(dir: VirtFile, name: seq<Byte>) returns (r: Option<VirtFile>, ghost at: nat)
    requires DirOk(dir) && name != []
    requires forall i: nat :: LongHit(EntriesNow(dir), i, Chunks(Units(name))) ==>
               Chained(dir.fs.fat.Table(), EntriesNow(dir)[i + |Chunks(Units(name))|])
    modifies dir.fs.cache.Repr()
    ensures DirOk(dir) && fresh(dir.fs.cache.Repr() - old(dir.fs.cache.Repr())) && dir.fs.cache.Disk() == old(dir.fs.cache.Disk())
    ensures r == None ==> forall i: nat :: i < |EntriesNow(dir)| ==> !LongHit(EntriesNow(dir), i, Chunks(Units(name)))
    ensures r.Some? ==>
              && LongHit(EntriesNow(dir), at, Chunks(Units(name)))
              && (forall i :: 0 <= i < at ==> !LongHit(EntriesNow(dir), i, Chunks(Units(name))))
              && fresh(r.value) && fresh(r.value.clusterChain)
              && HandleFor(r.value, dir, at + |Chunks(Units(name))|, |Chunks(Units(name))|)
  {
    hide Logical, CacheOk, Fat, BlockCacheManager.Valid, Capacity, InData, Entries, PlaceOk, FirstClusterOf, Agree, Owned,
      HandleFor, Chain, NameUtf16, Chained, LongHit, CheckSum, Splits;
    ghost var es := EntriesNow(dir);
    var cs := LongNameSplit(Units(name));
    SplitsUnique(Units(name), cs);
    SomeChunks(Units(name), cs);
    at := 0;
    var i: nat := 0;
    while true
      invariant i <= |es|
      invariant DirOk(dir) && fresh(dir.fs.cache.Repr() - old(dir.fs.cache.Repr())) && dir.fs.cache.Disk() == old(dir.fs.cache.Disk())
      invariant forall j :: 0 <= j < i ==> !LongHit(es, j, cs)
      decreases |es| - i
    {
      var e := ReadEntry(dir, i);
      if e == None {
        return None, at;
      }
      var lde := e.value;
      if lde[11] == ATTR_LONG_NAME && NameUtf16(lde) == cs[|cs| - 1] {
        var order := lde[0];
        if !MarkedLast(order) || order == DIR_ENTRY_UNUSED || order - LAST_LONG_ENTRY != |cs| {
          OtherOrder(es, i, cs);
          i := i + 1;
          continue;
        }
        var trial := MatchFrom(dir, i, cs, lde);
        if trial.OutOfEntries? {
          NoneBehind(es, i, cs);
          return None, at;
        }
        if trial.Match? {
          return Some(trial.file), i;
        }
      } else {
        OtherEntry(es, i, cs);
      }
      i := i + 1;
    }
  }

  lemma SomeChunks(name: seq<Unit>, cs: seq<seq<Unit>>)
    requires name != [] && Splits(name, cs)
    ensures cs != []
  {
  }

  lemma OtherOrder(es: seq<DirEntry>, i: nat, cs: seq<seq<Unit>>)
    requires i < |es| && (!MarkedLast(es[i][0]) || IsDeleted(es[i]) || es[i][0] - LAST_LONG_ENTRY != |cs|)
    ensures !LongHit(es, i, cs)
  {
  }

  lemma OtherEntry(es: seq<DirEntry>, i: nat, cs: seq<seq<Unit>>)
    requires i < |es| && cs != [] && !(es[i][11] == ATTR_LONG_NAME && NameUtf16(es[i]) == cs[|cs| - 1])
    ensures !LongHit(es, i, cs)
  {
  }

  lemma OtherShort(es: seq<DirEntry>, i: nat, cs: seq<seq<Unit>>)
    requires i + |cs| < |es| && cs != []
    requires IsDeleted(es[i + |cs|]) || es[i + |cs| - 1][13] != CheckSum(es[i + |cs|][..11], 0)
    ensures !LongHit(es, i, cs)
  {
  }

  /** `find_by_name`. */
  method FindByName(dir: VirtFile, name: seq<Byte>) returns (r: Option<VirtFile>, ghost at: nat)
    requires DirOk(dir)
    requires forall i: nat :: Hit(EntriesNow(dir), i, name) && i + LongsOf(name) < |EntriesNow(dir)| ==>
               Chained(dir.fs.fat.Table(), EntriesNow(dir)[i + LongsOf(name)])
    modifies dir.fs.cache.Repr()
    ensures DirOk(dir) && fresh(dir.fs.cache.Repr() - old(dir.fs.cache.Repr())) && dir.fs.cache.Disk() == old(dir.fs.cache.Disk())
    ensures r == None ==> Absent(EntriesNow(dir), name)
    ensures r.Some? ==>
              && FirstHit(EntriesNow(dir), at, name) && fresh(r.value) && fresh(r.value.clusterChain)
              && HandleFor(r.value, dir, at + LongsOf(name), LongsOf(name))
  {
    hide Logical, CacheOk, Fat, BlockCacheManager.Valid, Capacity, InData, Entries, PlaceOk, FirstClusterOf, Agree, Owned,
      HandleFor, Chain, Chained, LongHit, ShownName, UpperAll, SplitNameExt;
    ghost var es := EntriesNow(dir);
    var parts := SplitNameExt(name);
    if |parts.0| > 8 || |parts.1| > 3 {
      LongIsLong(name);
      forall i: nat | LongHit(es, i, Chunks(Units(name)))
        ensures i + |Chunks(Units(name))| < |es| && Chained(dir.fs.fat.Table(), es[i + |Chunks(Units(name))|])
      {
        LongHitInside(es, i, Chunks(Units(name)));
        assert Hit(es, i, name);
      }
      r, at := FindByLfn(dir, name);
    } else {
      forall i: nat | i < |es| && ShortHit(es, i, UpperAll(name))
        ensures Chained(dir.fs.fat.Table(), es[i])
      {
        assert Hit(es, i, name);
      }
      r, at := FindBySfn(dir, name);
    }
  }

  lemma LongHitInside(es: seq<DirEntry>, i: nat, cs: seq<seq<Unit>>)
    requires LongHit(es, i, cs)
    ensures i + |cs| < |es|
  {
  }

  // ---------------------------------------------------------------- new entries

  /** What a write of one entry means for the directory and for the volume. */
  lemma EntryWriteKeeps(g: Geometry, v: Volume, chains: Chains, id: nat, start: nat, owned: seq<nat>, at: nat, size: nat, spare: nat,
                        cs: seq<nat>, v': Volume)
    requires g.perCluster > 0 && VolumeOk(v, chains) && id in chains && chains[id] == owned
    requires (at + 1) * DIRENT_SIZE <= size && DirRoom(g, v, start, owned, size, spare)
    requires |cs| == Need(g, owned, (at + 1) * DIRENT_SIZE)
    requires cs == [] ==> v' == v
    requires cs != [] ==> Step(v, chains, Grow(id, |cs|), v', chains[id := owned + cs])
    ensures VolumeOk(v', chains[id := owned + cs]) && Drift(v') == Drift(v)
    ensures DirRoom(g, v', start, owned + cs, size, spare)
  {
    hide VolumeOk, Step, Drift, Need, DirRoom;
    if cs == [] {
      assert owned + cs == owned && chains[id := owned] == chains;
    } else {
      StepKeeps(v, chains, Grow(id, |cs|), v', chains[id := owned + cs]);
      RoomAfterWrite(g, v, chains, id, start, owned, (at + 1) * DIRENT_SIZE, size, spare, cs, v');
    }
  }

  lemma FirstOfDir(g: Geometry, fat: FatTable, e: DirEntry, vec: seq<nat>, isDir: bool, pos: DirEntryPos)
    requires g.perCluster > 0 && Agree(g, fat, e, vec, isDir, pos) && isDir && Owned(e, vec) == vec != []
    ensures FirstClusterOf(e) == vec[0] && FileSizeOf(e) == 0 && Chain(fat, vec) && pos.cluster !in vec
  {
  }

  /** One entry is written; the directory may grow for it. */
  method WriteEntry(dir: VirtFile, at: nat, e: DirEntry, ghost chains: Chains, ghost id: nat, ghost size: nat, ghost spare: nat)
    requires DirOk(dir) && VolumeOk(dir.fs.Vol(), chains) && id in chains && chains[id] == dir.Clusters()
    requires (at + 1) * DIRENT_SIZE <= size < 0x1_0000_0000
    requires DirRoom(dir.fs.geometry, dir.fs.Vol(), FirstClusterOf(dir.Sde()), dir.Clusters(), size, spare)
    modifies dir.fs, dir.fs.fat, dir.clusterChain, dir.fs.cache.Repr()
    ensures DirOk(dir) && fresh(dir.fs.cache.Repr() - old(dir.fs.cache.Repr())) && dir.Rest() == old(dir.Rest()) && dir.Head() == old(dir.Head())
    ensures StoredFrom(old(EntriesNow(dir)), at, [e], EntriesNow(dir))
    ensures old(dir.Clusters()) <= dir.Clusters() && FirstClusterOf(dir.Sde()) == FirstClusterOf(old(dir.Sde()))
    ensures VolumeOk(dir.fs.Vol(), chains[id := dir.Clusters()]) && Drift(dir.fs.Vol()) == Drift(old(dir.fs.Vol()))
    ensures DirRoom(dir.fs.geometry, dir.fs.Vol(), FirstClusterOf(dir.Sde()), dir.Clusters(), size, spare)
    ensures DataKept(dir.fs.geometry, old(dir.fs.cache.Disk()), dir.fs.cache.Disk(), Elements(dir.Clusters()) + dir.Home())
  {
    hide Logical, CacheOk, Fat, BlockCacheManager.Valid, Capacity, InData, Entries, PlaceOk, FirstClusterOf, FileSizeOf, Agree, Owned,
      Chain, VolumeOk, Step, Drift, DirRoom, GrowRoom, DataKept, Elements, RestIn, EntryIn, Need, StoredFrom, ByteAt;
    ghost var g, v, d, e0, owned := dir.fs.geometry, dir.fs.Vol(), dir.fs.cache.Disk(), dir.Sde(), dir.clusterChain.clusterVec;
    FirstOfDir(g, dir.fs.fat.Table(), e0, owned, true, dir.sdePos);
    RoomForWrite(g, v, e0, owned, (at + 1) * DIRENT_SIZE, size, spare);
    ghost var cs;
    var n;
    n, cs := dir.WriteAt(at * DIRENT_SIZE, e, chains, id);
    assert n == DIRENT_SIZE;
    EntryWriteKeeps(g, v, chains, id, FirstClusterOf(e0), owned, at, size, spare, cs, dir.fs.Vol());
    FirstOfDir(g, dir.fs.fat.Table(), dir.Sde(), dir.clusterChain.clusterVec, true, dir.sdePos);
    EntriesWritten(g, d, dir.fs.cache.Disk(), owned, dir.clusterChain.clusterVec, at, e, dir.Home());
    WrittenKeepsData(g, d, dir.fs.cache.Disk(), owned, dir.clusterChain.clusterVec, at * DIRENT_SIZE, e, dir.Home());
  }

  lemma WrittenKeepsData(g: Geometry, d: Blocks, d': Blocks, owned: seq<nat>, vec: seq<nat>, offset: nat, buf: seq<Byte>, home: set<nat>)
    requires g.perCluster > 0 && InData(g, owned) && InData(g, vec) && Written(g, d, d', owned, vec, offset, buf, home)
    ensures DataKept(g, d, d', Elements(vec) + home)
  {
  }

  /** The entries that are made for `name`, as they are stored. */
  ghost function GroupOf(name: seq<Byte>, attr: Byte): seq<DirEntry>
    requires name != [] && EntryCount(|name|) < LAST_LONG_ENTRY
  {
    var x := NewFile(name, attr);
    SplitLengths(Units(name), Chunks(Units(name)));
    Stored(x.chunks, |x.chunks|, x.sum) + [x.short]
  }

  lemma SplitLengths(name: seq<Unit>, cs: seq<seq<Unit>>)
    requires Splits(name, cs)
    ensures forall i :: 0 <= i < |cs| ==> |cs[i]| == LONG_NAME_LEN_CAP
  {
    forall i | 0 <= i < |cs|
      ensures |cs[i]| == LONG_NAME_LEN_CAP
    {
      assert IsChunk(Padded(name), i, cs[i]);
    }
  }

  lemma GroupIsFile(name: seq<Byte>, attr: Byte)
    requires Clean(name) && EntryCount(|name|) < LAST_LONG_ENTRY && attr != ATTR_LONG_NAME
    ensures ItemOk(NewFile(name, attr)) && GroupOf(name, attr) == EntriesOf(NewFile(name, attr))
  {
    hide Stored, NewShort;
    NewFileOk(name, attr);
  }

  /** Entry `i` of the group. */
  lemma GroupAt(name: seq<Byte>, attr: Byte, i: nat)
    requires name != [] && EntryCount(|name|) < LAST_LONG_ENTRY
    ensures var x, n := NewFile(name, attr), |NewFile(name, attr).chunks|;
            && n > 0 && |GroupOf(name, attr)| == n + 1
            && (i == n ==> GroupOf(name, attr)[i] == x.short)
            && (i < n ==> |x.chunks[n - 1 - i]| == LONG_NAME_LEN_CAP
                          && GroupOf(name, attr)[i] == LongEntry(if i == 0 then n + LAST_LONG_ENTRY else n - i, x.chunks[n - 1 - i], x.sum))
  {
    hide Stored, NewShort, LongEntry;
    var x := NewFile(name, attr);
    var n := |x.chunks|;
    SplitLengths(Units(name), Chunks(Units(name)));
    SomeChunks(Units(name), Chunks(Units(name)));
    if i < n {
      StoredAt(x.chunks, n, x.sum, i);
    }
  }

  /** The short entry for `name`; its case byte is the zero that it has anyway. */
  method MakeShort(name: seq<Byte>, attr: Byte) returns (sde: DirEntry)
    ensures sde == NewShort(name, attr)
  {
    hide ShortEntry, Field, Alias, UpperAll;
    var parts := SplitNameExt(name);
    if |parts.0| > 8 || |parts.1| > 3 {
      var short := GenerateShortName(name);
      var fName, fExt := ShortNameFormat(short);
      return ShortEntry(fName, fExt, attr, 0);
    }
    var fName, fExt := ShortNameFormat(name);
    return ShortEntry(fName, fExt, attr, 0);
  }

  /** The chunks that are stored: for a name that fits a short entry the first one. */
  method MakeChunks(name: seq<Byte>) returns (chunks: seq<seq<Unit>>)
    requires name != []
    ensures chunks == if FitsShort(name) then [Chunks(Units(name))[0]] else Chunks(Units(name))
  {
    var cs := LongNameSplit(Units(name));
    SplitsUnique(Units(name), cs);
    SomeChunks(Units(name), cs);
    var parts := SplitNameExt(name);
    if |parts.0| > 8 || |parts.1| > 3 {
      return cs;
    }
    return [cs[0]];
  }

  lemma StoredMore(es: seq<DirEntry>, at: nat, group: seq<DirEntry>, es1: seq<DirEntry>, e: DirEntry, es2: seq<DirEntry>)
    requires StoredFrom(es, at, group, es1) && StoredFrom(es1, at + |group|, [e], es2)
    ensures StoredFrom(es, at, group + [e], es2)
  {
  }

  lemma NothingStored(es: seq<DirEntry>, at: nat)
    requires at <= |es|
    ensures StoredFrom(es, at, [], es)
  {
  }

  /** What the directory is like while its new entries are written. */
  ghost predicate Writing(dir: VirtFile, chains: Chains, id: nat, size: nat, spare: nat)
    reads dir.fs, dir.fs.fat, dir.fs.cache, dir.fs.cache.device, dir.fs.cache.lru, dir.clusterChain
  {
    && DirOk(dir) && VolumeOk(dir.fs.Vol(), chains[id := dir.Clusters()]) && size < 0x1_0000_0000
    && DirRoom(dir.fs.geometry, dir.fs.Vol(), FirstClusterOf(dir.Sde()), dir.Clusters(), size, spare)
  }

  /** What was there before new entries were written. */
  datatype Earlier = Earlier(es: seq<DirEntry>, disk: Blocks, clusters: seq<nat>, rest: (seq<Block>, Option<DirEntry>), head: seq<Byte>,
                             drift: int)

  ghost function Snapshot(dir: VirtFile): Earlier
    requires dir.Valid()
    reads dir.fs, dir.fs.fat, dir.fs.cache, dir.fs.cache.device, dir.fs.cache.lru, dir.clusterChain
  {
    Earlier(EntriesNow(dir), dir.fs.cache.Disk(), dir.Clusters(), dir.Rest(), dir.Head(), Drift(dir.fs.Vol()))
  }

  /** The first `i` entries of the group are written from entry `at` on, and nothing else happened. */
  ghost predicate WrittenUpTo(dir: VirtFile, b: Earlier, chains: Chains, id: nat, size: nat, spare: nat,
                              at: nat, group: seq<DirEntry>, i: nat)
    reads dir.fs, dir.fs.fat, dir.fs.cache, dir.fs.cache.device, dir.fs.cache.lru, dir.clusterChain
  {
    && Writing(dir, chains, id, size, spare) && dir.Rest() == b.rest && dir.Head() == b.head && Drift(dir.fs.Vol()) == b.drift
    && b.clusters <= dir.Clusters() && i <= |group| && StoredFrom(b.es, at, group[..i], EntriesNow(dir))
    && DataKept(dir.fs.geometry, b.disk, dir.fs.cache.Disk(), Elements(dir.Clusters()) + dir.Home())
  }

  lemma StartWriting(dir: VirtFile, chains: Chains, id: nat, size: nat, spare: nat, at: nat, group: seq<DirEntry>)
    requires Writing(dir, chains, id, size, spare) && at <= |EntriesNow(dir)|
    ensures WrittenUpTo(dir, Snapshot(dir), chains, id, size, spare, at, group, 0)
  {
    hide Logical, CacheOk, Fat, BlockCacheManager.Valid, Capacity, InData, Entries, PlaceOk, FirstClusterOf, Agree, Owned, Chain, VolumeOk,
      Drift, DirRoom, DataKept, RestIn, EntryIn, StoredFrom, Elements;
    NothingStored(EntriesNow(dir), at);
    assert group[..0] == [];
    NothingTouchedYet(dir.fs.geometry, dir.fs.cache.Disk(), Elements(dir.Clusters()) + dir.Home());
  }

  lemma WritingIsValid(dir: VirtFile, chains: Chains, id: nat, size: nat, spare: nat)
    requires Writing(dir, chains, id, size, spare)
    ensures dir.Valid()
  {
  }

  lemma NothingTouchedYet(g: Geometry, d: Blocks, cs: set<nat>)
    requires g.perCluster > 0
    ensures DataKept(g, d, d, cs)
  {
  }

  lemma MoreTouched(g: Geometry, d: Blocks, d1: Blocks, d2: Blocks, a: seq<nat>, b: seq<nat>, home: set<nat>)
    requires g.perCluster > 0 && a <= b && DataKept(g, d, d1, Elements(a) + home) && DataKept(g, d1, d2, Elements(b) + home)
    ensures DataKept(g, d, d2, Elements(b) + home)
  {
    assert Elements(a) <= Elements(b);
    DataKeptTwice(g, d, d1, d2, Elements(a) + home, Elements(b) + home);
    assert Elements(a) + home + (Elements(b) + home) == Elements(b) + home;
  }

  /** Entry `i` of the group. */
  method WriteOneMore(dir: VirtFile, e: DirEntry, ghost b: Earlier, ghost chains: Chains, ghost id: nat, ghost size: nat, ghost spare: nat,
                      at: nat, ghost group: seq<DirEntry>, i: nat)
    requires WrittenUpTo(dir, b, chains, id, size, spare, at, group, i)
    requires i < |group| && e == group[i] && (at + |group|) * DIRENT_SIZE <= size
    modifies dir.fs, dir.fs.fat, dir.clusterChain, dir.fs.cache.Repr()
    ensures fresh(dir.fs.cache.Repr() - old(dir.fs.cache.Repr()))
    ensures WrittenUpTo(dir, b, chains, id, size, spare, at, group, i + 1)
  {
    hide Logical, CacheOk, Fat, BlockCacheManager.Valid, Capacity, InData, Entries, PlaceOk, FirstClusterOf, Agree, Owned, Chain, VolumeOk,
      Drift, DirRoom, DataKept, RestIn, EntryIn, StoredFrom, Elements;
    ghost var g, d1, es1, cs1 := dir.fs.geometry, dir.fs.cache.Disk(), EntriesNow(dir), dir.Clusters();
    ghost var now := chains[id := cs1];
    WriteEntry(dir, at + i, e, now, id, size, spare);
    assert now[id := dir.Clusters()] == chains[id := dir.Clusters()];
    StoredMore(b.es, at, group[..i], es1, e, EntriesNow(dir));
    assert group[..i] + [e] == group[..i + 1];
    MoreTouched(g, b.disk, d1, dir.fs.cache.Disk(), cs1, dir.Clusters(), dir.Home());
  }

  /** Long entry `i` in stored order. */
  method MakeLong(chunks: seq<seq<Unit>>, sde: DirEntry, i: nat, ghost name: seq<Byte>, ghost attr: Byte) returns (lde: DirEntry)
    requires name != [] && EntryCount(|name|) < LAST_LONG_ENTRY && i < |chunks| == |NewFile(name, attr).chunks|
    requires chunks == NewFile(name, attr).chunks && sde == NewShort(name, attr)
    ensures i < |GroupOf(name, attr)| && lde == GroupOf(name, attr)[i]
  {
    hide LongEntry, NewShort, CheckSum, GroupOf;
    GroupAt(name, attr, i);
    var n := |chunks|;
    var order := if i == 0 then n - i + LAST_LONG_ENTRY else n - i;
    var sum := GenCheckSum(sde);
    return LongEntry(order, chunks[n - 1 - i], sum);
  }

  /** The long entries and the short one of a new file are written from entry `at` on. */
  method WriteNewFile(dir: VirtFile, name: seq<Byte>, attr: Byte, at: nat,
                      ghost chains: Chains, ghost id: nat, ghost size: nat, ghost spare: nat)
    requires Writing(dir, chains, id, size, spare) && at <= |EntriesNow(dir)|
    requires name != [] && EntryCount(|name|) < LAST_LONG_ENTRY && (at + |GroupOf(name, attr)|) * DIRENT_SIZE <= size
    modifies dir.fs, dir.fs.fat, dir.clusterChain, dir.fs.cache.Repr()
    ensures fresh(dir.fs.cache.Repr() - old(dir.fs.cache.Repr()))
    ensures WrittenUpTo(dir, old(Snapshot(dir)), chains, id, size, spare, at, GroupOf(name, attr), |GroupOf(name, attr)|)
  {
    hide LongEntry, NewShort, CheckSum, GroupOf, FitsShort, WrittenUpTo, Snapshot, DirRoom, VolumeOk, VirtFile.Valid, VirtFile.Agrees,
      VirtFile.Clusters, EntriesNow, Splits, BlockCacheManager.Valid, FileSystem.Valid, Writing, DirOk, Drift, Chunks, EntryCount;
    WritingIsValid(dir, chains, id, size, spare);
    ghost var b, group := Snapshot(dir), GroupOf(name, attr);
    StartWriting(dir, chains, id, size, spare, at, group);
    var sde := MakeShort(name, attr);
    var chunks := MakeChunks(name);
    var n := |chunks|;
    var i: nat := 0;
    GroupAt(name, attr, 0);
    while i < n
      invariant 0 <= i <= n
      invariant fresh(dir.fs.cache.Repr() - old(dir.fs.cache.Repr()))
      invariant WrittenUpTo(dir, b, chains, id, size, spare, at, group, i)
    {
      var lde := MakeLong(chunks, sde, i, name, attr);
      WriteOneMore(dir, lde, b, chains, id, size, spare, at, group, i);
      i := i + 1;
    }
    GroupAt(name, attr, n);
    WriteOneMore(dir, sde, b, chains, id, size, spare, at, group, n);
  }

  // ---------------------------------------------------------------- creating a file

  /** The clusters that the entry names are those of a file of the volume: another one, or the directory itself
      or the one above it. */
  ghost predicate Attached(chains: Chains, e: DirEntry) {
    FirstClusterOf(e) == NEW_VIRT_FILE_CLUSTER
    || exists f :: f in chains && chains[f] != [] && chains[f][0] == FirstClusterOf(e)
  }

  ghost predicate AllAttached(xs: seq<Item>, chains: Chains) {
    forall k :: 0 <= k < |xs| && Live(xs[k]) ==> Attached(chains, xs[k].short)
  }

  /** The directory `id` holds the items `xs`, and the volume the files `chains`. */
  ghost predicate InOrder(dir: VirtFile, xs: seq<Item>, chains: Chains, id: nat)
    reads dir.fs, dir.fs.fat, dir.fs.cache, dir.fs.cache.device, dir.fs.cache.lru, dir.clusterChain
  {
    && DirOk(dir) && VolumeOk(dir.fs.Vol(), chains) && id in chains && chains[id] == dir.Clusters()
    && Holds(EntriesNow(dir), xs) && AllAttached(xs, chains)
  }

  /** The directory can get `size` bytes long, and `spare` more clusters can be had. */
  ghost predicate HasRoom(dir: VirtFile, size: nat, spare: nat)
    reads dir.fs, dir.fs.fat, dir.fs.cache, dir.fs.cache.device, dir.fs.cache.lru, dir.clusterChain
  {
    && dir.Valid() && size < 0x1_0000_0000
    && DirRoom(dir.fs.geometry, dir.fs.Vol(), FirstClusterOf(dir.Sde()), dir.Clusters(), size, spare)
  }

  /** There is always room inside the clusters that a directory has. */
  lemma RoomInside(dir: VirtFile, size: nat)
    requires DirOk(dir) && size <= Capacity(dir.fs.geometry, dir.Clusters()) && size < 0x1_0000_0000
    ensures HasRoom(dir, size, 0)
  {
    hide Logical, CacheOk, Fat, BlockCacheManager.Valid, InData, PlaceOk, FirstClusterOf, Agree, Owned, ClustersFor;
    ClustersForEnough(dir.fs.geometry, size, |dir.Clusters()|);
  }

  lemma AttachedIsChained(v: Volume, chains: Chains, e: DirEntry)
    requires VolumeOk(v, chains) && Attached(chains, e)
    ensures Chained(v.fat, e)
  {
    hide FirstClusterOf, Chain;
    if FirstClusterOf(e) == NEW_VIRT_FILE_CLUSTER {
      assert VectorFor(v.fat, e, []);
    } else {
      var f :| f in chains && chains[f] != [] && chains[f][0] == FirstClusterOf(e);
      assert VectorFor(v.fat, e, chains[f]);
    }
  }

  /** The short entry that a search stops for is that of a file the name is for. */
  lemma HitShort(es: seq<DirEntry>, xs: seq<Item>, i: nat, name: seq<Byte>) returns (k: nat)
    requires Holds(es, xs) && Clean(name) && Hit(es, i, name)
    ensures AllOk(xs) && k < |xs| && Named(xs[k], name) && Live(xs[k]) && i == HitIndex(xs, k, name)
    ensures i + LongsOf(name) < |es| && es[i + LongsOf(name)] == xs[k].short
  {
    hide Holds, Hit, FitsShort, ShownName, UpperAll, CheckSum, EntriesOf, ItemOk, Start;
    k := HitIs(es, xs, i, name);
    ItemAt(es, xs, k);
    EntriesOfAt(xs[k], |xs[k].chunks|);
  }

  lemma HitsChained(es: seq<DirEntry>, xs: seq<Item>, v: Volume, chains: Chains, name: seq<Byte>)
    requires Holds(es, xs) && Clean(name) && AllAttached(xs, chains) && VolumeOk(v, chains)
    ensures forall i: nat :: Hit(es, i, name) && i + LongsOf(name) < |es| ==> Chained(v.fat, es[i + LongsOf(name)])
  {
    hide Holds, Hit, FitsShort, VolumeOk, Attached, Chained, Named, HitIndex, LongsOf;
    forall i: nat | Hit(es, i, name) && i + LongsOf(name) < |es|
      ensures Chained(v.fat, es[i + LongsOf(name)])
    {
      var k := HitShort(es, xs, i, name);
      AttachedIsChained(v, chains, xs[k].short);
    }
  }

  /** The clusters of files that get longer begin where they did. */
  ghost predicate Longer(chains: Chains, chains': Chains) {
    forall f :: f in chains ==> f in chains' && chains[f] <= chains'[f]
  }

  lemma StaysAttached(xs: seq<Item>, chains: Chains, chains': Chains)
    requires AllAttached(xs, chains) && Longer(chains, chains')
    ensures AllAttached(xs, chains')
  {
    hide FirstClusterOf;
    forall k | 0 <= k < |xs| && Live(xs[k])
      ensures Attached(chains', xs[k].short)
    {
      if FirstClusterOf(xs[k].short) != NEW_VIRT_FILE_CLUSTER {
        var f :| f in chains && chains[f] != [] && chains[f][0] == FirstClusterOf(xs[k].short);
        assert f in chains' && chains'[f][0] == chains[f][0];
      }
    }
  }

  lemma NewStaysAttached(xs: seq<Item>, chains: Chains, chains': Chains, name: seq<Byte>, attr: Byte)
    requires AllAttached(xs, chains) && Longer(chains, chains') && Clean(name)
    ensures AllAttached(xs + [NewFile(name, attr)], chains')
  {
    hide FirstClusterOf, NewShort;
    NewShortFields(name, attr);
    StaysAttached(xs, chains, chains');
  }

  lemma GrownIsLonger(chains: Chains, id: nat, cs: seq<nat>)
    requires id in chains ==> chains[id] <= cs
    ensures Longer(chains, chains[id := cs])
  {
  }

  function AttrOf(isDir: bool): Byte {
    if isDir then ATTR_DIRECTORY else ATTR_ARCHIVE
  }

  datatype CreateResult = FileHasExist | CreateFileError | Made(file: VirtFile)

  /** There is a file of that name and of that type. */
  ghost predicate Exists(xs: seq<Item>, name: seq<Byte>, isDir: bool) {
    var r := Lookup(xs, name);
    r.Some? && r.value < |xs| && xs[r.value].File? && isDir == (xs[r.value].short[11] == ATTR_DIRECTORY)
  }

  /** The first search of `create`: is there a file of that name and type? */
  method AlreadyThere(dir: VirtFile, name: seq<Byte>, isDir: bool, ghost xs: seq<Item>, ghost chains: Chains)
    returns (r: bool)
    requires DirOk(dir) && VolumeOk(dir.fs.Vol(), chains)
    requires Holds(EntriesNow(dir), xs) && Clean(name) && AllAttached(xs, chains)
    modifies dir.fs.cache.Repr()
    ensures DirOk(dir) && fresh(dir.fs.cache.Repr() - old(dir.fs.cache.Repr())) && dir.fs.cache.Disk() == old(dir.fs.cache.Disk())
    ensures r <==> Exists(xs, name, isDir)
  {
    hide Logical, CacheOk, Fat, BlockCacheManager.Valid, Capacity, InData, Entries, PlaceOk, FirstClusterOf, Agree, Owned, Chain, VolumeOk,
      Holds, Hit, AllAttached, Chained, Place, VectorFor, Lookup, LongsOf, Absent, FirstHit, HitIndex;
    ghost var es := EntriesNow(dir);
    HitsChained(es, xs, dir.fs.Vol(), chains, name);
    var f, at := FindByName(dir, name);
    if f == None {
      NothingFound(es, xs, name);
      return false;
    }
    ghost var k := FoundItem(es, xs, at, name);
    return f.value.isDir == isDir;
  }

  lemma NothingFound(es: seq<DirEntry>, xs: seq<Item>, name: seq<Byte>)
    requires Holds(es, xs) && Clean(name) && Absent(es, name)
    ensures Lookup(xs, name) == None
  {
    NoHitNoFile(es, xs, name);
  }

  /** The entry that was found is the short one of the file that was looked for. */
  lemma FoundItem(es: seq<DirEntry>, xs: seq<Item>, at: nat, name: seq<Byte>) returns (k: nat)
    requires Holds(es, xs) && Clean(name) && FirstHit(es, at, name)
    ensures AllOk(xs) && k < |xs| && Lookup(xs, name) == Some(k) && Live(xs[k]) && at == HitIndex(xs, k, name)
    ensures at + LongsOf(name) < |es| && es[at + LongsOf(name)] == xs[k].short
    ensures LongsOf(name) == if FitsShort(name) then 0 else |xs[k].chunks|
  {
    hide Holds, Hit, FitsShort, Lookup, LongsOf, Start, EntriesOf, Named;
    k := SearchIsLookup(es, xs, at, name);
    var j := HitShort(es, xs, at, name);
    if j < k {
      HitsInOrder(xs, j, k, name);
    } else if k < j {
      HitsInOrder(xs, k, j, name);
    }
    LongsOfIs(xs, name, k);
  }

  /** The group was stored at the first empty entry. */
  ghost predicate StoredBehind(es: seq<DirEntry>, group: seq<DirEntry>, es': seq<DirEntry>) {
    exists at :: EmptyIndex(es, at) && StoredFrom(es, at, group, es')
  }

  lemma StoredBehindAt(es: seq<DirEntry>, at: nat, group: seq<DirEntry>, es': seq<DirEntry>)
    requires EmptyIndex(es, at) && StoredFrom(es, at, group, es')
    ensures StoredBehind(es, group, es')
  {
  }

  /** The entries of a new file are put behind the others. */
  method StoreFile(dir: VirtFile, name: seq<Byte>, isDir: bool, ghost xs: seq<Item>,
                   ghost chains: Chains, ghost id: nat, ghost size: nat, ghost spare: nat)
    requires Writing(dir, chains, id, size, spare)
    requires Holds(EntriesNow(dir), xs) && Clean(name) && EntryCount(|name|) < LAST_LONG_ENTRY
    requires (|Flat(xs)| + |GroupOf(name, AttrOf(isDir))|) * DIRENT_SIZE <= size
    modifies dir.fs, dir.fs.fat, dir.clusterChain, dir.fs.cache.Repr()
    ensures fresh(dir.fs.cache.Repr() - old(dir.fs.cache.Repr()))
    ensures Writing(dir, chains, id, size, spare) && Drift(dir.fs.Vol()) == Drift(old(dir.fs.Vol()))
    ensures dir.Rest() == old(dir.Rest()) && dir.Head() == old(dir.Head())
    ensures old(dir.Clusters()) <= dir.Clusters()
    ensures Holds(EntriesNow(dir), xs + [NewFile(name, AttrOf(isDir))])
    ensures StoredBehind(old(EntriesNow(dir)), GroupOf(name, AttrOf(isDir)), EntriesNow(dir))
    ensures DataKept(dir.fs.geometry, old(dir.fs.cache.Disk()), dir.fs.cache.Disk(), Elements(dir.Clusters()) + dir.Home())
  {
    hide Logical, CacheOk, Fat, BlockCacheManager.Valid, Capacity, InData, Entries, PlaceOk, FirstClusterOf, Agree, Owned, Chain, VolumeOk,
      Holds, GroupOf, NewFile, DirRoom, Drift, DataKept, RestIn, EmptyIndex, Elements, EntryIn, StoredBehind;
    ghost var es, group := EntriesNow(dir), GroupOf(name, AttrOf(isDir));
    var at := EmptyEntryIndex(dir);
    EmptyIsBehind(es, xs, at.value);
    WriteNewFile(dir, name, AttrOf(isDir), at.value, chains, id, size, spare);
    assert group[..|group|] == group;
    NewFileHeld(es, xs, at.value, name, AttrOf(isDir), EntriesNow(dir));
    StoredBehindAt(es, at.value, group, EntriesNow(dir));
  }

  lemma EmptyIsBehind(es: seq<DirEntry>, xs: seq<Item>, at: nat)
    requires Holds(es, xs) && EmptyIndex(es, at)
    ensures at == |Flat(xs)| <= |es|
  {
    hide EntriesOf, ItemOk;
    FirstEmpty(es, xs);
  }

  lemma NewFileHeld(es: seq<DirEntry>, xs: seq<Item>, at: nat, name: seq<Byte>, attr: Byte, es': seq<DirEntry>)
    requires Holds(es, xs) && EmptyIndex(es, at) && Clean(name) && EntryCount(|name|) < LAST_LONG_ENTRY && attr != ATTR_LONG_NAME
    requires StoredFrom(es, at, GroupOf(name, attr), es')
    ensures Holds(es', xs + [NewFile(name, attr)])
  {
    hide Holds, EmptyIndex, StoredFrom, GroupOf, NewFile, EntriesOf;
    GroupIsFile(name, attr);
    InsertHolds(es, xs, at, NewFile(name, attr), es');
  }

  /** The last search of `create`: is the new file found? */
  method Validate(dir: VirtFile, name: seq<Byte>, ghost xs: seq<Item>, ghost chains: Chains)
    returns (r: CreateResult, ghost at: nat)
    requires DirOk(dir) && VolumeOk(dir.fs.Vol(), chains)
    requires Holds(EntriesNow(dir), xs) && Clean(name) && AllAttached(xs, chains)
    modifies dir.fs.cache.Repr()
    ensures DirOk(dir) && fresh(dir.fs.cache.Repr() - old(dir.fs.cache.Repr())) && dir.fs.cache.Disk() == old(dir.fs.cache.Disk())
    ensures !r.FileHasExist? && (r.CreateFileError? <==> Lookup(xs, name) == None)
    ensures r.Made? ==>
              && FirstHit(EntriesNow(dir), at, name) && fresh(r.file) && fresh(r.file.clusterChain)
              && HandleFor(r.file, dir, at + LongsOf(name), LongsOf(name))
  {
    hide Logical, CacheOk, Fat, BlockCacheManager.Valid, Capacity, InData, Entries, PlaceOk, FirstClusterOf, Agree, Owned, Chain, VolumeOk,
      Holds, HandleFor, FirstHit, Absent, Hit, LongsOf, AllAttached, Chained, Lookup, HitIndex;
    HitsChained(EntriesNow(dir), xs, dir.fs.Vol(), chains, name);
    var f;
    f, at := FindByName(dir, name);
    if f == None {
      NothingFound(EntriesNow(dir), xs, name);
      return CreateFileError, at;
    }
    ghost var k := FoundItem(EntriesNow(dir), xs, at, name);
    return Made(f.value), at;
  }

  /** The new entries are put behind the others, and the file is looked for. */
  method AddFile(dir: VirtFile, name: seq<Byte>, isDir: bool, ghost xs: seq<Item>,
                 ghost chains: Chains, ghost id: nat, ghost size: nat, ghost spare: nat)
    returns (r: CreateResult, ghost at: nat)
    requires Writing(dir, chains, id, size, spare) && id in chains && chains[id] == dir.Clusters()
    requires Holds(EntriesNow(dir), xs) && Clean(name) && EntryCount(|name|) < LAST_LONG_ENTRY && AllAttached(xs, chains)
    requires (|Flat(xs)| + |GroupOf(name, AttrOf(isDir))|) * DIRENT_SIZE <= size
    modifies dir.fs, dir.fs.fat, dir.clusterChain, dir.fs.cache.Repr()
    ensures fresh(dir.fs.cache.Repr() - old(dir.fs.cache.Repr()))
    ensures Writing(dir, chains, id, size, spare) && Drift(dir.fs.Vol()) == Drift(old(dir.fs.Vol()))
    ensures dir.Rest() == old(dir.Rest()) && dir.Head() == old(dir.Head())
    ensures old(dir.Clusters()) <= dir.Clusters()
    ensures DataKept(dir.fs.geometry, old(dir.fs.cache.Disk()), dir.fs.cache.Disk(), Elements(dir.Clusters()) + dir.Home())
    ensures Holds(EntriesNow(dir), xs + [NewFile(name, AttrOf(isDir))]) && !r.FileHasExist?
    ensures AllAttached(xs + [NewFile(name, AttrOf(isDir))], chains[id := dir.Clusters()])
    ensures StoredBehind(old(EntriesNow(dir)), GroupOf(name, AttrOf(isDir)), EntriesNow(dir))
    ensures r.CreateFileError? <==> Lookup(xs + [NewFile(name, AttrOf(isDir))], name) == None
    ensures r.Made? ==>
              && FirstHit(EntriesNow(dir), at, name) && fresh(r.file) && fresh(r.file.clusterChain)
              && HandleFor(r.file, dir, at + LongsOf(name), LongsOf(name))
  {
    hide Logical, CacheOk, Fat, BlockCacheManager.Valid, Capacity, InData, Entries, PlaceOk, FirstClusterOf, Agree, Owned, Chain, VolumeOk,
      Holds, GroupOf, NewFile, DirRoom, Drift, DataKept, RestIn, Elements, EntryIn, HandleFor, FirstHit, Absent, Hit, LongsOf,
      AllAttached, Chained, Lookup, StoredBehind;
    StoreFile(dir, name, isDir, xs, chains, id, size, spare);
    FirstOfDir(dir.fs.geometry, dir.fs.fat.Table(), dir.Sde(), dir.clusterChain.clusterVec, true, dir.sdePos);
    FirstIsData(dir.fs.fat.Table(), dir.clusterChain.clusterVec);
    var own := dir.ReadSde();
    assert FirstClusterOf(own) >= 2;
    GrownIsLonger(chains, id, dir.Clusters());
    NewStaysAttached(xs, chains, chains[id := dir.Clusters()], name, AttrOf(isDir));
    r, at := Validate(dir, name, xs + [NewFile(name, AttrOf(isDir))], chains[id := dir.Clusters()]);
  }

  /** `create` up to its validation; what it does for a directory afterwards is `InitDirectory`. */
  method CreateEntries(dir: VirtFile, name: seq<Byte>, isDir: bool, ghost xs: seq<Item>,
                       ghost chains: Chains, ghost id: nat, ghost size: nat, ghost spare: nat)
    returns (r: CreateResult, ghost at: nat)
    requires Writing(dir, chains, id, size, spare) && id in chains && chains[id] == dir.Clusters()
    requires Holds(EntriesNow(dir), xs) && Clean(name) && EntryCount(|name|) < LAST_LONG_ENTRY && AllAttached(xs, chains)
    requires (|Flat(xs)| + |GroupOf(name, AttrOf(isDir))|) * DIRENT_SIZE <= size
    modifies dir.fs, dir.fs.fat, dir.clusterChain, dir.fs.cache.Repr()
    ensures fresh(dir.fs.cache.Repr() - old(dir.fs.cache.Repr()))
    ensures Writing(dir, chains, id, size, spare) && Drift(dir.fs.Vol()) == Drift(old(dir.fs.Vol()))
    ensures dir.Rest() == old(dir.Rest()) && dir.Head() == old(dir.Head())
    ensures old(dir.Clusters()) <= dir.Clusters()
    ensures DataKept(dir.fs.geometry, old(dir.fs.cache.Disk()), dir.fs.cache.Disk(), Elements(dir.Clusters()) + dir.Home())
    ensures r.FileHasExist? <==> Exists(xs, name, isDir)
    ensures r.FileHasExist? ==>
              dir.fs.cache.Disk() == old(dir.fs.cache.Disk()) && EntriesNow(dir) == old(EntriesNow(dir)) && dir.Clusters() == old(dir.Clusters())
    ensures !r.FileHasExist? ==>
              && Holds(EntriesNow(dir), xs + [NewFile(name, AttrOf(isDir))])
              && StoredBehind(old(EntriesNow(dir)), GroupOf(name, AttrOf(isDir)), EntriesNow(dir))
              && AllAttached(xs + [NewFile(name, AttrOf(isDir))], chains[id := dir.Clusters()])
    ensures r.CreateFileError? <==> !Exists(xs, name, isDir) && Lookup(xs + [NewFile(name, AttrOf(isDir))], name) == None
    ensures r.Made? ==>
              && FirstHit(EntriesNow(dir), at, name) && fresh(r.file) && fresh(r.file.clusterChain)
              && HandleFor(r.file, dir, at + LongsOf(name), LongsOf(name))
  {
    hide Logical, CacheOk, Fat, BlockCacheManager.Valid, Capacity, InData, Entries, PlaceOk, FirstClusterOf, Agree, Owned, Chain, VolumeOk,
      Holds, GroupOf, NewFile, DirRoom, Drift, DataKept, RestIn, Elements, EntryIn, Exists, HandleFor, FirstHit, Absent, Hit, LongsOf,
      AllAttached, Chained, Lookup, StoredBehind;
    at := 0;
    NothingTouchedYet(dir.fs.geometry, dir.fs.cache.Disk(), Elements(dir.Clusters()) + dir.Home());
    assert chains[id := dir.Clusters()] == chains;
    var there := AlreadyThere(dir, name, isDir, xs, chains);
    if there {
      ThereIsNotNone(xs, name, isDir);
      return FileHasExist, at;
    }
    r, at := AddFile(dir, name, isDir, xs, chains, id, size, spare);
  }

  lemma ThereIsNotNone(xs: seq<Item>, name: seq<Byte>, isDir: bool)
    requires Exists(xs, name, isDir)
    ensures Lookup(xs, name).Some?
  {
  }

  lemma FirstIsData(fat: FatTable, cs: seq<nat>)
    requires Chain(fat, cs)
    ensures cs != [] && cs[0] >= 2
  {
  }

  // ---------------------------------------------------------------- creating a directory

  /** The entry of a directory in itself or in a directory below it. */
  function DotEntry(name: seq<Byte>, cluster: nat): DirEntry {
    ShortEntry(Field(SplitNameExt(name).0, 8), Field(SplitNameExt(name).1, 3), ATTR_DIRECTORY, cluster)
  }

  const SELF: seq<Byte> := [DOT]
  const PARENT: seq<Byte> := [DOT, DOT]

  /** What a new directory holds. */
  ghost function DotItems(self: nat, parent: nat): seq<Item> {
    [File([], 0, DotEntry(SELF, self)), File([], 0, DotEntry(PARENT, parent))]
  }

  lemma DotEntryFields(name: seq<Byte>, cluster: nat)
    requires (name == SELF || name == PARENT) && cluster < 0x1_0000_0000
    ensures var e := DotEntry(name, cluster);
            Used(e) && e[11] == ATTR_DIRECTORY && FirstClusterOf(e) == cluster && ShownName(e) == name
  {
    hide WithFirstCluster, FirstClusterOf, ShownName, UpperAll, Field, SplitNameExt, UpToSpace, Kept;
    var (base, ext) := SplitNameExt(name);
    DotsSplit(name);
    EntryFields(Field(base, 8), Field(ext, 3), ATTR_DIRECTORY, cluster);
    ShownWhenFormatted(name, ATTR_DIRECTORY, cluster);
    var e := DotEntry(name, cluster);
    assert e[0] == e[..8][0] == UpperAll(Field(base, 8))[0];
    UpperAllAt(Field(base, 8), 0);
    FieldAt(base, 8);
  }

  lemma DotsSplit(name: seq<Byte>)
    requires name == SELF || name == PARENT
    ensures SplitNameExt(name) == (name, []) && Kept(name) == name && UpperAll(name) == name && FitsShort(name) && SPACE !in name
  {
    assert UpperAll([DOT]) == [DOT];
    assert PARENT[1..] == [DOT];
    assert UpperAll(PARENT) == PARENT;
  }

  /** The entries of a new directory. */
  lemma DotsFlat(self: nat, parent: nat)
    requires self < 0x1_0000_0000 && parent < 0x1_0000_0000
    ensures AllOk(DotItems(self, parent)) && Flat(DotItems(self, parent)) == [DotEntry(SELF, self), DotEntry(PARENT, parent)]
  {
    hide DotEntry, FirstClusterOf, ShownName;
    DotEntryFields(SELF, self);
    DotEntryFields(PARENT, parent);
    var xs := DotItems(self, parent);
    FlatMore([], xs[0]);
    FlatMore([xs[0]], xs[1]);
    assert [] + [xs[0]] == [xs[0]] && [xs[0]] + [xs[1]] == xs;
    assert EntriesOf(xs[0]) == [DotEntry(SELF, self)] && EntriesOf(xs[1]) == [DotEntry(PARENT, parent)];
  }

  /** Two entries in the first two places, and zeros. */
  lemma DotsHeld(es1: seq<DirEntry>, es2: seq<DirEntry>, self: nat, parent: nat)
    requires self < 0x1_0000_0000 && parent < 0x1_0000_0000
    requires StoredFrom([], 1, [DotEntry(PARENT, parent)], es1) && StoredFrom(es1, 0, [DotEntry(SELF, self)], es2)
    ensures Holds(es2, DotItems(self, parent))
  {
    hide DotEntry, DotItems, Flat;
    DotsFlat(self, parent);
  }

  lemma OneCluster(g: Geometry, size: nat)
    requires g.perCluster > 0 && 0 < size <= 64
    ensures Need(g, [], size) == 1 && forall c: nat :: Need(g, [c], size) == 0
  {
    assert g.ClusterSize() >= BLOCK_SIZE by { MulMonotone(1, g.perCluster, BLOCK_SIZE); }
    ClustersForEnough(g, size, 1);
    ClustersForEnough(g, size, 0);
  }

  /** A file without clusters. */
  ghost predicate Bare(f: VirtFile)
    reads f.fs, f.fs.fat, f.fs.cache, f.fs.cache.device, f.fs.cache.lru, f.clusterChain
  {
    f.Valid() && f.Agrees() && f.isDir && FirstClusterOf(f.Sde()) == NEW_VIRT_FILE_CLUSTER
  }

  lemma BareOwned(g: Geometry, fat: FatTable, e: DirEntry, vec: seq<nat>, isDir: bool, pos: DirEntryPos)
    requires g.perCluster > 0 && Agree(g, fat, e, vec, isDir, pos) && FirstClusterOf(e) == NEW_VIRT_FILE_CLUSTER
    ensures Owned(e, vec) == [] && FileSizeOf(e) == 0
  {
  }

  /** The entry for the parent, which gives the new directory its cluster. */
  method WriteParent(f: VirtFile, parent: nat, ghost chains: Chains, ghost fid: nat)
    requires Bare(f) && VolumeOk(f.fs.Vol(), chains) && fid !in chains && parent < 0x1_0000_0000
    requires GrowRoom(f.fs.geometry, f.fs.Vol(), f.Sde(), [], 2 * DIRENT_SIZE)
    modifies f.fs, f.fs.fat, f.clusterChain, f.fs.cache.Repr()
    ensures DirOk(f) && fresh(f.fs.cache.Repr() - old(f.fs.cache.Repr())) && f.Rest() == old(f.Rest()) && f.Head() == old(f.Head())
    ensures |f.Clusters()| == 1 && old(f.fs.fat.Table()).Keys == f.fs.fat.Table().Keys
    ensures StoredFrom([], 1, [DotEntry(PARENT, parent)], EntriesNow(f))
    ensures VolumeOk(f.fs.Vol(), chains[fid := f.Clusters()]) && Drift(f.fs.Vol()) == Drift(old(f.fs.Vol()))
    ensures FatChains.Step(old(f.fs.Vol()), chains, Grow(fid, 1), f.fs.Vol(), chains[fid := f.Clusters()])
    ensures DataKept(f.fs.geometry, old(f.fs.cache.Disk()), f.fs.cache.Disk(), Elements(f.Clusters()) + f.Home())
  {
    hide Logical, CacheOk, Fat, BlockCacheManager.Valid, Capacity, InData, Entries, PlaceOk, FirstClusterOf, FileSizeOf, Agree, Owned,
      Chain, VolumeOk, FatChains.Step, Drift, GrowRoom, DataKept, Elements, RestIn, EntryIn, Need, StoredFrom, ByteAt, Field, Written,
      ShortEntry, SplitNameExt;
    ghost var g, v, d, e0 := f.fs.geometry, f.fs.Vol(), f.fs.cache.Disk(), f.Sde();
    BareOwned(g, v.fat, e0, f.clusterChain.clusterVec, true, f.sdePos);
    OneCluster(g, 2 * DIRENT_SIZE);
    NoEntries(g, d);
    var fName, fExt := ShortNameFormat(PARENT);
    var parentSde := ShortEntry(fName, fExt, ATTR_DIRECTORY, parent);
    var n;
    ghost var cs;
    n, cs := f.WriteAt(DIRENT_SIZE, parentSde, chains, fid);
    assert [] + cs == cs;
    StepKeeps(v, chains, Grow(fid, 1), f.fs.Vol(), chains[fid := cs]);
    EntriesWritten(g, d, f.fs.cache.Disk(), [], f.clusterChain.clusterVec, 1, parentSde, f.Home());
    WrittenKeepsData(g, d, f.fs.cache.Disk(), [], f.clusterChain.clusterVec, DIRENT_SIZE, parentSde, f.Home());
    TableKeys(g, d);
    TableKeys(g, f.fs.cache.Disk());
  }

  lemma FirstOfOne(g: Geometry, fat: FatTable, e: DirEntry, vec: seq<nat>, isDir: bool, pos: DirEntryPos)
    requires g.perCluster > 0 && Agree(g, fat, e, vec, isDir, pos) && isDir && Owned(e, vec) == vec && |vec| == 1
    ensures FirstClusterOf(e) == vec[0] && vec == [vec[0]] && FileSizeOf(e) == 0
  {
  }

  /** The entry of the new directory for itself. */
  method WriteSelf(f: VirtFile, ghost parent: nat, ghost chains: Chains, ghost fid: nat)
    requires DirOk(f) && |f.Clusters()| == 1 && VolumeOk(f.fs.Vol(), chains) && fid in chains && chains[fid] == f.Clusters()
    requires parent < 0x1_0000_0000 && StoredFrom([], 1, [DotEntry(PARENT, parent)], EntriesNow(f))
    modifies f.fs, f.fs.fat, f.clusterChain, f.fs.cache.Repr()
    ensures DirOk(f) && fresh(f.fs.cache.Repr() - old(f.fs.cache.Repr())) && f.Rest() == old(f.Rest()) && f.Head() == old(f.Head())
    ensures f.Clusters() == old(f.Clusters()) && f.fs.Vol() == old(f.fs.Vol()) && FirstClusterOf(f.Sde()) == f.Clusters()[0]
    ensures Holds(EntriesNow(f), DotItems(f.Clusters()[0], parent))
    ensures DataKept(f.fs.geometry, old(f.fs.cache.Disk()), f.fs.cache.Disk(), Elements(f.Clusters()) + f.Home())
  {
    hide Logical, CacheOk, Fat, BlockCacheManager.Valid, Capacity, InData, Entries, PlaceOk, FirstClusterOf, FileSizeOf, Agree, Owned,
      Chain, VolumeOk, FatChains.Step, DataKept, Elements, RestIn, EntryIn, Need, StoredFrom, ByteAt, Field, Written,
      ShortEntry, SplitNameExt, Holds, DotItems;
    ghost var g, d, e0, vec, es1 := f.fs.geometry, f.fs.cache.Disk(), f.Sde(), f.clusterChain.clusterVec, EntriesNow(f);
    FirstOfOne(g, f.fs.fat.Table(), e0, vec, true, f.sdePos);
    EntryBounds(e0);
    OneCluster(g, DIRENT_SIZE);
    var fName, fExt := ShortNameFormat(SELF);
    var mine := f.ReadSde();
    var selfSde := ShortEntry(fName, fExt, ATTR_DIRECTORY, FirstClusterOf(mine));
    var n;
    ghost var cs;
    n, cs := f.WriteAt(0, selfSde, chains, fid);
    assert cs == [] && vec + cs == vec;
    FirstOfOne(g, f.fs.fat.Table(), f.Sde(), vec, true, f.sdePos);
    EntriesWritten(g, d, f.fs.cache.Disk(), vec, vec, 0, selfSde, f.Home());
    WrittenKeepsData(g, d, f.fs.cache.Disk(), vec, vec, 0, selfSde, f.Home());
    DotsHeld(es1, EntriesNow(f), vec[0], parent);
  }

  /** `create` for a directory: its first cluster, with the entries for its parent and for itself. */
  method InitDirectory(f: VirtFile, parent: nat, ghost chains: Chains, ghost fid: nat)
    requires Bare(f) && VolumeOk(f.fs.Vol(), chains) && fid !in chains && parent < 0x1_0000_0000
    requires GrowRoom(f.fs.geometry, f.fs.Vol(), f.Sde(), [], 2 * DIRENT_SIZE)
    modifies f.fs, f.fs.fat, f.clusterChain, f.fs.cache.Repr()
    ensures DirOk(f) && fresh(f.fs.cache.Repr() - old(f.fs.cache.Repr())) && f.Rest() == old(f.Rest()) && f.Head() == old(f.Head())
    ensures |f.Clusters()| == 1 && FirstClusterOf(f.Sde()) == f.Clusters()[0]
    ensures Holds(EntriesNow(f), DotItems(f.Clusters()[0], parent))
    ensures VolumeOk(f.fs.Vol(), chains[fid := f.Clusters()]) && Drift(f.fs.Vol()) == Drift(old(f.fs.Vol()))
    ensures FatChains.Step(old(f.fs.Vol()), chains, Grow(fid, 1), f.fs.Vol(), chains[fid := f.Clusters()])
    ensures DataKept(f.fs.geometry, old(f.fs.cache.Disk()), f.fs.cache.Disk(), Elements(f.Clusters()) + f.Home())
  {
    hide Logical, CacheOk, Fat, BlockCacheManager.Valid, Capacity, InData, Entries, PlaceOk, FirstClusterOf, FileSizeOf, Agree, Owned,
      Chain, VolumeOk, FatChains.Step, Drift, GrowRoom, DataKept, Elements, RestIn, EntryIn, StoredFrom, DotEntry, Holds, DotItems;
    ghost var g, d := f.fs.geometry, f.fs.cache.Disk();
    WriteParent(f, parent, chains, fid);
    ghost var d1, cs := f.fs.cache.Disk(), f.Clusters();
    WriteSelf(f, parent, chains[fid := cs], fid);
    MoreTouched(g, d, d1, f.fs.cache.Disk(), cs, cs, f.Home());
  }

  /** A directory through the growth of a file in it that had no clusters. */
  lemma DirStands(g: Geometry, v: Volume, chains: Chains, id: nat, fid: nat, cs: seq<nat>, v': Volume,
                  e: DirEntry, vec: seq<nat>, pos: DirEntryPos, d: Blocks, d': Blocks, home: nat)
    requires g.Ok() && VolumeOk(v, chains) && id in chains && chains[id] == vec && fid !in chains
    requires FatChains.Step(v, chains, Grow(fid, 1), v', chains[fid := cs]) && |cs| == 1
    requires PlaceOk(g, pos) && Agree(g, v.fat, e, vec, true, pos) && Owned(e, vec) == vec != [] && home in vec
    requires DataKept(g, d, d', Elements(cs) + {home})
    ensures Agree(g, v'.fat, e, vec, true, pos) && Elements(vec) !! Elements(cs)
    ensures pos.cluster != ROOT_DIR_ENTRY_CLUSTER ==>
              EntryIn(g, d', pos) == EntryIn(g, d, pos) && RestIn(g, d', pos) == RestIn(g, d, pos)
  {
    hide DataKept, EntryIn, RestIn, ClustersFor, FirstClusterOf, FileSizeOf;
    var cs1, fat1 :| |cs1| == 1 && Allocated(v.fat, v.recycled, cs1, fat1, v'.recycled) && v'.fat == fat1
                     && chains[fid := cs] == chains[fid := cs1];
    assert cs == cs1 by { assert chains[fid := cs][fid] == cs; }
    AllocatedKeepsChains(v, chains, cs, fat1, v'.recycled);
    if pos.cluster != ROOT_DIR_ENTRY_CLUSTER {
      assert pos.cluster !in cs && pos.cluster !in vec;
      EntryKept(g, d, d', Elements(cs) + {home}, pos);
    }
  }

  /** A file with an entry in the directory and no clusters agrees with its entry. */
  lemma NewHandleAgrees(g: Geometry, fat: FatTable, e: DirEntry, pos: DirEntryPos, dirVec: seq<nat>)
    requires g.perCluster > 0 && FirstClusterOf(e) == NEW_VIRT_FILE_CLUSTER && FileSizeOf(e) == 0
    requires Chain(fat, dirVec) && pos.cluster in dirVec
    ensures Agree(g, fat, e, [], true, pos)
  {
    hide FirstClusterOf, FileSizeOf;
    ChainNonZero(fat, dirVec);
  }

  lemma AgreeChain(g: Geometry, fat: FatTable, e: DirEntry, vec: seq<nat>, isDir: bool, pos: DirEntryPos)
    requires g.perCluster > 0 && Agree(g, fat, e, vec, isDir, pos) && Owned(e, vec) == vec != []
    ensures Chain(fat, vec)
  {
  }

  /** The handle of a new directory. */
  lemma NewDirIsBare(dir: VirtFile, f: VirtFile, at: nat, n: nat)
    requires DirOk(dir) && HandleFor(f, dir, at, n) && f.isDir
    requires FirstClusterOf(EntriesNow(dir)[at]) == NEW_VIRT_FILE_CLUSTER && FileSizeOf(EntriesNow(dir)[at]) == 0
    ensures Bare(f) && f.Sde() == EntriesNow(dir)[at] && f.sdePos.cluster in dir.clusterChain.clusterVec
    ensures f.sdePos.cluster != ROOT_DIR_ENTRY_CLUSTER && f.clusterChain.clusterVec == []
  {
    hide Logical, CacheOk, Fat, BlockCacheManager.Valid, Capacity, InData, PlaceOk, FirstClusterOf, FileSizeOf, Agree, Owned, Chain,
      EntryIn, Place, SdePos;
    var g, vec := dir.fs.geometry, dir.clusterChain.clusterVec;
    AgreeChain(g, dir.fs.fat.Table(), dir.Sde(), vec, true, dir.sdePos);
    PlaceIsOk(g, vec, at);
    NewHandleAgrees(g, dir.fs.fat.Table(), EntriesNow(dir)[at], f.sdePos, vec);
  }

  /** A new directory: one cluster, and the entries for itself and for its parent. */
  ghost predicate NewDirectory(f: VirtFile, parent: nat)
    reads f.fs, f.fs.fat, f.fs.cache, f.fs.cache.device, f.fs.cache.lru, f.clusterChain
  {
    && DirOk(f) && |f.Clusters()| == 1 && FirstClusterOf(f.Sde()) == f.Clusters()[0]
    && Holds(EntriesNow(f), DotItems(f.Clusters()[0], parent))
  }

  /** `f` is a new directory below `dir`. */
  ghost predicate DirectoryIn(dir: VirtFile, f: VirtFile, chains: Chains, id: nat, fid: nat)
    reads dir.fs, dir.fs.fat, dir.fs.cache, dir.fs.cache.device, dir.fs.cache.lru, dir.clusterChain
    reads f.fs, f.fs.fat, f.fs.cache, f.fs.cache.device, f.fs.cache.lru, f.clusterChain
  {
    DirOk(dir) && NewDirectory(f, FirstClusterOf(dir.Sde())) && TheirChains(dir.fs, chains, id, dir.Clusters(), fid, f.Clusters())
  }

  ghost predicate TheirChains(fs: FileSystem, chains: Chains, id: nat, cs: seq<nat>, fid: nat, cs': seq<nat>)
    reads fs, fs.fat, fs.cache, fs.cache.device, fs.cache.lru
  {
    fs.Valid() && VolumeOk(fs.Vol(), chains[id := cs][fid := cs'])
  }

  /** Of the entries `es` of `dir` only entry `at`, that of `f`, is another one, and has the name it had. */
  ghost predicate FillsDirectory(dir: VirtFile, f: VirtFile, es: seq<DirEntry>, at: nat, clusters: seq<nat>, sde: DirEntry)
    reads dir.fs, dir.fs.fat, dir.fs.cache, dir.fs.cache.device, dir.fs.cache.lru, dir.clusterChain
    reads f.fs, f.fs.fat, f.fs.cache, f.fs.cache.device, f.fs.cache.lru, f.clusterChain
  {
    && dir.Valid() && f.Valid() && dir.Clusters() == clusters && dir.Sde() == sde
    && at < |es| && f.Head() == es[at][..20] && EntriesNow(dir) == es[at := f.Sde()]
  }

  /** The part of `create` that makes a directory of the new file, seen from the directory it is in. */
  method MakeDirectory(dir: VirtFile, f: VirtFile, ghost at: nat, ghost n: nat,
                       ghost chains: Chains, ghost id: nat, ghost fid: nat, ghost size: nat, ghost spare: nat)
    requires Writing(dir, chains, id, size, spare) && spare > 0 && fid !in chains && fid != id
    requires HandleFor(f, dir, at, n) && f.isDir
    requires FirstClusterOf(EntriesNow(dir)[at]) == NEW_VIRT_FILE_CLUSTER && FileSizeOf(EntriesNow(dir)[at]) == 0
    modifies dir.fs, dir.fs.fat, f.clusterChain, dir.fs.cache.Repr()
    ensures fresh(dir.fs.cache.Repr() - old(dir.fs.cache.Repr()))
    ensures DirectoryIn(dir, f, chains, id, fid) && FillsDirectory(dir, f, old(EntriesNow(dir)), at, old(dir.Clusters()), old(dir.Sde()))
    ensures HasRoom(dir, size, spare - 1)
    ensures dir.Rest() == old(dir.Rest()) && Drift(dir.fs.Vol()) == Drift(old(dir.fs.Vol()))
    ensures DataKept(dir.fs.geometry, old(dir.fs.cache.Disk()), dir.fs.cache.Disk(), Elements(f.Clusters()) + f.Home())
    ensures f.Home() <= Elements(dir.Clusters())
  {
    hide Logical, CacheOk, Fat, BlockCacheManager.Valid, Capacity, InData, Entries, PlaceOk, FirstClusterOf, FileSizeOf, Agree, Owned,
      Chain, VolumeOk, FatChains.Step, Drift, DirRoom, DataKept, Elements, RestIn, EntryIn, Holds, DotItems, Place, VectorFor, GrowRoom;
    ghost var g, v, d, vec, e0 := dir.fs.geometry, dir.fs.Vol(), dir.fs.cache.Disk(), dir.clusterChain.clusterVec, dir.Sde();
    ghost var all := chains[id := vec];
    NewDirIsBare(dir, f, at, n);
    RoomForTwo(g, v, FirstClusterOf(e0), vec, size, spare, f.Sde());
    var own := dir.ReadSde();
    EntryBounds(own);
    InitDirectory(f, FirstClusterOf(own), all, fid);
    ghost var cs, d' := f.Clusters(), f.fs.cache.Disk();
    DirStands(g, v, all, id, fid, cs, dir.fs.Vol(), e0, vec, dir.sdePos, d, d', f.sdePos.cluster);
    RoomAfterOther(g, v, all, FirstClusterOf(e0), vec, size, spare, fid, cs, dir.fs.Vol());
    PlaceIsOk(g, vec, at);
    OwnEntryChanged(g, d, d', Elements(cs), vec, at);
    HomesInside([], f.Home(), vec, f.sdePos);
  }

  lemma RoomForTwo(g: Geometry, v: Volume, start: nat, owned: seq<nat>, size: nat, spare: nat, e: DirEntry)
    requires g.perCluster > 0 && DirRoom(g, v, start, owned, size, spare) && spare > 0 && FirstClusterOf(e) == 0
    ensures GrowRoom(g, v, e, [], 2 * DIRENT_SIZE)
  {
    hide DirRoom, GrowRoom, FirstClusterOf;
    assert 2 * DIRENT_SIZE <= g.ClusterSize() by { MulMonotone(1, g.perCluster, BLOCK_SIZE); }
    RoomForFirst(g, v, start, owned, size, spare, e, 2 * DIRENT_SIZE);
  }

  lemma LastTouched(es: seq<DirEntry>, xs: seq<Item>, x: Item, e: DirEntry)
    requires Holds(es, xs + [x]) && Live(x) && e[..20] == x.short[..20]
    ensures var p := Start(xs + [x], |xs|) + |x.chunks|;
            p < |es| && Holds(es[p := e], xs + [x.(short := e)])
  {
    hide Holds, Start;
    TouchHolds(es, xs + [x], |xs|, e);
    assert (xs + [x])[..|xs|] + [x.(short := e)] + (xs + [x])[|xs| + 1..] == xs + [x.(short := e)];
  }

  /** The file that was created is the last one, and its short entry is the one that was found. */
  lemma CreatedIsLast(es: seq<DirEntry>, xs: seq<Item>, name: seq<Byte>, attr: Byte, at: nat)
    requires Clean(name) && attr != ATTR_LONG_NAME && Lookup(xs, name) == None
    requires Holds(es, xs + [NewFile(name, attr)]) && FirstHit(es, at, name)
    ensures var p := at + LongsOf(name);
            && p < |es| && es[p] == NewShort(name, attr) && es[p][11] == attr
            && FirstClusterOf(es[p]) == NEW_VIRT_FILE_CLUSTER && FileSizeOf(es[p]) == 0
            && forall e: DirEntry :: e[..20] == es[p][..20] ==> Holds(es[p := e], xs + [NewFileWith(name, attr, e)])
  {
    hide Holds, FirstHit, Lookup, FirstClusterOf, FileSizeOf, NewShort, LongsOf, FitsShort, CheckSum, Chunks, Start;
    var x := NewFile(name, attr);
    var k := FoundItem(es, xs + [x], at, name);
    LookupMore(xs, x, name);
    NewShortFields(name, attr);
    var p := at + LongsOf(name);
    forall e: DirEntry | e[..20] == es[p][..20]
      ensures Holds(es[p := e], xs + [NewFileWith(name, attr, e)])
    {
      LastTouched(es, xs, x, e);
    }
  }

  /** The new entries are a creation, as the runs of a directory know it. */
  lemma CreationStep(es: seq<DirEntry>, xs: seq<Item>, name: seq<Byte>, attr: Byte, es': seq<DirEntry>)
    requires Holds(es, xs) && Valid(name) && attr != ATTR_LONG_NAME && Lookup(xs, name) == None
    requires StoredBehind(es, GroupOf(name, attr), es')
    ensures EntriesStep(es, DirectoryRuns.Event.Create(name, attr), es')
  {
    hide Holds, Lookup, GroupOf, NewFile, Hit, EmptyIndex, StoredFrom, EntriesOf;
    GroupIsFile(name, attr);
    NoFileNoHit(es, xs, name);
  }

  /** A change of the first cluster or the size is one, too. */
  lemma ChangeIsTouch(es: seq<DirEntry>, at: nat, e: DirEntry)
    requires at < |es| && Used(es[at]) && e[..20] == es[at][..20]
    ensures EntriesStep(es, DirectoryRuns.Event.Touch(at, e), es[at := e])
  {
    assert e[0] == e[..20][0] && e[11] == e[..20][11];
  }

  /** Whatever a file does to its own entry, with its name and attributes kept, and to data outside the directory:
      in the directory it is in it is such a change. */
  lemma FileChangeIsTouch(g: Geometry, d: Blocks, d': Blocks, touched: set<nat>, cs: seq<nat>, at: nat)
    requires g.Ok() && InData(g, cs) && at < EntryRoom(g, cs) && Elements(cs) !! touched && Used(Entries(g, d, cs)[at])
    requires PlaceOk(g, Place(g, cs, at)) && Place(g, cs, at).cluster != ROOT_DIR_ENTRY_CLUSTER
    requires DataKept(g, d, d', touched + {Place(g, cs, at).cluster})
    requires RestIn(g, d', Place(g, cs, at)) == RestIn(g, d, Place(g, cs, at))
    requires EntryIn(g, d', Place(g, cs, at))[..20] == EntryIn(g, d, Place(g, cs, at))[..20]
    ensures EntriesStep(Entries(g, d, cs), DirectoryRuns.Event.Touch(at, EntryIn(g, d', Place(g, cs, at))), Entries(g, d', cs))
  {
    hide DataKept, EntryIn, Place, InData, RestIn, EntryRoom, EntriesStep, Used, PlaceOk, Entries;
    EntryHere(g, d, cs, at);
    OwnEntryChanged(g, d, d', touched, cs, at);
    ChangeIsTouch(Entries(g, d, cs), at, EntryIn(g, d', Place(g, cs, at)));
  }

  /** A file was created with the entry of a directory, which was then given a cluster. */
  ghost predicate CreatedAndFilled(es: seq<DirEntry>, name: seq<Byte>, at: nat, e: DirEntry, es': seq<DirEntry>) {
    exists es1 ::
      && EntriesStep(es, DirectoryRuns.Event.Create(name, ATTR_DIRECTORY), es1)
      && EntriesStep(es1, DirectoryRuns.Event.Touch(at, e), es')
  }

  lemma CreatedThenFilled(es0: seq<DirEntry>, xs: seq<Item>, name: seq<Byte>, es: seq<DirEntry>, at: nat, e: DirEntry)
    requires Holds(es0, xs) && Valid(name) && Lookup(xs, name) == None && StoredBehind(es0, GroupOf(name, ATTR_DIRECTORY), es)
    requires at < |es| && es[at] == NewShort(name, ATTR_DIRECTORY) && e[..20] == es[at][..20]
    ensures CreatedAndFilled(es0, name, at, e, es[at := e])
  {
    hide Holds, Lookup, GroupOf, NewShort, StoredBehind, EntriesStep, FirstClusterOf, FileSizeOf, ShownName, FitsShort, Kept;
    CreationStep(es0, xs, name, ATTR_DIRECTORY, es);
    NewShortFields(name, ATTR_DIRECTORY);
    ChangeIsTouch(es, at, e);
  }

  /** The last file is the new one, with the entry `e`. */
  ghost predicate LastIs(es: seq<DirEntry>, xs: seq<Item>, name: seq<Byte>, e: DirEntry)
    requires name != []
  {
    e[..20] == NewShort(name, ATTR_DIRECTORY)[..20] && Holds(es, xs + [NewFileWith(name, ATTR_DIRECTORY, e)])
  }

  /** The files of the volume after directory `id` got longer and directory `fid` was made in it. */
  ghost function WithBoth(chains: Chains, id: nat, cs: seq<nat>, fid: nat, cs': seq<nat>): Chains {
    chains[id := cs][fid := cs']
  }

  /** The new directory is attached in the one it is in, and so are the directories that it names. */
  lemma BothAttached(xs: seq<Item>, name: seq<Byte>, chains: Chains, id: nat, cs: seq<nat>, fid: nat, cs': seq<nat>, e: DirEntry)
    requires Clean(name) && AllAttached(xs + [NewFile(name, ATTR_DIRECTORY)], chains[id := cs]) && fid !in chains && fid != id
    requires cs != [] && cs' != [] && FirstClusterOf(e) == cs'[0]
    requires 0 < cs[0] < 0x1_0000_0000 && 0 < cs'[0] < 0x1_0000_0000
    ensures AllAttached(xs + [NewFileWith(name, ATTR_DIRECTORY, e)], WithBoth(chains, id, cs, fid, cs'))
    ensures AllAttached(DotItems(cs'[0], cs[0]), WithBoth(chains, id, cs, fid, cs'))
  {
    hide FirstClusterOf, NewShort, DotEntry, ShownName;
    var both := WithBoth(chains, id, cs, fid, cs');
    StaysAttached(xs + [NewFile(name, ATTR_DIRECTORY)], chains[id := cs], both);
    DotEntryFields(SELF, cs'[0]);
    DotEntryFields(PARENT, cs[0]);
    assert fid in both && both[fid] == cs' && id in both && both[id] == cs;
    forall k | 0 <= k < |xs| && Live(xs[k])
      ensures Attached(both, xs[k].short)
    {
      assert (xs + [NewFile(name, ATTR_DIRECTORY)])[k] == xs[k];
    }
  }

  /** The clusters of a directory begin with the one in its entry. */
  lemma DirFirst(dir: VirtFile)
    requires DirOk(dir)
    ensures dir.Clusters() != [] && FirstClusterOf(dir.Sde()) == dir.Clusters()[0] && 2 <= dir.Clusters()[0] < 0x1_0000_0000
  {
    hide Logical, CacheOk, Fat, BlockCacheManager.Valid, Capacity, InData, PlaceOk, FirstClusterOf, FileSizeOf, Agree, Owned, Chain, EntryIn;
    FirstOfDir(dir.fs.geometry, dir.fs.fat.Table(), dir.Sde(), dir.clusterChain.clusterVec, true, dir.sdePos);
    FirstIsData(dir.fs.fat.Table(), dir.clusterChain.clusterVec);
    EntryBounds(dir.Sde());
  }

  /** On the disk, only data of the directory and its entry changed. */
  ghost predicate OnlyItsOwn(dir: VirtFile, d0: Blocks)
    reads dir.fs, dir.fs.fat, dir.fs.cache, dir.fs.cache.device, dir.fs.cache.lru, dir.clusterChain
  {
    dir.Valid() && DataKept(dir.fs.geometry, d0, dir.fs.cache.Disk(), Elements(dir.Clusters()) + dir.Home())
  }

  /** Only data of the two directories and the entry of the first. */
  ghost predicate OnlyTheirs(dir: VirtFile, f: VirtFile, d0: Blocks)
    reads dir.fs, dir.fs.fat, dir.fs.cache, dir.fs.cache.device, dir.fs.cache.lru, dir.clusterChain
    reads f.fs, f.fs.fat, f.fs.cache, f.fs.cache.device, f.fs.cache.lru, f.clusterChain
  {
    && dir.Valid() && f.Valid()
    && DataKept(dir.fs.geometry, d0, dir.fs.cache.Disk(), Elements(dir.Clusters()) + Elements(f.Clusters()) + dir.Home())
  }

  lemma MadeKeepsData(dir: VirtFile, f: VirtFile, d: Blocks, d1: Blocks)
    requires dir.Valid() && f.Valid() && f.Home() <= Elements(dir.Clusters())
    requires DataKept(dir.fs.geometry, d, d1, Elements(dir.Clusters()) + dir.Home())
    requires DataKept(dir.fs.geometry, d1, dir.fs.cache.Disk(), Elements(f.Clusters()) + f.Home())
    ensures OnlyTheirs(dir, f, d)
  {
    hide Elements, Logical, CacheOk, Fat, BlockCacheManager.Valid, InData, PlaceOk, FirstClusterOf, DataKept, VirtFile.Clusters, VirtFile.Home;
    var a, b := Elements(dir.Clusters()) + dir.Home(), Elements(f.Clusters()) + f.Home();
    DataKeptTwice(dir.fs.geometry, d, d1, dir.fs.cache.Disk(), a, b);
    assert a + b == Elements(dir.Clusters()) + Elements(f.Clusters()) + dir.Home();
  }

  /** `create`.  A directory with the name of a file that is no directory is the one case left out: there the
      code writes the entries of the directory into that file. */
  method Create(dir: VirtFile, name: seq<Byte>, isDir: bool, ghost xs: seq<Item>,
                ghost chains: Chains, ghost id: nat, ghost fid: nat, ghost size: nat, ghost spare: nat)
    returns (r: CreateResult, ghost at: nat)
    requires InOrder(dir, xs, chains, id) && HasRoom(dir, size, spare) && (isDir ==> spare > 0) && fid !in chains
    requires Clean(name) && EntryCount(|name|) < LAST_LONG_ENTRY
    requires isDir ==> Lookup(xs, name) == None || Exists(xs, name, true)
    requires (|Flat(xs)| + |GroupOf(name, AttrOf(isDir))|) * DIRENT_SIZE <= size
    modifies dir.fs, dir.fs.fat, dir.clusterChain, dir.fs.cache.Repr()
    ensures fresh(dir.fs.cache.Repr() - old(dir.fs.cache.Repr())) && dir.Valid()
    ensures dir.Rest() == old(dir.Rest()) && dir.Head() == old(dir.Head()) && Drift(dir.fs.Vol()) == Drift(old(dir.fs.Vol()))
    ensures r.FileHasExist? <==> Exists(xs, name, isDir)
    ensures r.CreateFileError? <==> !Exists(xs, name, isDir) && Lookup(xs + [NewFile(name, AttrOf(isDir))], name) == None
    ensures old(dir.Clusters()) <= dir.Clusters()
    ensures r.Made? ==> r.file.fs == dir.fs && fresh(r.file) && fresh(r.file.clusterChain)
    // what there is afterwards, ready for the next call
    ensures HasRoom(dir, size, if isDir && r.Made? then spare - 1 else spare)
    ensures r.FileHasExist? ==> dir.fs.cache.Disk() == old(dir.fs.cache.Disk()) && InOrder(dir, xs, chains, id)
    ensures !r.FileHasExist? && !(isDir && r.Made?) ==>
              InOrder(dir, xs + [NewFile(name, AttrOf(isDir))], chains[id := dir.Clusters()], id)
    ensures isDir && r.Made? ==> DirectoryIn(dir, r.file, chains, id, fid)
    ensures isDir && r.Made? ==> LastIs(EntriesNow(dir), xs, name, r.file.Sde())
    ensures isDir && r.Made? ==>
              InOrder(dir, xs + [NewFileWith(name, ATTR_DIRECTORY, r.file.Sde())], WithBoth(chains, id, dir.Clusters(), fid, r.file.Clusters()), id)
    ensures isDir && r.Made? ==>
              InOrder(r.file, DotItems(r.file.Clusters()[0], dir.Clusters()[0]), WithBoth(chains, id, dir.Clusters(), fid, r.file.Clusters()), fid)
    // nothing else changes on the disk
    ensures if isDir && r.Made? then OnlyTheirs(dir, r.file, old(dir.fs.cache.Disk())) else OnlyItsOwn(dir, old(dir.fs.cache.Disk()))
    // the same as steps of the entries
    ensures !isDir && !r.FileHasExist? && Valid(name) && Lookup(xs, name) == None ==>
              EntriesStep(old(EntriesNow(dir)), DirectoryRuns.Event.Create(name, ATTR_ARCHIVE), EntriesNow(dir))
    ensures isDir && r.Made? && Valid(name) ==>
              CreatedAndFilled(old(EntriesNow(dir)), name, at + LongsOf(name), r.file.Sde(), EntriesNow(dir))
    ensures !isDir && r.Made? ==> FirstHit(EntriesNow(dir), at, name) && HandleFor(r.file, dir, at + LongsOf(name), LongsOf(name))
  {
    hide Logical, CacheOk, Fat, BlockCacheManager.Valid, Capacity, InData, Entries, PlaceOk, FirstClusterOf, FileSizeOf, Agree, Owned, Chain,
      VolumeOk, Holds, GroupOf, NewFile, DirRoom, Drift, DataKept, RestIn, Elements, EntryIn, Exists, FirstHit, LongsOf, AllAttached, Lookup,
      NewShort, Place, VectorFor, StoredBehind, Valid, EntriesStep, Used, CreatedAndFilled, NewFileWith,
      DotItems;
    ghost var es0 := EntriesNow(dir);
    assert chains[id := dir.Clusters()] == chains;
    r, at := CreateEntries(dir, name, isDir, xs, chains, id, size, spare);
    ghost var es := EntriesNow(dir);
    if !isDir && !r.FileHasExist? && Valid(name) && Lookup(xs, name) == None {
      CreationStep(es0, xs, name, ATTR_ARCHIVE, es);
    }
    if isDir && r.Made? {
      ghost var d := dir.fs.cache.Disk();
      CreatedIsLast(es, xs, name, ATTR_DIRECTORY, at);
      MakeDirectory(dir, r.file, at + LongsOf(name), LongsOf(name), chains, id, fid, size, spare);
      if Valid(name) {
        CreatedThenFilled(es0, xs, name, es, at + LongsOf(name), r.file.Sde());
      }
      DirFirst(dir);
      DirFirst(r.file);
      MadeKeepsData(dir, r.file, old(dir.fs.cache.Disk()), d);
      BothAttached(xs, name, chains, id, dir.Clusters(), fid, r.file.Clusters(), r.file.Sde());
    }
  }

  // ---------------------------------------------------------------- removing a file

  /** The clusters and the size in the entry are those of file `fid`, which is not file `id`. */
  ghost predicate Belongs(g: Geometry, chains: Chains, id: nat, fid: nat, e: DirEntry)
    requires g.perCluster > 0
  {
    if FirstClusterOf(e) == NEW_VIRT_FILE_CLUSTER then FileSizeOf(e) == 0 && fid !in chains
    else
      && fid in chains && fid != id && chains[fid] != [] && chains[fid][0] == FirstClusterOf(e)
      && (if e[11] == ATTR_DIRECTORY then FileSizeOf(e) == 0 else |chains[fid]| == ClustersFor(g, FileSizeOf(e)))
  }

  lemma FoundAgrees(g: Geometry, v: Volume, chains: Chains, id: nat, fid: nat, e: DirEntry, vec: seq<nat>, pos: DirEntryPos, dirVec: seq<nat>)
    requires g.perCluster > 0 && VolumeOk(v, chains) && id in chains && chains[id] == dirVec && pos.cluster in dirVec
    requires VectorFor(v.fat, e, vec) && Belongs(g, chains, id, fid, e)
    ensures Agree(g, v.fat, e, vec, e[11] == ATTR_DIRECTORY, pos)
    ensures Owns(chains, fid, Owned(e, vec))
    ensures Owned(e, vec) == (if fid in chains then chains[fid] else []) && (fid in chains ==> chains[fid] != [])
  {
    hide FirstClusterOf, FileSizeOf, ClustersFor, Chain, QueueOk;
    ChainNonZero(v.fat, dirVec);
    if fid in chains {
      ChainUnique(v.fat, vec, chains[fid]);
      assert pos.cluster in Elements(dirVec);
      ChainNotEmpty(v.fat, vec);
    }
  }

  /** A directory through the removal of a file in it. */
  lemma DirSurvives(g: Geometry, v: Volume, chains: Chains, id: nat, fid: nat, v': Volume,
                    e: DirEntry, vec: seq<nat>, pos: DirEntryPos, d: Blocks, d': Blocks, touched: set<nat>)
    requires g.Ok() && VolumeOk(v, chains) && id in chains && chains[id] == vec && fid != id
    requires if fid in chains then FatChains.Step(v, chains, Delete(fid), v', chains - {fid}) else v' == v
    requires PlaceOk(g, pos) && Agree(g, v.fat, e, vec, true, pos) && Owned(e, vec) == vec != []
    requires fid in chains ==> pos.cluster !in chains[fid]
    requires DataKept(g, d, d', touched) && touched <= Elements(vec)
    ensures VolumeOk(v', chains - {fid}) && Drift(v') == Drift(v)
    ensures Agree(g, v'.fat, e, vec, true, pos)
    ensures pos.cluster != ROOT_DIR_ENTRY_CLUSTER ==>
              EntryIn(g, d', pos) == EntryIn(g, d, pos) && RestIn(g, d', pos) == RestIn(g, d, pos)
    ensures DataKept(g, d, d', Elements(vec))
  {
    hide DataKept, EntryIn, RestIn, ClustersFor, FirstClusterOf, FileSizeOf, Drift, Chain, QueueOk;
    if fid in chains {
      StepKeeps(v, chains, Delete(fid), v', chains - {fid});
      assert id in chains - {fid};
    } else {
      assert chains - {fid} == chains;
    }
    DataKeptMore(g, d, d', touched, Elements(vec));
    if pos.cluster != ROOT_DIR_ENTRY_CLUSTER {
      assert pos.cluster !in Elements(vec);
      EntryKept(g, d, d', touched, pos);
    }
  }

  lemma HomesInside(ldePos: seq<DirEntryPos>, home: set<nat>, cs: seq<nat>, sdePos: DirEntryPos)
    requires forall i :: 0 <= i < |ldePos| ==> ldePos[i].cluster in cs
    requires home == {sdePos.cluster} && sdePos.cluster in cs
    ensures (set i | 0 <= i < |ldePos| :: ldePos[i].cluster) + home <= Elements(cs)
  {
  }

  /** `clear` on a file that was found in the directory. */
  method ClearFound(dir: VirtFile, f: VirtFile, ghost at: nat, ghost n: nat, ghost chains: Chains, ghost id: nat, ghost fid: nat)
    requires DirOk(dir) && VolumeOk(dir.fs.Vol(), chains) && id in chains && chains[id] == dir.Clusters() && fid != id
    requires HandleFor(f, dir, at, n) && Belongs(dir.fs.geometry, chains, id, fid, EntriesNow(dir)[at])
    requires fid in chains ==> dir.sdePos.cluster !in chains[fid]
    modifies dir.fs, dir.fs.fat, f.clusterChain, dir.fs.cache.Repr()
    ensures DirOk(dir) && fresh(dir.fs.cache.Repr() - old(dir.fs.cache.Repr())) && dir.Rest() == old(dir.Rest())
    ensures dir.Clusters() == old(dir.Clusters()) && dir.Sde() == old(dir.Sde())
    ensures DeletedFrom(old(EntriesNow(dir)), at - n, n, EntriesNow(dir))
    ensures VolumeOk(dir.fs.Vol(), chains - {fid}) && Drift(dir.fs.Vol()) == Drift(old(dir.fs.Vol()))
    ensures if fid in chains then FatChains.Step(old(dir.fs.Vol()), chains, Delete(fid), dir.fs.Vol(), chains - {fid})
            else dir.fs.Vol() == old(dir.fs.Vol())
    ensures DataKept(dir.fs.geometry, old(dir.fs.cache.Disk()), dir.fs.cache.Disk(), Elements(dir.Clusters()))
  {
    hide Logical, CacheOk, Fat, BlockCacheManager.Valid, Capacity, InData, Entries, PlaceOk, FirstClusterOf, FileSizeOf, Agree, Owned,
      Chain, VolumeOk, FatChains.Step, Drift, DataKept, Elements, RestIn, EntryIn, Place, VectorFor, Belongs, DeletedFrom, Owns,
      LongPlacesOk, MarkedUnused, AllMarked, EntryRoom, Cleared;
    ghost var g, v, d, vec, e0, es := dir.fs.geometry, dir.fs.Vol(), dir.fs.cache.Disk(), dir.clusterChain.clusterVec, dir.Sde(), EntriesNow(dir);
    dir.fs.cache.SameBlocks();
    assert g.On(d);
    assert PlacesFrom(g, vec, at - n, n, f.ldePos);
    PlacesFromOk(g, vec, at - n, n, f.ldePos);
    FoundAgrees(g, v, chains, id, fid, es[at], f.clusterChain.clusterVec, f.sdePos, vec);
    assert f.Sde() == es[at] by { EntryHere(g, d, vec, at); }
    var cnt := f.Clear(chains, fid);
    HomesInside(f.ldePos, f.Home(), vec, f.sdePos);
    DirSurvives(g, v, chains, id, fid, dir.fs.Vol(), e0, vec, dir.sdePos, d, dir.fs.cache.Disk(), f.LongHome() + f.Home());
    ClearedEntries(g, d, vec, at - n, n, f.ldePos);
    EntriesKept(g, Cleared(g, d, f.ldePos, f.sdePos, es[at]), dir.fs.cache.Disk(), {}, vec);
  }

  lemma EntryHere(g: Geometry, d: Blocks, cs: seq<nat>, i: nat)
    requires g.Ok() && InData(g, cs) && i < EntryRoom(g, cs)
    requires PlaceOk(g, Place(g, cs, i)) && Place(g, cs, i).cluster != ROOT_DIR_ENTRY_CLUSTER
    ensures EntryIn(g, d, Place(g, cs, i)) == Entries(g, d, cs)[i]
  {
  }

  /** No file but `k` has the first cluster of file `fid`. */
  ghost predicate OthersElsewhere(xs: seq<Item>, k: nat, chains: Chains, fid: nat) {
    forall j :: 0 <= j < |xs| && j != k && Live(xs[j]) ==> Attached(chains - {fid}, xs[j].short)
  }

  lemma RemovedStaysAttached(xs: seq<Item>, k: nat, name: seq<Byte>, chains: Chains, fid: nat)
    requires AllOk(xs) && k < |xs| && Live(xs[k]) && OthersElsewhere(xs, k, chains, fid)
    ensures AllAttached(Removed(xs, k, name), chains - {fid})
  {
    hide EntriesOf, MarkedUnused, FirstClusterOf, FitsShort, Attached;
    RemainsNotLive(xs[k], name);
    var ys := Removed(xs, k, name);
    var n := |Remains(xs[k], name)|;
    forall j | 0 <= j < |ys| && Live(ys[j])
      ensures Attached(chains - {fid}, ys[j].short)
    {
      if j < k {
        assert ys[j] == xs[j];
      } else if j >= k + n {
        assert ys[j] == xs[j - n + 1];
      }
    }
  }

  lemma RemainsNotLive(x: Item, name: seq<Byte>)
    requires ItemOk(x) && Live(x)
    ensures forall j :: 0 <= j < |Remains(x, name)| ==> !Live(Remains(x, name)[j])
  {
    hide EntriesOf, MarkedUnused, FitsShort;
    DeletedEntry(x.short);
    CorpsesNotLive(x, |x.chunks|);
  }

  lemma {:induction false} CorpsesNotLive(x: Item, n: nat)
    requires ItemOk(x) && n <= |EntriesOf(x)|
    ensures forall j :: 0 <= j < |Corpses(x, n)| ==> !Live(Corpses(x, n)[j])
  {
    hide EntriesOf;
    if n > 0 {
      CorpsesNotLive(x, n - 1);
    }
  }

  /** `remove`, for a name in this directory: the file is looked for and cleared. */
  method Remove(dir: VirtFile, name: seq<Byte>, ghost xs: seq<Item>, ghost chains: Chains, ghost id: nat, ghost fid: nat)
    returns (found: bool)
    requires InOrder(dir, xs, chains, id) && Clean(name) && fid != id
    requires forall k :: Lookup(xs, name) == Some(k) && k < |xs| && xs[k].File? ==> Belongs(dir.fs.geometry, chains, id, fid, xs[k].short)
    requires fid in chains ==> dir.sdePos.cluster !in chains[fid]
    modifies dir.fs, dir.fs.fat, dir.fs.cache.Repr()
    ensures DirOk(dir) && fresh(dir.fs.cache.Repr() - old(dir.fs.cache.Repr())) && dir.Rest() == old(dir.Rest())
    ensures dir.Clusters() == old(dir.Clusters()) && dir.Sde() == old(dir.Sde()) && Drift(dir.fs.Vol()) == Drift(old(dir.fs.Vol()))
    ensures found <==> Lookup(xs, name).Some?
    ensures !found ==> dir.fs.cache.Disk() == old(dir.fs.cache.Disk()) && dir.fs.Vol() == old(dir.fs.Vol()) && InOrder(dir, xs, chains, id)
    ensures found ==>
              && EntriesStep(old(EntriesNow(dir)), DirectoryRuns.Event.Remove(name), EntriesNow(dir))
              && (forall k :: Lookup(xs, name) == Some(k) ==>
                    && AllOk(xs) && k < |xs| && Live(xs[k]) && Holds(EntriesNow(dir), Removed(xs, k, name))
                    && (OthersElsewhere(xs, k, chains, fid) ==> InOrder(dir, Removed(xs, k, name), chains - {fid}, id)))
              && VolumeOk(dir.fs.Vol(), chains - {fid})
              && (if fid in chains then FatChains.Step(old(dir.fs.Vol()), chains, Delete(fid), dir.fs.Vol(), chains - {fid})
                  else dir.fs.Vol() == old(dir.fs.Vol()))
              && DataKept(dir.fs.geometry, old(dir.fs.cache.Disk()), dir.fs.cache.Disk(), Elements(dir.Clusters()))
  {
    hide Logical, CacheOk, Fat, BlockCacheManager.Valid, Capacity, InData, Entries, PlaceOk, FirstClusterOf, FileSizeOf, Agree, Owned,
      Chain, VolumeOk, FatChains.Step, Drift, DataKept, Elements, RestIn, EntryIn, HandleFor, Belongs, DeletedFrom, Holds, Lookup,
      FirstHit, Hit, Absent, AllAttached, Chained, LongsOf, HitIndex, Removed, FitsShort, OthersElsewhere;
    ghost var es := EntriesNow(dir);
    HitsChained(es, xs, dir.fs.Vol(), chains, name);
    var f, at := FindByName(dir, name);
    if f == None {
      NothingFound(es, xs, name);
      return false;
    }
    ghost var k := FoundItem(es, xs, at, name);
    ClearFound(dir, f.value, at + LongsOf(name), LongsOf(name), chains, id, fid);
    RemoveHolds(es, xs, k, name, EntriesNow(dir));
    if OthersElsewhere(xs, k, chains, fid) {
      RemovedStaysAttached(xs, k, name, chains, fid);
    }
    return true;
  }

  // ---------------------------------------------------------------- listing

  /** What `dir_info` returns: the name, the entry to go on with, the first cluster and the attributes. */
  datatype Listing = Listing(name: seq<Unit>, next: nat, cluster: nat, attr: Byte)

  /** The long entries of a file from number `p` on. */
  ghost function LongsFrom(x: Item, p: nat): seq<DirEntry>
    requires ItemOk(x) && x.File? && p <= |x.chunks|
  {
    EntriesOf(x)[p..|x.chunks|]
  }

  /** Entry `p` of item `j`, as the listing meets it. */
  lemma EntryMet(es: seq<DirEntry>, xs: seq<Item>, j: nat, p: nat)
    requires Holds(es, xs) && j <= |xs| && (p > 0 ==> j < |xs| && xs[j].File? && p <= |xs[j].chunks|)
    ensures AllOk(xs)
    ensures var i := Start(xs, j) + p;
            && (j == |xs| ==> i >= |es| || IsEmpty(es[i]))
            && (j < |xs| ==>
                  && i < |es| && !IsEmpty(es[i])
                  && (xs[j].Dead? ==> IsDeleted(es[i]) && Start(xs, j + 1) == i + 1)
                  && (xs[j].File? && p == |xs[j].chunks| ==>
                        es[i] == xs[j].short && es[i][11] != ATTR_LONG_NAME && Start(xs, j + 1) == i + 1)
                  && (xs[j].File? && p < |xs[j].chunks| ==>
                        && !IsDeleted(es[i]) && es[i][11] == ATTR_LONG_NAME
                        && LongsFrom(xs[j], p) == [es[i]] + LongsFrom(xs[j], p + 1)))
  {
    hide LongEntry, Flat, NameUtf16;
    FirstEmpty(es, xs);
    assert xs[..|xs|] == xs;
    if j < |xs| {
      ItemAt(es, xs, j);
      EntriesOfAt(xs[j], p);
      if xs[j].File? && p < |xs[j].chunks| {
        LongEntryHead(xs[j], p);
      }
    }
  }

  lemma LongsAll(x: Item)
    requires ItemOk(x) && x.File?
    ensures LongsFrom(x, 0) == Stored(x.chunks, |x.chunks|, x.sum) && LongsFrom(x, |x.chunks|) == []
  {
  }

  /** `dir_info` from entry `start` on, where the entries of item `k` begin. */
  method DirInfo(dir: VirtFile, start: nat, ghost xs: seq<Item>, ghost k: nat) returns (r: Option<Listing>)
    requires dir.Valid() && Holds(EntriesNow(dir), xs) && k <= |xs| && start == Start(xs, k)
    modifies dir.fs.cache.Repr()
    ensures dir.Valid() && fresh(dir.fs.cache.Repr() - old(dir.fs.cache.Repr())) && dir.fs.cache.Disk() == old(dir.fs.cache.Disk())
    ensures r == None <==> !dir.isDir || NextLive(xs, k) == None
    ensures r.Some? ==>
              var j := NextLive(xs, k).value;
              && AllOk(xs) && r.value.name == ListedName(xs[j]) && r.value.next == Start(xs, j + 1)
              && r.value.cluster == FirstClusterOf(xs[j].short) && r.value.attr == xs[j].short[11]
  {
    hide Logical, CacheOk, Fat, BlockCacheManager.Valid, BlockCacheManager.Disk, Capacity, InData, Entries, PlaceOk, IsEmpty, FirstClusterOf,
      Holds, Start, NameUtf16, UpToZero, LongsFrom, ListedName, ShownName, Stored, IsDeleted, ItemOk, Prepended;
    if !dir.isDir {
      return None;
    }
    ghost var es := EntriesNow(dir);
    var i, name, isLong := start, [], false;
    ghost var j: nat, p: nat := k, 0;
    HoldsAll(es, xs);
    while true
      invariant k <= j <= |xs| && forall l :: k <= l < j ==> !Live(xs[l])
      invariant p > 0 ==> j < |xs| && xs[j].File? && p <= |xs[j].chunks|
      invariant i == Start(xs, j) + p <= |es|
      invariant dir.Valid() && fresh(dir.fs.cache.Repr() - old(dir.fs.cache.Repr())) && dir.fs.cache.Disk() == old(dir.fs.cache.Disk())
      invariant isLong <==> p > 0
      invariant p == 0 ==> name == []
      invariant p > 0 ==> Prepended(LongsFrom(xs[j], p), name) == Prepended(LongsFrom(xs[j], 0), [])
      decreases |es| - i
    {
      EntryMet(es, xs, j, p);
      var e := ReadEntry(dir, i);
      if e == None || IsEmpty(e.value) {
        return None;
      }
      if IsDeleted(e.value) {
        DeadHere(xs[j], e.value, p);
        i, name, isLong := i + 1, [], false;
        j, p := j + 1, 0;
        continue;
      }
      if e.value[11] != ATTR_LONG_NAME {
        LiveHere(xs[j], e.value, p);
        if !isLong {
          var shown := GetNameUppercase(e.value);
          name := LowerAll(shown);
        }
        ListedHere(xs[j], p, name);
        return Some(Listing(name, i + 1, FirstClusterOf(e.value), e.value[11]));
      }
      var part := NameUnits(e.value);
      PrependOne(e.value, LongsFrom(xs[j], p + 1), name);
      isLong, name := true, part + name;
      p := p + 1;
      i := i + 1;
    }
  }

  lemma HoldsAll(es: seq<DirEntry>, xs: seq<Item>)
    requires Holds(es, xs)
    ensures AllOk(xs) && forall k :: 0 <= k <= |xs| ==> Start(xs, k) <= |es|
  {
    hide EntriesOf, ItemOk;
    forall k | 0 <= k <= |xs|
      ensures Start(xs, k) <= |es|
    {
      FlatPrefix(xs, k, |xs|);
      assert xs[..|xs|] == xs;
    }
  }

  lemma PrependOne(e: DirEntry, rest: seq<DirEntry>, name: seq<Unit>)
    ensures Prepended([e] + rest, name) == Prepended(rest, UpToZero(NameUtf16(e)) + name)
  {
    assert ([e] + rest)[1..] == rest;
  }

  /** A deleted entry: what is left of an item that is not there. */
  lemma DeadHere(x: Item, e: DirEntry, p: nat)
    requires ItemOk(x) && IsDeleted(e) && (x.File? ==> p == |x.chunks| && e == x.short)
    ensures !Live(x)
  {
  }

  lemma LiveHere(x: Item, e: DirEntry, p: nat)
    requires x.File? && p == |x.chunks| && e == x.short && !IsDeleted(e)
    ensures Live(x)
  {
  }

  /** At the short entry the name is complete. */
  lemma ListedHere(x: Item, p: nat, name: seq<Unit>)
    requires ItemOk(x) && x.File? && p == |x.chunks|
    requires if p == 0 then name == LowerAll(ShownName(x.short)) else Prepended(LongsFrom(x, p), name) == Prepended(LongsFrom(x, 0), [])
    ensures name == ListedName(x)
  {
    LongsAll(x);
    assert Prepended([], name) == name;
  }
}
