/** Directories inside directories: what an operation on a file means for the directory that it is in. */
module DirectoryTrees {
  import opened LittleEndian
  import opened Options
  import opened Sequences
  import opened BlockCaches
  import opened DirEntries
  import opened FatVolumes
  import opened FatChains
  import opened FatManagers
  import opened FileSystems
  import opened ChainBytes
  import opened VirtFiles
  import opened LongNames
  import opened ShortNames
  import opened DirectoryContents
  import opened DirectoryEntries
  import opened DirectoryRuns
  import opened DirectoryRoom
  import opened Directories

  /** A directory at an earlier time. */
  datatype Past = Past(g: Geometry, disk: Blocks, fat: FatTable, root: DirEntry, sde: DirEntry, pos: DirEntryPos, vec: seq<nat>)

  ghost function PastOf(dir: VirtFile): Past
    requires dir.Valid()
    reads dir.fs, dir.fs.fat, dir.fs.cache, dir.fs.cache.device, dir.fs.cache.lru, dir.clusterChain
  {
    Past(dir.fs.geometry, dir.fs.cache.Disk(), dir.fs.fat.Table(), dir.fs.rootDirEntry, dir.Sde(), dir.sdePos, dir.clusterChain.clusterVec)
  }

  ghost predicate StoodInOrder(b: Past, ys: seq<Item>, chains: Chains, id: nat) {
    && b.g.Ok() && InData(b.g, b.vec) && PlaceOk(b.g, b.pos)
    && Agree(b.g, b.fat, b.sde, b.vec, true, b.pos) && Owned(b.sde, b.vec) == b.vec != []
    && b.sde == (if b.pos.cluster == ROOT_DIR_ENTRY_CLUSTER then b.root else EntryIn(b.g, b.disk, b.pos))
    && id in chains && chains[id] == b.vec
    && Holds(Entries(b.g, b.disk, b.vec), ys) && AllAttached(ys, chains)
  }

  lemma Remember(dir: VirtFile, ys: seq<Item>, chains: Chains, id: nat)
    requires InOrder(dir, ys, chains, id)
    ensures StoodInOrder(PastOf(dir), ys, chains, id)
  {
    hide Logical, CacheOk, Fat, BlockCacheManager.Valid, Capacity, InData, Entries, PlaceOk, Agree, Owned, VolumeOk, Holds, AllAttached, EntryIn;
  }

  /** The number of the short entry of file `k`. */
  ghost function EntryOf(ys: seq<Item>, k: nat): nat
    requires AllOk(ys) && k < |ys| && ys[k].File?
  {
    Start(ys, k) + |ys[k].chunks|
  }

  /** The files with another entry for file `k`. */
  ghost function Touched(ys: seq<Item>, k: nat, e: DirEntry): seq<Item>
    requires k < |ys| && ys[k].File?
  {
    ys[..k] + [ys[k].(short := e)] + ys[k + 1..]
  }

  /** `f` is file `k` of a directory with the clusters `vec`. */
  ghost predicate IsFile(g: Geometry, f: DirEntryPos, vec: seq<nat>, ys: seq<Item>, k: nat)
    requires g.perCluster > 0
  {
    && AllOk(ys) && k < |ys| && Live(ys[k]) && InData(g, vec) && EntryOf(ys, k) < EntryRoom(g, vec)
    && f == Place(g, vec, EntryOf(ys, k))
  }

  /** The entry of a directory lies in the clusters of a file that none of `except` is, or is that of the root. */
  ghost predicate HomeIn(pos: DirEntryPos, chains: Chains, except: set<nat>) {
    pos.cluster == ROOT_DIR_ENTRY_CLUSTER || exists h :: h in chains && h !in except && pos.cluster in chains[h]
  }

  /** The files that are not in `except` have the clusters they had. */
  ghost predicate SameBut(chains: Chains, chains': Chains, except: set<nat>) {
    forall h :: h in chains && h !in except ==> h in chains' && chains'[h] == chains[h]
  }

  /** `touched` are clusters of the files in `ids`. */
  ghost predicate OfFiles(touched: set<nat>, chains: Chains, ids: set<nat>) {
    forall c :: c in touched ==> exists f :: f in ids && f in chains && c in chains[f]
  }

  lemma HomeStays(pos: DirEntryPos, chains: Chains, chains': Chains, ids: set<nat>, id: nat)
    requires HomeIn(pos, chains, ids) && SameBut(chains, chains', ids) && id in ids
    ensures HomeIn(pos, chains', {id})
  {
    if pos.cluster != ROOT_DIR_ENTRY_CLUSTER {
      var h :| h in chains && h !in ids && pos.cluster in chains[h];
      assert h in chains' && h !in {id} && pos.cluster in chains'[h];
    }
  }

  lemma StillThere(chains: Chains, chains': Chains, ids: set<nat>, id: nat)
    requires SameBut(chains, chains', ids) && id in chains && id !in ids
    ensures id in chains' && chains'[id] == chains[id]
  {
  }

  lemma HomeStands(v: Volume, chains: Chains, chains': Chains, ids: set<nat>, pos: DirEntryPos, touched: set<nat>)
    requires VolumeOk(v, chains') && HomeIn(pos, chains, ids) && SameBut(chains, chains', ids) && OfFiles(touched, chains', ids)
    ensures pos.cluster != ROOT_DIR_ENTRY_CLUSTER ==>
              pos.cluster in v.fat && v.fat[pos.cluster] != FREE_CLUSTER && pos.cluster !in touched
  {
    if pos.cluster != ROOT_DIR_ENTRY_CLUSTER {
      var h :| h in chains && h !in ids && pos.cluster in chains[h];
      var i :| 0 <= i < |chains[h]| && chains[h][i] == pos.cluster;
      ChainEntry(v.fat, chains'[h], i);
      FilesApart(v, chains', ids, touched, h);
      assert pos.cluster in Elements(chains'[h]);
    }
  }

  lemma FilesApart(v: Volume, chains: Chains, ids: set<nat>, touched: set<nat>, id: nat)
    requires VolumeOk(v, chains) && OfFiles(touched, chains, ids) && id in chains && id !in ids
    ensures Elements(chains[id]) !! touched && Chain(v.fat, chains[id])
  {
    forall c | c in touched
      ensures c !in Elements(chains[id])
    {
      var f :| f in ids && f in chains && c in chains[f];
    }
  }

  /** The entries after file `k` changed its own, with its name and attributes kept. */
  lemma EntriesAfter(b: Past, ys: seq<Item>, k: nat, d: Blocks, touched: set<nat>, pos: DirEntryPos)
    requires b.g.Ok() && InData(b.g, b.vec) && Holds(Entries(b.g, b.disk, b.vec), ys) && IsFile(b.g, pos, b.vec, ys, k)
    requires PlaceOk(b.g, pos) && pos.cluster != ROOT_DIR_ENTRY_CLUSTER && Elements(b.vec) !! touched
    requires DataKept(b.g, b.disk, d, touched + {pos.cluster}) && RestIn(b.g, d, pos) == RestIn(b.g, b.disk, pos)
    requires EntryIn(b.g, d, pos)[..20] == EntryIn(b.g, b.disk, pos)[..20]
    ensures Holds(Entries(b.g, d, b.vec), Touched(ys, k, EntryIn(b.g, d, pos)))
    ensures EntriesStep(Entries(b.g, b.disk, b.vec), DirectoryRuns.Event.Touch(EntryOf(ys, k), EntryIn(b.g, d, pos)), Entries(b.g, d, b.vec))
    ensures IsFile(b.g, pos, b.vec, Touched(ys, k, EntryIn(b.g, d, pos)), k)
  {
    hide InData, Entries, Holds, DataKept, RestIn, EntryIn, Place, Start, PlaceOk, ItemOk, EntriesOf, EntriesStep;
    var es, e, at := Entries(b.g, b.disk, b.vec), EntryIn(b.g, d, pos), EntryOf(ys, k);
    TouchHolds(es, ys, k, ys[k].short);
    EntryHere(b.g, b.disk, b.vec, at);
    OwnEntryChanged(b.g, b.disk, d, touched, b.vec, at);
    TouchHolds(es, ys, k, e);
    LiveIsUsed(es, ys, k);
    HoldsAll(Entries(b.g, d, b.vec), Touched(ys, k, e));
    SameEntry(ys, k, e);
    FileChangeIsTouch(b.g, b.disk, d, touched, b.vec, at);
  }

  lemma SameEntry(ys: seq<Item>, k: nat, e: DirEntry)
    requires k < |ys| && ys[k].File? && AllOk(ys) && AllOk(Touched(ys, k, e))
    ensures EntryOf(Touched(ys, k, e), k) == EntryOf(ys, k)
  {
    assert Touched(ys, k, e)[..k] == ys[..k];
  }

  lemma LiveIsUsed(es: seq<DirEntry>, ys: seq<Item>, k: nat)
    requires Holds(es, ys) && AllOk(ys) && k < |ys| && Live(ys[k]) && EntryOf(ys, k) < |es| && es[EntryOf(ys, k)] == ys[k].short
    ensures Used(es[EntryOf(ys, k)])
  {
    hide EntriesOf, Start, Holds;
    assert ItemOk(ys[k]);
  }

  /** The first cluster of the changed entry is one of a file, as those of the others are. */
  lemma TouchedAttached(ys: seq<Item>, k: nat, e: DirEntry, chains: Chains, chains': Chains)
    requires k < |ys| && ys[k].File? && AllAttached(ys, chains) && Longer(chains, chains') && Attached(chains', e)
    ensures AllAttached(Touched(ys, k, e), chains')
  {
    StaysAttached(ys, chains, chains');
    var ys' := Touched(ys, k, e);
    forall j | 0 <= j < |ys'| && Live(ys'[j])
      ensures Attached(chains', ys'[j].short)
    {
      assert j != k ==> ys'[j] == ys[j];
    }
  }

  /** What a file may do as far as the directory above it is concerned: change its own entry but for the name and
      the attributes, and data of the files in `ids`, which may be longer, shorter, new or gone. */
  ghost predicate Considerate(f: VirtFile, b: Past, rest: (seq<Block>, Option<DirEntry>), head: seq<Byte>,
                              chains: Chains, chains': Chains, ids: set<nat>, touched: set<nat>)
    reads f.fs, f.fs.fat, f.fs.cache, f.fs.cache.device, f.fs.cache.lru, f.clusterChain
  {
    && f.Valid() && f.fs.geometry == b.g && f.sdePos.cluster != ROOT_DIR_ENTRY_CLUSTER
    && f.Rest() == rest == (RestIn(b.g, b.disk, f.sdePos), Some(b.root))
    && f.Head() == head == EntryIn(b.g, b.disk, f.sdePos)[..20]
    && VolumeOk(f.fs.Vol(), chains') && SameBut(chains, chains', ids) && OfFiles(touched, chains', ids)
    && DataKept(b.g, b.disk, f.fs.cache.Disk(), touched + f.Home())
  }

  /** `f` has its entry in `above`, which is a directory of its own. */
  ghost predicate LiesIn(f: VirtFile, above: VirtFile, ys: seq<Item>, k: nat)
    reads above.fs, above.fs.fat, above.fs.cache, above.fs.cache.device, above.fs.cache.lru, above.clusterChain
  {
    && above.Valid() && f.fs == above.fs && f.clusterChain != above.clusterChain
    && IsFile(above.fs.geometry, f.sdePos, above.clusterChain.clusterVec, ys, k)
  }

  /** The directory above is in order, with `f` in it as file `k`, and of the entries `es` it had only that of `f` is
      another one. */
  ghost predicate AboveIs(above: VirtFile, f: VirtFile, es: seq<DirEntry>, ys: seq<Item>, k: nat, chains: Chains, aid: nat)
    reads above.fs, above.fs.fat, above.fs.cache, above.fs.cache.device, above.fs.cache.lru, above.clusterChain
    reads f.fs, f.fs.fat, f.fs.cache, f.fs.cache.device, f.fs.cache.lru, f.clusterChain
  {
    && f.Valid() && AllOk(ys) && k < |ys| && ys[k].File?
    && InOrder(above, Touched(ys, k, f.Sde()), chains, aid) && LiesIn(f, above, Touched(ys, k, f.Sde()), k)
    && EntriesStep(es, DirectoryRuns.Event.Touch(EntryOf(ys, k), f.Sde()), EntriesNow(above))
  }

  /** Then the directory above it stays in order, and for it that was a change of one entry. */
  lemma AboveStaysInOrder(above: VirtFile, f: VirtFile, b: Past, rest: (seq<Block>, Option<DirEntry>), head: seq<Byte>,
                          ys: seq<Item>, k: nat, chains: Chains, aid: nat, chains': Chains, ids: set<nat>, touched: set<nat>)
    requires StoodInOrder(b, ys, chains, aid) && aid !in ids && HomeIn(b.pos, chains, ids)
    requires IsFile(b.g, f.sdePos, b.vec, ys, k) && Considerate(f, b, rest, head, chains, chains', ids, touched)
    requires AllAttached(Touched(ys, k, f.Sde()), chains')
    requires above.fs == f.fs && above.clusterChain.clusterVec == b.vec && above.clusterChain.fat == f.fs.fat
    requires above.clusterChain != f.clusterChain
    requires above.sdePos == b.pos && above.isDir
    ensures AboveIs(above, f, Entries(b.g, b.disk, b.vec), ys, k, chains', aid)
  {
    hide Logical, CacheOk, Fat, BlockCacheManager.Valid, Capacity, InData, Entries, Place, DataKept, RestIn, EntryIn, VolumeOk, Holds,
      AllAttached, Attached, Elements, HomeIn, OfFiles, Longer, SameBut, EntriesStep, EntryRoom, Start, EntryOf, Touched, FirstClusterOf, FileSizeOf,
      Chain, ItemOk, IsDeleted;
    var g, d, fat := b.g, f.fs.cache.Disk(), f.fs.fat.Table();
    StillThere(chains, chains', ids, aid);
    HomeStands(f.fs.Vol(), chains, chains', ids, b.pos, touched);
    FilesApart(f.fs.Vol(), chains', ids, touched, aid);
    PlaceIsOk(g, b.vec, EntryOf(ys, k));
    FirstOfDir(g, b.fat, b.sde, b.vec, true, b.pos);
    if b.pos.cluster != ROOT_DIR_ENTRY_CLUSTER {
      assert b.pos.cluster != f.sdePos.cluster;
      EntryKept(g, b.disk, d, touched + f.Home(), b.pos);
    }
    EntriesAfter(b, ys, k, d, touched, f.sdePos);
  }

  /** The entry of `f` is the one in `above`, as long as that is in order. */
  lemma OwnEntry(f: VirtFile, above: VirtFile, ys: seq<Item>, k: nat)
    requires LiesIn(f, above, ys, k) && f.Valid() && Holds(EntriesNow(above), ys)
    ensures f.sdePos.cluster != ROOT_DIR_ENTRY_CLUSTER && f.Sde() == ys[k].short
    ensures f.Rest() == (RestIn(f.fs.geometry, f.fs.cache.Disk(), f.sdePos), Some(f.fs.rootDirEntry))
  {
    hide Logical, CacheOk, Fat, BlockCacheManager.Valid, InData, Entries, Place, RestIn, EntryIn, Start, Holds, EntryRoom, ItemOk;
    PlaceIsOk(f.fs.geometry, above.clusterChain.clusterVec, EntryOf(ys, k));
    TouchHolds(EntriesNow(above), ys, k, ys[k].short);
    EntryHere(f.fs.geometry, f.fs.cache.Disk(), above.clusterChain.clusterVec, EntryOf(ys, k));
  }

  /** The files of the volume after `create`. */
  ghost function ChainsThen(chains: Chains, id: nat, cs: seq<nat>, fid: nat, made: seq<nat>): Chains {
    if made == [] then chains[id := cs] else WithBoth(chains, id, cs, fid, made)
  }

  ghost function TouchedThen(cs: seq<nat>, made: seq<nat>): set<nat> {
    if made == [] then Elements(cs) else Elements(cs) + Elements(made)
  }

  lemma CreatedApart(chains: Chains, id: nat, cs: seq<nat>, fid: nat, made: seq<nat>)
    requires id in chains && chains[id] <= cs && fid !in chains
    ensures var chains' := ChainsThen(chains, id, cs, fid, made);
            && Longer(chains, chains') && SameBut(chains, chains', {id, fid})
            && OfFiles(TouchedThen(cs, made), chains', {id, fid})
            && (forall pos :: HomeIn(pos, chains, {id}) ==> HomeIn(pos, chains, {id, fid}))
  {
    var chains' := ChainsThen(chains, id, cs, fid, made);
    forall pos | HomeIn(pos, chains, {id}) && pos.cluster != ROOT_DIR_ENTRY_CLUSTER
      ensures HomeIn(pos, chains, {id, fid})
    {
      var h :| h in chains && h !in {id} && pos.cluster in chains[h];
      assert h !in {id, fid};
    }
    forall c | c in TouchedThen(cs, made)
      ensures exists f :: f in {id, fid} && f in chains' && c in chains'[f]
    {
      if c in made {
        assert fid in {id, fid} && fid in chains' && c in chains'[fid];
      } else {
        assert id in {id, fid} && id in chains' && c in chains'[id];
      }
    }
  }

  /** What `create` asks of the directory. */
  ghost predicate MayCreate(dir: VirtFile, name: seq<Byte>, isDir: bool, xs: seq<Item>, chains: Chains, id: nat, fid: nat, size: nat,
                            spare: nat)
    reads dir.fs, dir.fs.fat, dir.fs.cache, dir.fs.cache.device, dir.fs.cache.lru, dir.clusterChain
  {
    && InOrder(dir, xs, chains, id) && HasRoom(dir, size, spare) && (isDir ==> spare > 0) && fid !in chains
    && Clean(name) && EntryCount(|name|) < LAST_LONG_ENTRY
    && (isDir ==> Lookup(xs, name) == None || Exists(xs, name, true))
    && (|Flat(xs)| + |GroupOf(name, AttrOf(isDir))|) * DIRENT_SIZE <= size
  }

  /** `f` is a new directory in `dir`, and both are in order. */
  ghost predicate MadeIn(dir: VirtFile, f: VirtFile, name: seq<Byte>, xs: seq<Item>, chains: Chains, id: nat, fid: nat)
    reads dir.fs, dir.fs.fat, dir.fs.cache, dir.fs.cache.device, dir.fs.cache.lru, dir.clusterChain
    reads f.fs, f.fs.fat, f.fs.cache, f.fs.cache.device, f.fs.cache.lru, f.clusterChain
  {
    && dir.Valid() && f.Valid() && dir.Clusters() != [] && f.Clusters() != [] && name != []
    && InOrder(dir, xs + [NewFileWith(name, ATTR_DIRECTORY, f.Sde())], chains, id)
    && InOrder(f, DotItems(f.Clusters()[0], dir.Clusters()[0]), chains, fid)
  }

  lemma ChainAttached(chains: Chains, id: nat, e: DirEntry)
    requires FirstClusterOf(e) == NEW_VIRT_FILE_CLUSTER || (id in chains && chains[id] != [] && chains[id][0] == FirstClusterOf(e))
    ensures Attached(chains, e)
  {
  }

  lemma StoodInChains(b: Past, ys: seq<Item>, chains: Chains, id: nat)
    requires StoodInOrder(b, ys, chains, id)
    ensures id in chains && AllAttached(ys, chains)
  {
  }

  /** Between `create` and its effect on the directory above. */
  lemma AfterCreate(above: VirtFile, dir: VirtFile, b: Past, rest: (seq<Block>, Option<DirEntry>), head: seq<Byte>, ys: seq<Item>, k: nat,
                    chains: Chains, aid: nat, id: nat, fid: nat, made: seq<nat>)
    requires StoodInOrder(b, ys, chains, aid) && HomeIn(b.pos, chains, {id}) && aid != id && IsFile(b.g, dir.sdePos, b.vec, ys, k)
    requires DirOk(dir) && dir.fs.geometry == b.g && dir.sdePos.cluster != ROOT_DIR_ENTRY_CLUSTER
    requires dir.Rest() == rest == (RestIn(b.g, b.disk, dir.sdePos), Some(b.root))
    requires dir.Head() == head == EntryIn(b.g, b.disk, dir.sdePos)[..20]
    requires id in chains && chains[id] <= dir.Clusters() && fid !in chains
    requires VolumeOk(dir.fs.Vol(), ChainsThen(chains, id, dir.Clusters(), fid, made))
    requires DataKept(b.g, b.disk, dir.fs.cache.Disk(), TouchedThen(dir.Clusters(), made) + dir.Home())
    requires above.fs == dir.fs && above.clusterChain.clusterVec == b.vec && above.clusterChain.fat == dir.fs.fat
    requires above.clusterChain != dir.clusterChain
    requires above.sdePos == b.pos && above.isDir
    ensures AboveIs(above, dir, Entries(b.g, b.disk, b.vec), ys, k, ChainsThen(chains, id, dir.Clusters(), fid, made), aid)
    ensures HomeIn(b.pos, ChainsThen(chains, id, dir.Clusters(), fid, made), {id})
  {
    hide Logical, CacheOk, Fat, BlockCacheManager.Valid, Capacity, InData, Entries, PlaceOk, FirstClusterOf, FileSizeOf, Agree, Owned, Chain,
      VolumeOk, Holds, DataKept, RestIn, Elements, EntryIn, AllAttached, Place, Longer, SameBut, OfFiles, HomeIn, StoodInOrder, IsFile,
      Attached, AboveIs, TouchedThen;
    ghost var chains' := ChainsThen(chains, id, dir.Clusters(), fid, made);
    CreatedApart(chains, id, dir.Clusters(), fid, made);
    DirFirst(dir);
    ChainAttached(chains', id, dir.Sde());
    StoodInChains(b, ys, chains, aid);
    FileThere(b.g, dir.sdePos, b.vec, ys, k);
    TouchedAttached(ys, k, dir.Sde(), chains, chains');
    HomeStays(b.pos, chains, chains', {id, fid}, id);
    AboveStaysInOrder(above, dir, b, rest, head, ys, k, chains, aid, chains', {id, fid}, TouchedThen(dir.Clusters(), made));
  }

  /** `create` in a directory inside another one: both are in order afterwards, and so is a directory that was
      made. */
  method CreateBelow(above: VirtFile, dir: VirtFile, name: seq<Byte>, isDir: bool, ghost ys: seq<Item>, ghost k: nat, ghost xs: seq<Item>,
                     ghost chains: Chains, ghost aid: nat, ghost id: nat, ghost fid: nat, ghost size: nat, ghost spare: nat)
    returns (r: CreateResult, ghost chains': Chains)
    requires InOrder(above, ys, chains, aid) && LiesIn(dir, above, ys, k) && HomeIn(above.sdePos, chains, {id}) && aid != id
    requires MayCreate(dir, name, isDir, xs, chains, id, fid, size, spare)
    modifies dir.fs, dir.fs.fat, dir.clusterChain, dir.fs.cache.Repr()
    ensures fresh(dir.fs.cache.Repr() - old(dir.fs.cache.Repr())) && dir.Valid()
    ensures AboveIs(above, dir, old(EntriesNow(above)), ys, k, chains', aid) && HomeIn(above.sdePos, chains', {id})
    ensures HasRoom(dir, size, if isDir && r.Made? then spare - 1 else spare)
    ensures r.FileHasExist? <==> Exists(xs, name, isDir)
    ensures r.FileHasExist? ==> InOrder(dir, xs, chains', id)
    ensures !r.FileHasExist? && !(isDir && r.Made?) ==> InOrder(dir, xs + [NewFile(name, AttrOf(isDir))], chains', id)
    ensures isDir && r.Made? ==> MadeIn(dir, r.file, name, xs, chains', id, fid)
  {
    hide Logical, CacheOk, Fat, BlockCacheManager.Valid, Capacity, InData, Entries, PlaceOk, FirstClusterOf, FileSizeOf, Agree, Owned, Chain,
      VolumeOk, Holds, GroupOf, NewFile, DirRoom, Drift, DataKept, RestIn, Elements, EntryIn, Exists, FirstHit, LongsOf, AllAttached, Lookup,
      NewShort, Place, VectorFor, EntriesStep, CreatedAndFilled, NewFileWith, DotItems, HandleFor, Longer, SameBut, OfFiles, HomeIn, StoodInOrder,
      IsFile, EntryOf, Touched, Attached, AboveIs, HasRoom;
    ghost var b, rest, head, cs0 := PastOf(above), dir.Rest(), dir.Head(), dir.Clusters();
    Remember(above, ys, chains, aid);
    OwnEntry(dir, above, ys, k);
    ghost var at;
    r, at := Directories.Create(dir, name, isDir, xs, chains, id, fid, size, spare);
    ghost var made := if isDir && r.Made? then r.file.Clusters() else [];
    chains' := ChainsThen(chains, id, dir.Clusters(), fid, made);
    assert chains[id := chains[id]] == chains;
    AfterCreate(above, dir, b, rest, head, ys, k, chains, aid, id, fid, made);
  }

  lemma WrittenChains(v: Volume, chains: Chains, id: nat, owned: seq<nat>, cs: seq<nat>, v': Volume)
    requires VolumeOk(v, chains) && Owns(chains, id, owned)
    requires cs == [] ==> v' == v
    requires cs != [] ==> FatChains.Step(v, chains, Grow(id, |cs|), v', chains[id := owned + cs])
    ensures var chains' := if cs == [] then chains else chains[id := owned + cs];
            && VolumeOk(v', chains') && Owns(chains', id, owned + cs) && Longer(chains, chains') && SameBut(chains, chains', {id})
            && OfFiles(Elements(owned + cs), chains', {id})
  {
    hide VolumeOk, FatChains.Step, Drift;
    if cs == [] {
      assert owned + cs == owned;
    } else {
      StepKeeps(v, chains, Grow(id, |cs|), v', chains[id := owned + cs]);
    }
    var chains' := if cs == [] then chains else chains[id := owned + cs];
    forall c | c in Elements(owned + cs)
      ensures exists f :: f in {id} && f in chains' && c in chains'[f]
    {
      assert id in {id} && id in chains' && c in chains'[id];
    }
  }

  lemma OwnedAttached(g: Geometry, fat: FatTable, e: DirEntry, vec: seq<nat>, isDir: bool, pos: DirEntryPos, chains: Chains, id: nat)
    requires g.perCluster > 0 && Agree(g, fat, e, vec, isDir, pos) && Owns(chains, id, Owned(e, vec))
    ensures Attached(chains, e)
  {
    ChainAttached(chains, id, e);
  }

  /** `write_at` on a file: its contents, and the directory that it is in. */
  method WriteBelow(above: VirtFile, f: VirtFile, offset: nat, buf: seq<Byte>, ghost ys: seq<Item>, ghost k: nat,
                    ghost chains: Chains, ghost aid: nat, ghost id: nat)
    returns (n: nat, ghost chains': Chains)
    requires InOrder(above, ys, chains, aid) && LiesIn(f, above, ys, k) && HomeIn(above.sdePos, chains, {id}) && aid != id
    requires f.Valid() && f.Agrees() && Owns(chains, id, f.Clusters()) && buf != [] && offset + |buf| < 0x1_0000_0000
    requires GrowRoom(f.fs.geometry, f.fs.Vol(), f.Sde(), f.Clusters(), offset + |buf|)
    modifies f.fs, f.fs.fat, f.clusterChain, f.fs.cache.Repr()
    ensures fresh(f.fs.cache.Repr() - old(f.fs.cache.Repr())) && f.Valid() && f.Agrees() && n == |buf|
    ensures AboveIs(above, f, old(EntriesNow(above)), ys, k, chains', aid) && HomeIn(above.sdePos, chains', {id})
    ensures Owns(chains', id, f.Clusters()) && old(f.Clusters()) <= f.Clusters()
    ensures InData(f.fs.geometry, old(f.Clusters())) && InData(f.fs.geometry, f.Clusters())
    ensures Written(f.fs.geometry, old(f.fs.cache.Disk()), f.fs.cache.Disk(), old(f.Clusters()), f.Clusters(), offset, buf, f.Home())
  {
    hide Logical, CacheOk, Fat, BlockCacheManager.Valid, Capacity, InData, Entries, PlaceOk, FirstClusterOf, FileSizeOf, Agree, Owned, Chain,
      VolumeOk, Holds, DataKept, RestIn, Elements, EntryIn, AllAttached, Place, Longer, SameBut, OfFiles, HomeIn, StoodInOrder, IsFile,
      Attached, AboveIs, GrowRoom, Written, FatChains.Step, Owns, Need;
    ghost var b, rest, head, owned, v := PastOf(above), f.Rest(), f.Head(), f.Clusters(), f.fs.Vol();
    Remember(above, ys, chains, aid);
    OwnEntry(f, above, ys, k);
    ghost var cs;
    n, cs := f.WriteAt(offset, buf, chains, id);
    chains' := if cs == [] then chains else chains[id := owned + cs];
    WrittenChains(v, chains, id, owned, cs, f.fs.Vol());
    HomeStays(b.pos, chains, chains', {id}, id);
    OwnedAttached(b.g, f.fs.fat.Table(), f.Sde(), f.clusterChain.clusterVec, f.isDir, f.sdePos, chains', id);
    FileThere(b.g, f.sdePos, b.vec, ys, k);
    StoodInChains(b, ys, chains, aid);
    TouchedAttached(ys, k, f.Sde(), chains, chains');
    WrittenKeepsData(b.g, b.disk, f.fs.cache.Disk(), owned, f.Clusters(), offset, buf, f.Home());
    AboveStaysInOrder(above, f, b, rest, head, ys, k, chains, aid, chains', {id}, Elements(f.Clusters()));
  }

  lemma RemovedApart(chains: Chains, id: nat, fid: nat)
    requires id in chains && id != fid
    ensures SameBut(chains, chains, {id, fid}) && SameBut(chains, chains - {fid}, {id, fid}) && OfFiles(Elements(chains[id]), chains - {fid}, {id, fid})
  {
    var chains' := chains - {fid};
    forall c | c in Elements(chains[id])
      ensures exists f :: f in {id, fid} && f in chains' && c in chains'[f]
    {
      assert id in {id, fid} && id in chains' && c in chains'[id];
    }
  }

  lemma FileThere(g: Geometry, pos: DirEntryPos, vec: seq<nat>, ys: seq<Item>, k: nat)
    requires g.perCluster > 0 && IsFile(g, pos, vec, ys, k)
    ensures k < |ys| && ys[k].File?
  {
  }

  lemma NotTouched(ys: seq<Item>, k: nat)
    requires k < |ys| && ys[k].File?
    ensures Touched(ys, k, ys[k].short) == ys
  {
  }

  /** `remove` in a directory inside another one: the one above is not affected, provided it does not name the
      clusters that are given back. */
  method RemoveBelow(above: VirtFile, dir: VirtFile, name: seq<Byte>, ghost ys: seq<Item>, ghost k: nat, ghost xs: seq<Item>,
                     ghost chains: Chains, ghost aid: nat, ghost id: nat, ghost fid: nat)
    returns (found: bool, ghost chains': Chains)
    requires InOrder(above, ys, chains, aid) && LiesIn(dir, above, ys, k) && HomeIn(above.sdePos, chains, {id, fid}) && aid != id && aid != fid
    requires AllAttached(ys, chains - {fid})
    requires InOrder(dir, xs, chains, id) && Clean(name) && fid != id
    requires forall j :: Lookup(xs, name) == Some(j) && j < |xs| && xs[j].File? ==> Belongs(dir.fs.geometry, chains, id, fid, xs[j].short)
    requires fid in chains ==> dir.sdePos.cluster !in chains[fid]
    modifies dir.fs, dir.fs.fat, dir.fs.cache.Repr()
    ensures fresh(dir.fs.cache.Repr() - old(dir.fs.cache.Repr())) && dir.Valid() && dir.Clusters() == old(dir.Clusters())
    ensures InOrder(above, ys, chains', aid) && LiesIn(dir, above, ys, k) && HomeIn(above.sdePos, chains', {id})
    ensures (found <==> Lookup(xs, name).Some?) && chains' == if found then chains - {fid} else chains
    ensures forall j :: found && Lookup(xs, name) == Some(j) && OthersElsewhere(xs, j, chains, fid) ==>
              AllOk(xs) && j < |xs| && Live(xs[j]) && InOrder(dir, Removed(xs, j, name), chains', id)
    ensures !found ==> InOrder(dir, xs, chains', id)
  {
    hide Logical, CacheOk, Fat, BlockCacheManager.Valid, Capacity, InData, Entries, PlaceOk, FirstClusterOf, FileSizeOf, Agree, Owned, Chain,
      VolumeOk, Holds, DataKept, RestIn, Elements, EntryIn, AllAttached, Place, SameBut, OfFiles, HomeIn, StoodInOrder, IsFile,
      Removed, Lookup, Belongs, OthersElsewhere, FatChains.Step, EntriesStep, Touched;
    ghost var b, rest, head, cs := PastOf(above), dir.Rest(), dir.Head(), dir.Clusters();
    Remember(above, ys, chains, aid);
    OwnEntry(dir, above, ys, k);
    found := Directories.Remove(dir, name, xs, chains, id, fid);
    chains' := if found then chains - {fid} else chains;
    RemovedApart(chains, id, fid);
    HomeStays(b.pos, chains, chains', {id, fid}, id);
    if found {
      FileThere(b.g, dir.sdePos, b.vec, ys, k);
      NotTouched(ys, k);
      DataKeptMore(b.g, b.disk, dir.fs.cache.Disk(), Elements(cs), Elements(cs) + dir.Home());
      AboveStaysInOrder(above, dir, b, rest, head, ys, k, chains, aid, chains', {id, fid}, Elements(cs));
    }
  }
}
