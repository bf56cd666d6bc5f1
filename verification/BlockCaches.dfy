/** The write-back block cache of the FAT32 file system (crates/fat32/src/cache.rs).

    At most 64 blocks are kept, least recently used last.  `Disk()` is the disk a user of the cache sees;
    requests neither change it nor care about evictions. */
module BlockCaches {
  import opened LittleEndian
  import opened Options

  const BLOCK_SIZE: nat := 512
  const BLOCK_CACHE_LIMIT: nat := 64

  type Block = b: seq<Byte> | |b| == 512 witness seq(512, _ => 0)
  type Blocks = map<nat, Block>

  /** The block after `bytes` were stored at `offset`. */
  function Splice(b: Block, offset: nat, bytes: seq<Byte>): Block
    requires offset + |bytes| <= BLOCK_SIZE
  {
    b[..offset] + bytes + b[offset + |bytes|..]
  }

  class BlockDevice {
    var blocks: Blocks

    constructor (blocks: Blocks)
      ensures this.blocks == blocks
    {
      this.blocks := blocks;
    }

    method ReadBlock(blockId: nat) returns (b: Block)
      requires blockId in blocks
      ensures b == blocks[blockId]
    {
      b := blocks[blockId];
    }

    method WriteBlock(blockId: nat, b: Block)
      requires blockId in blocks
      modifies this
      ensures blocks == old(blocks)[blockId := b]
    {
      blocks := blocks[blockId := b];
    }
  }

  class BlockCache {
    const blockId: nat
    const device: BlockDevice
    var cache: Block
    var modified: bool
    /** How many users hold the block besides the manager. */
    var handles: nat

    ghost predicate Valid()
      reads this, device
    {
      && blockId in device.blocks
      && (!modified ==> cache == device.blocks[blockId])
    }

    constructor (blockId: nat, device: BlockDevice)
      requires blockId in device.blocks
      ensures Valid() && this.blockId == blockId && this.device == device
      ensures cache == device.blocks[blockId] && !modified && handles == 0
    {
      this.blockId, this.device := blockId, device;
      modified, handles := false, 0;
      cache := seq(512, _ => 0);
      new;
      cache := device.ReadBlock(blockId);
    }

    /** `modify`: the block counts as modified as soon as it was lent for writing. */
    method Modify(offset: nat, bytes: seq<Byte>)
      requires Valid() && offset + |bytes| <= BLOCK_SIZE
      modifies this
      ensures Valid() && modified && cache == Splice(old(cache), offset, bytes) && handles == old(handles)
    {
      modified := true;
      cache := Splice(cache, offset, bytes);
    }

    /** `sync`, also run when the cache is dropped. */
    method Sync()
      requires Valid()
      modifies this, device
      ensures Valid() && cache == old(cache) && handles == old(handles) && !modified
      ensures device.blocks == old(device.blocks)[blockId := cache]
    {
      if modified {
        modified := false;
        device.WriteBlock(blockId, cache);
      }
    }
  }

  // ---------------------------------------------------------------- the disk behind a cache

  /** A cached block: its number, its contents, and whether they differ from the device. */
  datatype Entry = Entry(id: nat, data: Block, dirty: bool)

  /** Distinct blocks, at most 64, and the clean ones are those of the device. */
  ghost predicate CacheOk(blocks: Blocks, es: seq<Entry>) {
    && |es| <= BLOCK_CACHE_LIMIT
    && (forall i, j :: 0 <= i < j < |es| ==> es[i].id != es[j].id)
    && (forall i :: 0 <= i < |es| ==> es[i].id in blocks && (!es[i].dirty ==> es[i].data == blocks[es[i].id]))
  }

  /** What block `b` reads as: the cached contents if there are any. */
  ghost function Look(blocks: Blocks, es: seq<Entry>, b: nat): Block
    requires b in blocks
  {
    if es == [] then blocks[b] else if es[0].id == b then es[0].data else Look(blocks, es[1..], b)
  }

  ghost function Logical(blocks: Blocks, es: seq<Entry>): Blocks {
    map b | b in blocks :: Look(blocks, es, b)
  }

  lemma {:induction false} LookHit(blocks: Blocks, es: seq<Entry>, i: nat)
    requires CacheOk(blocks, es) && i < |es|
    ensures Look(blocks, es, es[i].id) == es[i].data
  {
    if i > 0 {
      LookHit(blocks, es[1..], i - 1);
    }
  }

  lemma {:induction false} LookMiss(blocks: Blocks, es: seq<Entry>, b: nat)
    requires b in blocks && forall i :: 0 <= i < |es| ==> es[i].id != b
    ensures Look(blocks, es, b) == blocks[b]
  {
    if es != [] {
      LookMiss(blocks, es[1..], b);
    }
  }

  /** Two caches over two devices show the same block `b`. */
  lemma SameLook(blocks: Blocks, es: seq<Entry>, blocks': Blocks, es': seq<Entry>, b: nat)
    requires CacheOk(blocks, es) && CacheOk(blocks', es') && b in blocks && b in blocks'
    requires forall e :: e in es && e.id == b ==> exists e' :: e' in es' && e'.id == b && e'.data == e.data
    requires (forall e :: e in es ==> e.id != b) ==>
               (forall e' :: e' in es' && e'.id == b ==> e'.data == blocks[b]) && blocks'[b] == blocks[b]
    ensures Look(blocks', es', b) == Look(blocks, es, b)
  {
    if i :| 0 <= i < |es| && es[i].id == b {
      assert es[i] in es;
      var e' :| e' in es' && e'.id == b && e'.data == es[i].data;
      var j :| 0 <= j < |es'| && es'[j] == e';
      LookHit(blocks, es, i);
      LookHit(blocks', es', j);
    } else {
      LookMiss(blocks, es, b);
      if j :| 0 <= j < |es'| && es'[j].id == b {
        LookHit(blocks', es', j);
      } else {
        LookMiss(blocks', es', b);
      }
    }
  }

  lemma PromoteKeeps(blocks: Blocks, es: seq<Entry>, i: nat)
    requires CacheOk(blocks, es) && i < |es|
    ensures var es' := [es[i]] + es[..i] + es[i + 1..];
            CacheOk(blocks, es') && Logical(blocks, es') == Logical(blocks, es)
  {
    var es' := [es[i]] + es[..i] + es[i + 1..];
    assert es == es[..i] + [es[i]] + es[i + 1..];
    forall b | b in blocks
      ensures Look(blocks, es', b) == Look(blocks, es, b)
    {
      forall e | e in es && e.id == b
        ensures e in es'
      {
      }
      SameLook(blocks, es, blocks, es', b);
    }
  }

  lemma InsertKeeps(blocks: Blocks, es: seq<Entry>, id: nat)
    requires CacheOk(blocks, es) && |es| < BLOCK_CACHE_LIMIT && id in blocks
    requires forall i :: 0 <= i < |es| ==> es[i].id != id
    ensures var es' := [Entry(id, blocks[id], false)] + es;
            CacheOk(blocks, es') && Logical(blocks, es') == Logical(blocks, es)
  {
    var es' := [Entry(id, blocks[id], false)] + es;
    forall b | b in blocks
      ensures Look(blocks, es', b) == Look(blocks, es, b)
    {
      forall e | e in es && e.id == b
        ensures e in es'
      {
      }
      SameLook(blocks, es, blocks, es', b);
    }
  }

  /** Writing the last entry back and forgetting it. */
  lemma EvictKeeps(blocks: Blocks, es: seq<Entry>)
    requires CacheOk(blocks, es) && es != []
    ensures var last := es[|es| - 1];
            var blocks' := blocks[last.id := last.data];
            CacheOk(blocks', es[..|es| - 1]) && Logical(blocks', es[..|es| - 1]) == Logical(blocks, es)
  {
    var last := es[|es| - 1];
    var blocks' := blocks[last.id := last.data];
    var es' := es[..|es| - 1];
    forall b | b in blocks
      ensures Look(blocks', es', b) == Look(blocks, es, b)
    {
      if b == last.id {
        LookHit(blocks, es, |es| - 1);
        LookMiss(blocks', es', b);
      } else {
        forall e | e in es && e.id == b
          ensures e in es'
        {
          assert e != last;
        }
        SameLook(blocks, es, blocks', es', b);
      }
    }
  }

  /** Changing a cached block in place. */
  lemma ModifyShows(blocks: Blocks, es: seq<Entry>, i: nat, data: Block)
    requires CacheOk(blocks, es) && i < |es|
    ensures var es' := es[i := Entry(es[i].id, data, true)];
            CacheOk(blocks, es') && Logical(blocks, es') == Logical(blocks, es)[es[i].id := data]
  {
    var es' := es[i := Entry(es[i].id, data, true)];
    forall b | b in blocks
      ensures Look(blocks, es', b) == if b == es[i].id then data else Look(blocks, es, b)
    {
      if b == es[i].id {
        LookHit(blocks, es', i);
      } else {
        forall e | e in es && e.id == b
          ensures e in es'
        {
          var j :| 0 <= j < |es| && es[j] == e;
          assert es'[j] == e;
        }
        forall e' | e' in es' && e'.id == b
          ensures e' in es
        {
        }
        SameLook(blocks, es, blocks, es', b);
      }
    }
  }

  /** Writing one entry back leaves it clean. */
  lemma SyncKeeps(blocks: Blocks, es: seq<Entry>, i: nat)
    requires CacheOk(blocks, es) && i < |es|
    ensures var blocks' := blocks[es[i].id := es[i].data];
            var es' := es[i := es[i].(dirty := false)];
            CacheOk(blocks', es') && Logical(blocks', es') == Logical(blocks, es)
  {
    var blocks' := blocks[es[i].id := es[i].data];
    var es' := es[i := es[i].(dirty := false)];
    forall b | b in blocks
      ensures Look(blocks', es', b) == Look(blocks, es, b)
    {
      if j :| 0 <= j < |es| && es[j].id == b {
        assert es'[j].id == b && es'[j].data == es[j].data;
        LookHit(blocks, es, j);
        LookHit(blocks', es', j);
      } else {
        LookMiss(blocks, es, b);
        LookMiss(blocks', es', b);
      }
    }
  }

  /** A cache without modified blocks shows the device. */
  lemma CleanShowsDevice(blocks: Blocks, es: seq<Entry>)
    requires CacheOk(blocks, es) && forall i :: 0 <= i < |es| ==> !es[i].dirty
    ensures Logical(blocks, es) == blocks
  {
    forall b | b in blocks
      ensures Look(blocks, es, b) == blocks[b]
    {
      if j :| 0 <= j < |es| && es[j].id == b {
        LookHit(blocks, es, j);
      } else {
        LookMiss(blocks, es, b);
      }
    }
  }

  /** A block that is not cached is current on the device. */
  lemma UncachedIsCurrent(blocks: Blocks, es: seq<Entry>, b: nat)
    requires CacheOk(blocks, es) && b in blocks && forall i :: 0 <= i < |es| ==> es[i].id != b
    ensures Logical(blocks, es)[b] == blocks[b]
  {
    LookMiss(blocks, es, b);
  }

  // ---------------------------------------------------------------- the manager

  /** Where a block is in the cache. */
  function Find(lru: seq<BlockCache>, blockId: nat): (r: Option<nat>)
    ensures r.Some? ==> r.value < |lru| && lru[r.value].blockId == blockId
    ensures r == None ==> forall i :: 0 <= i < |lru| ==> lru[i].blockId != blockId
  {
    if lru == [] then None
    else if lru[0].blockId == blockId then Some(0)
    else match Find(lru[1..], blockId)
      case None => None
      case Some(i) => Some(i + 1)
  }

  class BlockCacheManager {
    const device: BlockDevice
    /** The cached blocks, most recently used first. */
    var lru: seq<BlockCache>
    ghost var entries: seq<Entry>

    ghost function Repr(): set<object>
      reads this
    {
      {this, device} + (set c | c in lru :: c as object)
    }

    ghost predicate Valid()
      reads this, device, lru
    {
      && CacheOk(device.blocks, entries)
      && |entries| == |lru|
      && (forall i :: 0 <= i < |lru| ==>
            && lru[i].device == device && lru[i].handles == 0
            && entries[i] == Entry(lru[i].blockId, lru[i].cache, lru[i].modified))
    }

    /** The disk as the users of the cache see it. */
    ghost function Disk(): Blocks
      reads this, device
    {
      Logical(device.blocks, entries)
    }

    /** The cache only decides what the blocks of the device read as. */
    lemma SameBlocks()
      ensures Disk().Keys == device.blocks.Keys
    {
    }

    constructor (device: BlockDevice)
      ensures Valid() && this.device == device && Disk() == device.blocks && fresh(Repr() - {device})
    {
      this.device := device;
      lru, entries := [], [];
    }

    /** A hit: the block moves to the front. */
    method Promote(i: nat)
      requires Valid() && i < |lru|
      modifies this
      ensures Valid() && Repr() == old(Repr()) && Disk() == old(Disk())
      ensures lru == [old(lru)[i]] + old(lru)[..i] + old(lru)[i + 1..]
    {
      PromoteKeeps(device.blocks, entries, i);
      SameElements(lru, i);
      lru := [lru[i]] + lru[..i] + lru[i + 1..];
      entries := [entries[i]] + entries[..i] + entries[i + 1..];
      assert forall c :: c in lru <==> c in old(lru);
    }

    /** The least recently used block leaves the cache, and its drop writes it back. */
    method PopLru()
      requires Valid() && |lru| > 0
      modifies this, device, lru[|lru| - 1]
      ensures Valid() && Repr() <= old(Repr()) && Disk() == old(Disk()) && device.blocks.Keys == old(device.blocks.Keys)
      ensures lru == old(lru)[..old(|lru|) - 1]
      ensures forall b :: b in device.blocks && b != old(lru[|lru| - 1]).blockId ==> device.blocks[b] == old(device.blocks)[b]
    {
      EvictKeeps(device.blocks, entries);
      var victim := lru[|lru| - 1];
      assert forall c :: c in lru[..|lru| - 1] ==> c in lru;
      lru := lru[..|lru| - 1];
      entries := entries[..|entries| - 1];
      victim.Sync();
      assert Repr() <= old(Repr()) by {
        assert forall c :: c in lru ==> c in old(lru);
      }
    }

    /** A block that was just read from the device enters at the front. */
    method Put(c: BlockCache)
      requires Valid() && |lru| < BLOCK_CACHE_LIMIT && c !in lru
      requires c.device == device && c.Valid() && !c.modified && c.handles == 0
      requires forall i :: 0 <= i < |lru| ==> lru[i].blockId != c.blockId
      modifies this
      ensures Valid() && lru == [c] + old(lru) && Repr() == old(Repr()) + {c} && Disk() == old(Disk())
    {
      InsertKeeps(device.blocks, entries, c.blockId);
      lru := [c] + lru;
      entries := [Entry(c.blockId, c.cache, false)] + entries;
      assert forall d :: d in lru <==> d == c || d in old(lru);
    }

    /** `get_block_cache`, with all handles dropped before. */
    method GetBlockCache(blockId: nat) returns (c: BlockCache)
      requires Valid() && blockId in device.blocks
      modifies Repr()
      ensures Valid() && fresh(Repr() - old(Repr())) && Disk() == old(Disk()) && device.blocks.Keys == old(device.blocks.Keys)
      ensures |lru| > 0 && lru[0] == c && c.blockId == blockId && c.cache == Disk()[blockId]
      // a miss in a full cache forgets the least recently used block, nothing else
      ensures match old(Find(lru, blockId))
              case Some(i) => lru == [old(lru)[i]] + old(lru)[..i] + old(lru)[i + 1..]
              case None => lru[1..] == if old(|lru|) == BLOCK_CACHE_LIMIT then old(lru)[..BLOCK_CACHE_LIMIT - 1] else old(lru)
    {
      var at := Find(lru, blockId);
      if at.Some? {
        c := lru[at.value];
        Promote(at.value);
      } else {
        c := new BlockCache(blockId, device);
        UncachedIsCurrent(device.blocks, entries, blockId);
        if |lru| == BLOCK_CACHE_LIMIT {
          var victim := lru[|lru| - 1];
          assert victim in lru && victim in Repr();
          if victim.handles == 0 {
            PopLru();
            Put(c);
          }
        } else {
          Put(c);
        }
      }
      LookHit(device.blocks, entries, 0);
    }

    /** A request that reads the block; the handle is dropped at the end. */
    method ReadBlock(blockId: nat) returns (b: Block)
      requires Valid() && blockId in device.blocks
      modifies Repr()
      ensures Valid() && fresh(Repr() - old(Repr())) && Disk() == old(Disk()) && device.blocks.Keys == old(device.blocks.Keys)
      ensures b == Disk()[blockId]
    {
      var c := GetBlockCache(blockId);
      b := c.cache;
    }

    /** A request that writes `bytes` at `offset` of the block. */
    method ModifyBlock(blockId: nat, offset: nat, bytes: seq<Byte>)
      requires Valid() && blockId in device.blocks && offset + |bytes| <= BLOCK_SIZE
      modifies Repr()
      ensures Valid() && fresh(Repr() - old(Repr())) && device.blocks.Keys == old(device.blocks.Keys)
      ensures Disk() == old(Disk())[blockId := Splice(old(Disk())[blockId], offset, bytes)]
    {
      hide Logical, Splice;
      var c := GetBlockCache(blockId);
      ModifyShows(device.blocks, entries, 0, Splice(c.cache, offset, bytes));
      assert forall j :: 0 < j < |lru| ==> entries[j].id != entries[0].id && lru[j] != c;
      assert c in lru;
      c.Modify(offset, bytes);
      entries := entries[0 := Entry(blockId, c.cache, true)];
    }

    /** `sync_all`: afterwards the device is the disk that the users see. */
    method SyncAll()
      requires Valid()
      modifies Repr()
      ensures Valid() && lru == old(lru) && Disk() == old(Disk())
      ensures device.blocks == Disk()
    {
      var i := 0;
      while i < |lru|
        invariant i <= |lru| && lru == old(lru)
        invariant Valid() && Disk() == old(Disk())
        invariant forall j :: 0 <= j < i ==> !entries[j].dirty
      {
        SyncKeeps(device.blocks, entries, i);
        assert lru[i] in lru && lru[i] in Repr();
        lru[i].Sync();
        entries := entries[i := entries[i].(dirty := false)];
        i := i + 1;
      }
      CleanShowsDevice(device.blocks, entries);
    }
  }

  lemma SameElements(lru: seq<BlockCache>, i: nat)
    requires i < |lru|
    ensures forall c :: c in [lru[i]] + lru[..i] + lru[i + 1..] <==> c in lru
  {
    assert lru == lru[..i] + [lru[i]] + lru[i + 1..];
  }
}
