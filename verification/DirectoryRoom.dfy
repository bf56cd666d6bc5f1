/** Room for a directory to grow, entry by entry.

    The scan for free clusters starts again at the first cluster of the directory for every growth, so what lies
    between that and the last queued cluster does not count. */
module DirectoryRoom {
  import opened Sequences
  import opened DirEntries
  import opened FatVolumes
  import opened FatChains
  import opened FatManagers
  import opened FatAllocation
  import opened ChainBytes
  import opened VirtFiles

  ghost function FreeUp(fat: FatTable, recycled: seq<nat>, start: nat): set<nat> {
    set c | c in fat && start < c && Cursor(recycled, start) < c && fat[c] == FREE_CLUSTER && c !in recycled
  }

  /** `num` clusters can be had, however many growths they are for. */
  ghost predicate Ample(fat: FatTable, recycled: seq<nat>, start: nat, num: nat) {
    num <= |recycled| || num - |recycled| <= |FreeUp(fat, recycled, start)|
  }

  /** A directory with the clusters `owned`, the first of which is `start`, can get `size` bytes long, and
      `spare` more clusters can be had. */
  ghost predicate DirRoom(g: Geometry, v: Volume, start: nat, owned: seq<nat>, size: nat, spare: nat)
    requires g.perCluster > 0
  {
    var need := Need(g, owned, size) + spare;
    need > 0 ==> ReservedEntries(v.fat) && need <= v.free && Ample(v.fat, v.recycled, start, need)
  }

  lemma NeedGrows(g: Geometry, owned: seq<nat>, newSize: nat, size: nat)
    requires g.perCluster > 0 && newSize <= size
    ensures Need(g, owned, newSize) <= Need(g, owned, size)
  {
    hide ClustersFor;
    ClustersForGrows(g, newSize, size);
  }

  lemma RoomForWrite(g: Geometry, v: Volume, e: DirEntry, owned: seq<nat>, newSize: nat, size: nat, spare: nat)
    requires g.perCluster > 0 && newSize <= size && DirRoom(g, v, FirstClusterOf(e), owned, size, spare)
    ensures GrowRoom(g, v, e, owned, newSize)
  {
    hide FirstClusterOf, FileSizeOf, Need;
    NeedGrows(g, owned, newSize, size);
    var start := FirstClusterOf(e);
    SubsetSize(FreeUp(v.fat, v.recycled, start), FreeAbove(v.fat, v.recycled, Cursor(v.recycled, start)));
  }

  /** With a cluster to spare an empty file gets its first one. */
  lemma RoomForFirst(g: Geometry, v: Volume, start: nat, owned: seq<nat>, dirSize: nat, spare: nat, e: DirEntry, size: nat)
    requires g.perCluster > 0 && DirRoom(g, v, start, owned, dirSize, spare) && spare > 0
    requires FirstClusterOf(e) == 0 && size <= g.ClusterSize()
    ensures GrowRoom(g, v, e, [], size)
  {
    hide FirstClusterOf, FileSizeOf, ClustersFor;
    ClustersForEnough(g, size, 1);
    SubsetSize(FreeUp(v.fat, v.recycled, start), FreeAbove(v.fat, v.recycled, Cursor(v.recycled, 0)));
  }

  lemma {:induction false} ElementsAtMost(s: seq<nat>)
    ensures |Elements(s)| <= |s|
  {
    if s != [] {
      var last := s[|s| - 1];
      ElementsAtMost(s[..|s| - 1]);
      assert s == s[..|s| - 1] + [last];
      assert Elements(s) == Elements(s[..|s| - 1]) + {last};
    }
  }

  /** Taking some of the clusters leaves room for the others, wherever the scan for them started. */
  lemma AmpleTaken(fat: FatTable, recycled: seq<nat>, start: nat, num: nat, cs: seq<nat>, fat': FatTable, recycled': seq<nat>)
    requires Ample(fat, recycled, start, num) && |cs| <= num && Allocated(fat, recycled, cs, fat', recycled')
    ensures Ample(fat', recycled', start, num - |cs|)
  {
    hide Chain;
    var up, up' := FreeUp(fat, recycled, start), FreeUp(fat', recycled', start);
    if |cs| <= |recycled| {
      if num > |recycled| {
        forall c | c in up
          ensures c in up'
        {
          assert c !in cs;
        }
        SubsetSize(up, up');
      }
    } else {
      var scanned := Elements(cs[|recycled|..]);
      forall c | c in up && c !in scanned
        ensures c in up'
      {
        assert cs == recycled + cs[|recycled|..];
        assert c !in cs;
      }
      SubsetSize(up - scanned, up');
      ElementsAtMost(cs[|recycled|..]);
      assert up - scanned == up - up * scanned;
      SubsetSize(up * scanned, scanned);
    }
  }

  /** A change of an entry in use takes no room. */
  lemma AmpleLinked(fat: FatTable, recycled: seq<nat>, start: nat, num: nat, last: nat, next: nat)
    requires Ample(fat, recycled, start, num) && last in fat && fat[last] != FREE_CLUSTER && next != FREE_CLUSTER
    ensures Ample(fat[last := next], recycled, start, num)
  {
    assert FreeUp(fat[last := next], recycled, start) == FreeUp(fat, recycled, start);
  }

  lemma ReservedStay(fat: FatTable, recycled: seq<nat>, cs: seq<nat>, fat1: FatTable, recycled': seq<nat>, last: nat)
    requires ReservedEntries(fat) && Allocated(fat, recycled, cs, fat1, recycled') && cs != [] && last >= 2
    ensures ReservedEntries(fat1[last := cs[0]])
  {
    assert forall c :: c in cs ==> c >= 2;
  }

  /** Growth by some of the clusters leaves room for the rest. */
  lemma RoomAfterWrite(g: Geometry, v: Volume, chains: Chains, id: nat, start: nat, owned: seq<nat>, newSize: nat, size: nat, spare: nat,
                       cs: seq<nat>, v': Volume)
    requires g.perCluster > 0 && VolumeOk(v, chains) && id in chains && chains[id] == owned
    requires newSize <= size && DirRoom(g, v, start, owned, size, spare)
    requires cs != [] && |cs| == Need(g, owned, newSize)
    requires Step(v, chains, Grow(id, |cs|), v', chains[id := owned + cs])
    ensures DirRoom(g, v', start, owned + cs, size, spare)
    ensures v'.free == v.free - |cs|
  {
    hide ClustersFor, Chain, QueueOk, Apart, Ample;
    var cs', fat1 :| |cs'| == |cs| > 0 && Allocated(v.fat, v.recycled, cs', fat1, v'.recycled) && v'.free == v.free - |cs|
                     && owned != [] && v'.fat == fat1[owned[|owned| - 1] := cs'[0]]
                     && chains[id := owned + cs] == chains[id := chains[id] + cs'];
    assert owned + cs == owned + cs' by { assert chains[id := owned + cs][id] == owned + cs; }
    assert (owned + cs)[|owned|..] == (owned + cs')[|owned|..];
    assert cs == cs';
    NeedGrows(g, owned, newSize, size);
    ChainNonZero(v.fat, owned);
    var last := owned[|owned| - 1];
    assert last in owned && owned[|owned| - 1] >= 2 by { LastIsData(v.fat, owned); }
    ReservedStay(v.fat, v.recycled, cs, fat1, v'.recycled, last);
    AmpleTaken(v.fat, v.recycled, start, Need(g, owned, size) + spare, cs, fat1, v'.recycled);
    TakenAreApart(v.fat, v.recycled, cs, fat1, v'.recycled, last);
    AmpleLinked(fat1, v'.recycled, start, Need(g, owned, size) + spare - |cs|, last, cs[0]);
  }

  lemma TakenAreApart(fat: FatTable, recycled: seq<nat>, cs: seq<nat>, fat1: FatTable, recycled': seq<nat>, last: nat)
    requires Allocated(fat, recycled, cs, fat1, recycled') && cs != [] && last in fat && fat[last] != FREE_CLUSTER
    ensures last in fat1 && fat1[last] != FREE_CLUSTER && cs[0] != FREE_CLUSTER
  {
    assert cs[0] in cs && last !in cs;
  }

  /** The first cluster of another file is taken from the spare ones. */
  lemma RoomAfterOther(g: Geometry, v: Volume, chains: Chains, start: nat, owned: seq<nat>, size: nat, spare: nat,
                       fid: nat, cs: seq<nat>, v': Volume)
    requires g.perCluster > 0 && DirRoom(g, v, start, owned, size, spare) && spare > 0 && fid !in chains && |cs| == 1
    requires Step(v, chains, Grow(fid, 1), v', chains[fid := cs])
    ensures DirRoom(g, v', start, owned, size, spare - 1)
  {
    hide ClustersFor, Chain, Ample, Need;
    var cs', fat1 :| |cs'| == 1 && Allocated(v.fat, v.recycled, cs', fat1, v'.recycled) && v'.free == v.free - 1 && v'.fat == fat1
                     && chains[fid := cs] == chains[fid := cs'];
    AmpleTaken(v.fat, v.recycled, start, Need(g, owned, size) + spare, cs', fat1, v'.recycled);
    assert forall c :: c in cs' ==> c >= 2 by { TakenAreData(v.fat, v.recycled, cs', fat1, v'.recycled); }
  }

  lemma TakenAreData(fat: FatTable, recycled: seq<nat>, cs: seq<nat>, fat1: FatTable, recycled': seq<nat>)
    requires Allocated(fat, recycled, cs, fat1, recycled')
    ensures forall c :: c in cs ==> c >= 2
  {
  }

  lemma LastIsData(fat: FatTable, cs: seq<nat>)
    requires Chain(fat, cs)
    ensures cs != [] && cs[|cs| - 1] >= 2
  {
  }
}
