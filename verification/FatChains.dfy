/** Cluster chains as linked lists in the file allocation table: what a well-formed volume is, and what
    growing, shrinking and deleting files does to it.

    The classes of `FileSystems` and `VirtFiles` are proved to take these steps. */
module FatChains {
  import opened Sequences
  import opened FatVolumes

  // ---------------------------------------------------------------- chains

  /** `cs` is a cluster chain of the table: acyclic, linked, and ended by an end-of-chain mark. */
  ghost predicate Chain(fat: FatTable, cs: seq<nat>) {
    && cs != [] && NoDuplicates(cs)
    && (forall i :: 0 <= i < |cs| ==> 2 <= cs[i] < END_OF_CLUSTER && cs[i] in fat)
    && (forall i :: 0 <= i < |cs| - 1 ==> fat[cs[i]] == cs[i + 1])
    && fat[cs[|cs| - 1]] >= END_OF_CLUSTER
  }

  /** Entry by entry: inside a chain there is a next cluster, at its end there is none. */
  lemma ChainEntry(fat: FatTable, cs: seq<nat>, i: nat)
    requires Chain(fat, cs) && i < |cs|
    ensures cs[i] in fat && fat[cs[i]] >= 2
    ensures i < |cs| - 1 <==> fat[cs[i]] < END_OF_CLUSTER
    ensures i < |cs| - 1 ==> fat[cs[i]] == cs[i + 1]
  {
    assert i < |cs| - 1 ==> 2 <= cs[i + 1] < END_OF_CLUSTER;
  }

  /** The table determines a chain by its first cluster. */
  lemma {:induction false} ChainUnique(fat: FatTable, a: seq<nat>, b: seq<nat>)
    requires Chain(fat, a) && Chain(fat, b) && a[0] == b[0]
    ensures a == b
  {
    ChainEntry(fat, a, 0);
    ChainEntry(fat, b, 0);
    if |a| == 1 {
      assert a == [a[0]] && b == [b[0]];
    } else {
      assert a[1] == b[1];
      ChainUnique(fat, a[1..], b[1..]);
      assert a == [a[0]] + a[1..] && b == [b[0]] + b[1..];
    }
  }

  /** A chain only depends on the entries of its clusters. */
  lemma ChainFrame(fat: FatTable, fat': FatTable, cs: seq<nat>)
    requires Chain(fat, cs)
    requires forall c :: c in cs ==> c in fat' && fat'[c] == fat[c]
    ensures Chain(fat', cs)
  {
  }

  /** Linking the end of one chain to the start of another. */
  lemma JoinChains(fat: FatTable, a: seq<nat>, b: seq<nat>)
    requires Chain(fat, a) && Chain(fat, b) && Elements(a) !! Elements(b)
    ensures Chain(fat[a[|a| - 1] := b[0]], a + b)
  {
    var fat' := fat[a[|a| - 1] := b[0]];
    var ab := a + b;
    forall i, j | 0 <= i < j < |ab|
      ensures ab[i] != ab[j]
    {
      assert ab[i] in (if i < |a| then Elements(a) else Elements(b));
      assert ab[j] in (if j < |a| then Elements(a) else Elements(b));
    }
    forall i | 0 <= i < |ab| - 1
      ensures fat'[ab[i]] == ab[i + 1]
    {
      assert i >= |a| ==> ab[i] in Elements(b);
      assert a[|a| - 1] in Elements(a);
    }
    assert ab[|ab| - 1] in Elements(b) && a[|a| - 1] in Elements(a);
  }

  /** Cutting a chain after its first `left` clusters. */
  lemma CutChain(fat: FatTable, cs: seq<nat>, left: nat, fat': FatTable)
    requires Chain(fat, cs) && 1 <= left <= |cs|
    requires forall i :: 0 <= i < left - 1 ==> cs[i] in fat' && fat'[cs[i]] == fat[cs[i]]
    requires cs[left - 1] in fat' && fat'[cs[left - 1]] >= END_OF_CLUSTER
    ensures Chain(fat', cs[..left])
  {
  }

  // ---------------------------------------------------------------- volumes

  /** What the file system keeps: the table, the queue of recycled clusters and the count of free ones. */
  datatype Volume = Volume(fat: FatTable, recycled: seq<nat>, free: int)

  /** The chain of every file. */
  type Chains = map<nat, seq<nat>>

  ghost predicate Apart(chains: Chains) {
    forall f, h :: f in chains && h in chains && f != h ==> Elements(chains[f]) !! Elements(chains[h])
  }

  /** Recycled clusters are listed once and have free entries. */
  ghost predicate QueueOk(fat: FatTable, recycled: seq<nat>) {
    && NoDuplicates(recycled)
    && (forall c :: c in recycled ==> 2 <= c < END_OF_CLUSTER && c in fat && fat[c] == FREE_CLUSTER)
  }

  ghost predicate VolumeOk(v: Volume, chains: Chains) {
    && (forall f :: f in chains ==> Chain(v.fat, chains[f]))
    && Apart(chains)
    && QueueOk(v.fat, v.recycled)
  }

  /** The clusters with free entries. */
  ghost function Zeros(fat: FatTable): set<nat> {
    set c | c in fat && fat[c] == FREE_CLUSTER
  }

  /** How far the count of free clusters is from the number of free entries. */
  ghost function Drift(v: Volume): int {
    v.free - |Zeros(v.fat)|
  }

  // ---------------------------------------------------------------- steps

  /** `cs` was taken from the free clusters and linked as a chain of its own: queued clusters first, in their
      order, then others. */
  ghost predicate Allocated(fat: FatTable, recycled: seq<nat>, cs: seq<nat>, fat': FatTable, recycled': seq<nat>) {
    && Chain(fat', cs) && fat'.Keys == fat.Keys
    && (forall c :: c in cs ==> c in fat && fat[c] == FREE_CLUSTER)
    && (forall c :: c in fat && c !in cs ==> fat'[c] == fat[c])
    && (if |cs| <= |recycled| then cs == recycled[..|cs|] && recycled' == recycled[|cs|..]
        else cs[..|recycled|] == recycled && recycled' == [])
  }

  /** The clusters of `cs` were given back: their entries are free, and they are queued. */
  ghost predicate Released(fat: FatTable, recycled: seq<nat>, cs: seq<nat>, fat': FatTable, recycled': seq<nat>) {
    && fat'.Keys == fat.Keys
    && (forall c :: c in fat ==> fat'[c] == if c in cs then FREE_CLUSTER else fat[c])
    && recycled' == recycled + cs
  }

  /** Changes to the chains of the files, by number of clusters. */
  datatype Event =
    | Grow(f: nat, num: nat)
    | Shrink(f: nat, left: nat)
    | Delete(f: nat)

  /** A file gets a chain, or its chain gets longer at the end. */
  ghost predicate Grown(v: Volume, chains: Chains, f: nat, num: nat, v': Volume, chains': Chains) {
    exists cs, fat1 ::
      && |cs| == num > 0
      && Allocated(v.fat, v.recycled, cs, fat1, v'.recycled)
      && v'.free == v.free - num
      && (if f in chains then
            && chains[f] != []
            && v'.fat == fat1[chains[f][|chains[f]| - 1] := cs[0]] && chains' == chains[f := chains[f] + cs]
          else
            && v'.fat == fat1 && chains' == chains[f := cs])
  }

  ghost predicate Shrunk(v: Volume, chains: Chains, f: nat, left: nat, v': Volume, chains': Chains) {
    && f in chains && 1 <= left <= |chains[f]|
    && (exists fat1 ::
          && Released(v.fat, v.recycled, chains[f][left..], fat1, v'.recycled)
          && v'.fat == fat1[chains[f][left - 1] := END_OF_CLUSTER])
    && v'.free == v.free + |chains[f][left..]|
    && chains' == chains[f := chains[f][..left]]
  }

  ghost predicate Deleted(v: Volume, chains: Chains, f: nat, v': Volume, chains': Chains) {
    && f in chains
    && Released(v.fat, v.recycled, chains[f], v'.fat, v'.recycled)
    && v'.free == v.free + |chains[f]|
    && chains' == chains - {f}
  }

  ghost predicate Step(v: Volume, chains: Chains, e: Event, v': Volume, chains': Chains) {
    match e
    case Grow(f, num) => Grown(v, chains, f, num, v', chains')
    case Shrink(f, left) => Shrunk(v, chains, f, left, v', chains')
    case Delete(f) => Deleted(v, chains, f, v', chains')
  }

  // ---------------------------------------------------------------- counting

  lemma ZerosTaken(fat: FatTable, cs: seq<nat>, fat': FatTable)
    requires NoDuplicates(cs) && fat'.Keys == fat.Keys
    requires forall c :: c in cs ==> c in fat && fat[c] == FREE_CLUSTER && fat'[c] != FREE_CLUSTER
    requires forall c :: c in fat && c !in cs ==> (fat'[c] == FREE_CLUSTER <==> fat[c] == FREE_CLUSTER)
    ensures |Zeros(fat')| == |Zeros(fat)| - |cs|
  {
    ElementsCount(cs);
    assert Zeros(fat) == Zeros(fat') + Elements(cs);
  }

  lemma ZerosGiven(fat: FatTable, cs: seq<nat>, fat': FatTable)
    requires NoDuplicates(cs) && fat'.Keys == fat.Keys
    requires forall c :: c in cs ==> c in fat && fat[c] != FREE_CLUSTER && fat'[c] == FREE_CLUSTER
    requires forall c :: c in fat && c !in cs ==> (fat'[c] == FREE_CLUSTER <==> fat[c] == FREE_CLUSTER)
    ensures |Zeros(fat')| == |Zeros(fat)| + |cs|
  {
    ZerosTaken(fat', cs, fat);
  }

  lemma ChainNonZero(fat: FatTable, cs: seq<nat>)
    requires Chain(fat, cs)
    ensures forall c :: c in cs ==> c in fat && fat[c] >= 2
  {
    forall c | c in cs
      ensures c in fat && fat[c] >= 2
    {
      var i :| 0 <= i < |cs| && cs[i] == c;
      ChainEntry(fat, cs, i);
    }
  }

  // ---------------------------------------------------------------- one step

  lemma AllocatedKeepsChains(v: Volume, chains: Chains, cs: seq<nat>, fat': FatTable, recycled': seq<nat>)
    requires VolumeOk(v, chains) && Allocated(v.fat, v.recycled, cs, fat', recycled')
    ensures forall f :: f in chains ==> Chain(fat', chains[f]) && Elements(chains[f]) !! Elements(cs)
    ensures QueueOk(fat', recycled')
    ensures |Zeros(fat')| == |Zeros(v.fat)| - |cs|
  {
    forall f | f in chains
      ensures Chain(fat', chains[f]) && Elements(chains[f]) !! Elements(cs)
    {
      ChainNonZero(v.fat, chains[f]);
      ChainFrame(v.fat, fat', chains[f]);
    }
    forall c | c in recycled'
      ensures 2 <= c < END_OF_CLUSTER && c in fat' && fat'[c] == FREE_CLUSTER
    {
      assert c in v.recycled && c !in cs;
    }
    ChainNonZero(fat', cs);
    ZerosTaken(v.fat, cs, fat');
  }

  lemma GrownKeeps(v: Volume, chains: Chains, f: nat, num: nat, v': Volume, chains': Chains)
    requires VolumeOk(v, chains) && Grown(v, chains, f, num, v', chains')
    ensures VolumeOk(v', chains') && Drift(v') == Drift(v)
  {
    var cs, fat1 :| && |cs| == num > 0
                    && Allocated(v.fat, v.recycled, cs, fat1, v'.recycled)
                    && v'.free == v.free - num
                    && (if f in chains then
                          && chains[f] != []
                          && v'.fat == fat1[chains[f][|chains[f]| - 1] := cs[0]] && chains' == chains[f := chains[f] + cs]
                        else
                          && v'.fat == fat1 && chains' == chains[f := cs]);
    hide Chain, QueueOk, Apart;
    AllocatedKeepsChains(v, chains, cs, fat1, v'.recycled);
    if f in chains {
      GrownTail(fat1, chains, f, cs, v'.fat, v'.recycled);
    } else {
      NewChainApart(chains, f, cs);
    }
  }

  lemma NewChainApart(chains: Chains, f: nat, cs: seq<nat>)
    requires Apart(chains) && f !in chains && forall h :: h in chains ==> Elements(chains[h]) !! Elements(cs)
    ensures Apart(chains[f := cs])
  {
  }

  /** The new clusters are hung behind the last one of file `f`. */
  lemma GrownTail(fat1: FatTable, chains: Chains, f: nat, cs: seq<nat>, fat': FatTable, recycled: seq<nat>)
    requires f in chains && chains[f] != [] && Chain(fat1, cs) && Apart(chains) && QueueOk(fat1, recycled)
    requires forall h :: h in chains ==> Chain(fat1, chains[h]) && Elements(chains[h]) !! Elements(cs)
    requires fat' == fat1[chains[f][|chains[f]| - 1] := cs[0]]
    ensures forall h :: h in chains && h != f ==> Chain(fat', chains[h])
    ensures Chain(fat', chains[f] + cs) && Apart(chains[f := chains[f] + cs])
    ensures QueueOk(fat', recycled) && Zeros(fat') == Zeros(fat1)
  {
    var last := chains[f][|chains[f]| - 1];
    assert last in Elements(chains[f]);
    JoinChains(fat1, chains[f], cs);
    ChainEntry(fat1, chains[f], |chains[f]| - 1);
    forall h | h in chains && h != f
      ensures Chain(fat', chains[h])
    {
      assert last !in Elements(chains[h]);
      ChainFrame(fat1, fat', chains[h]);
    }
    assert Elements(chains[f] + cs) == Elements(chains[f]) + Elements(cs);
  }

  lemma ReleasedKeeps(v: Volume, chains: Chains, f: nat, cs: seq<nat>, fat': FatTable, recycled': seq<nat>)
    requires VolumeOk(v, chains) && f in chains && Elements(cs) <= Elements(chains[f]) && NoDuplicates(cs)
    requires Released(v.fat, v.recycled, cs, fat', recycled')
    ensures forall h :: h in chains && h != f ==> Chain(fat', chains[h])
    ensures QueueOk(fat', recycled')
    ensures |Zeros(fat')| == |Zeros(v.fat)| + |cs|
  {
    ChainNonZero(v.fat, chains[f]);
    forall c | c in cs
      ensures c in v.fat && v.fat[c] >= 2 && 2 <= c < END_OF_CLUSTER
    {
      assert c in Elements(cs);
      assert c in chains[f];
    }
    forall h | h in chains && h != f
      ensures Chain(fat', chains[h])
    {
      forall c | c in chains[h]
        ensures c !in cs
      {
        assert c in Elements(chains[h]);
        assert c in cs ==> c in Elements(cs);
      }
      ChainFrame(v.fat, fat', chains[h]);
    }
    forall i, j | 0 <= i < j < |recycled'|
      ensures recycled'[i] != recycled'[j]
    {
      assert i < |v.recycled| ==> recycled'[i] in v.recycled;
      assert j >= |v.recycled| ==> recycled'[j] in cs;
    }
    ZerosGiven(v.fat, cs, fat');
  }

  lemma ShrunkKeeps(v: Volume, chains: Chains, f: nat, left: nat, v': Volume, chains': Chains)
    requires VolumeOk(v, chains) && Shrunk(v, chains, f, left, v', chains')
    ensures VolumeOk(v', chains') && Drift(v') == Drift(v)
  {
    hide Chain, QueueOk, Apart, Zeros, Released;
    var cs := chains[f];
    var fat1 :| Released(v.fat, v.recycled, cs[left..], fat1, v'.recycled) && v'.fat == fat1[cs[left - 1] := END_OF_CLUSTER];
    TailPart(v.fat, cs, left);
    ReleasedKeeps(v, chains, f, cs[left..], fat1, v'.recycled);
    ShrunkHead(v.fat, v.recycled, chains, f, left, fat1, v'.recycled);
    ShrunkRest(fat1, v'.recycled, chains, f, left);
  }

  lemma TailPart(fat: FatTable, cs: seq<nat>, left: nat)
    requires Chain(fat, cs) && 1 <= left <= |cs|
    ensures Elements(cs[left..]) <= Elements(cs) && NoDuplicates(cs[left..])
  {
  }

  /** What is left of a shrunk chain is a chain, and its last cluster is still in use. */
  lemma ShrunkHead(fat: FatTable, recycled: seq<nat>, chains: Chains, f: nat, left: nat, fat1: FatTable, recycled': seq<nat>)
    requires f in chains && Chain(fat, chains[f]) && 1 <= left <= |chains[f]|
    requires Released(fat, recycled, chains[f][left..], fat1, recycled')
    ensures var last := chains[f][left - 1];
            && last in fat1 && fat1[last] != FREE_CLUSTER && last in Elements(chains[f])
            && Chain(fat1[last := END_OF_CLUSTER], chains[f][..left])
  {
    var cs := chains[f];
    forall i | 0 <= i < left
      ensures cs[i] !in cs[left..]
    {
    }
    ChainEntry(fat, cs, left - 1);
    CutChain(fat, cs, left, fat1[cs[left - 1] := END_OF_CLUSTER]);
  }

  lemma ShrunkRest(fat1: FatTable, recycled: seq<nat>, chains: Chains, f: nat, left: nat)
    requires f in chains && 1 <= left <= |chains[f]| && Apart(chains) && QueueOk(fat1, recycled)
    requires forall h :: h in chains && h != f ==> Chain(fat1, chains[h])
    requires var last := chains[f][left - 1]; last in fat1 && fat1[last] != FREE_CLUSTER && last in Elements(chains[f])
    ensures var fat' := fat1[chains[f][left - 1] := END_OF_CLUSTER];
            && (forall h :: h in chains && h != f ==> Chain(fat', chains[h]))
            && QueueOk(fat', recycled) && Zeros(fat') == Zeros(fat1)
    ensures Apart(chains[f := chains[f][..left]])
  {
    var last := chains[f][left - 1];
    var fat' := fat1[last := END_OF_CLUSTER];
    forall h | h in chains && h != f
      ensures Chain(fat', chains[h])
    {
      assert last !in Elements(chains[h]);
      ChainFrame(fat1, fat', chains[h]);
    }
    assert Elements(chains[f][..left]) <= Elements(chains[f]);
  }

  lemma DeletedKeeps(v: Volume, chains: Chains, f: nat, v': Volume, chains': Chains)
    requires VolumeOk(v, chains) && Deleted(v, chains, f, v', chains')
    ensures VolumeOk(v', chains') && Drift(v') == Drift(v)
  {
    ReleasedKeeps(v, chains, f, chains[f], v'.fat, v'.recycled);
  }

  /** Every step keeps the volume in order, and the count of free clusters follows the table. */
  lemma StepKeeps(v: Volume, chains: Chains, e: Event, v': Volume, chains': Chains)
    requires VolumeOk(v, chains) && Step(v, chains, e, v', chains')
    ensures VolumeOk(v', chains') && Drift(v') == Drift(v)
  {
    hide VolumeOk, Grown, Shrunk, Deleted, Drift;
    match e
    case Grow(f, num) => GrownKeeps(v, chains, f, num, v', chains');
    case Shrink(f, left) => ShrunkKeeps(v, chains, f, left, v', chains');
    case Delete(f) => DeletedKeeps(v, chains, f, v', chains');
  }

  // ---------------------------------------------------------------- runs

  /** A volume with its files, as the run goes. */
  datatype Moment = Moment(v: Volume, chains: Chains)

  ghost predicate IsRun(ms: seq<Moment>, es: seq<Event>) {
    && |ms| == |es| + 1
    && (forall i :: 0 <= i < |es| ==> Step(ms[i].v, ms[i].chains, es[i], ms[i + 1].v, ms[i + 1].chains))
  }

  /** Over all runs of growing, shrinking and deleting files every chain stays acyclic, ended and apart from
      the others, the queue holds free clusters only, and the free count minus the free entries is constant. */
  lemma {:induction false} RunsKeepVolume(ms: seq<Moment>, es: seq<Event>)
    requires IsRun(ms, es) && VolumeOk(ms[0].v, ms[0].chains)
    ensures VolumeOk(ms[|es|].v, ms[|es|].chains) && Drift(ms[|es|].v) == Drift(ms[0].v)
    decreases |es|
  {
    hide VolumeOk, Drift, Step;
    if es != [] {
      StepKeeps(ms[0].v, ms[0].chains, es[0], ms[1].v, ms[1].chains);
      RunsKeepVolume(ms[1..], es[1..]);
    }
  }
}
