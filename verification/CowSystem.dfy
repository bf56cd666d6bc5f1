/** Copy-on-write address spaces as a transition system.

    A state is what the kernel keeps about user memory: the reference counts, the bytes of every frame
    and, for each process, the meaning of its page table, the frames that table lies in, its frame
    trackers and the pages of its areas.  The steps are what the memory manager does to that state
    (kernel/src/mm/memory_set.rs); the classes of `MemorySets` are proved to perform them. */
module CowSystem {
  import opened Sv39

  /** A page of an area: whether the area may be written, and whether it holds trap contexts. */
  datatype Kind = Kind(writable: bool, trap: bool)

  datatype Space = Space(pt: map<nat, Pte>, tables: set<nat>, frames: map<nat, nat>, pages: map<nat, Kind>)

  datatype State = State(refs: map<nat, nat>, mem: Memory, spaces: map<nat, Space>)

  /** The entry that both sides of a fork are left with: readable as before, not writable, marked COW. */
  function Protect(e: Pte): Pte {
    e.(flags := AddFlags(ClearFlags(e.flags, W), COW))
  }

  /** The entry of a page whose frame turned out to have one tracker. */
  function Unprotect(e: Pte): Pte {
    e.(flags := AddFlags(ClearFlags(e.flags, COW), W))
  }

  /** The entry of a page that got its own copy, frame `f`.  The COW mark stays. */
  function Adopt(e: Pte, f: nat): Pte {
    Pte(f, AddFlags(e.flags, W))
  }

  // ---------------------------------------------------------------- trackers

  /** Who holds a tracker: a frame map, at a page, or a page table. */
  datatype Holder = Data(p: nat, v: nat) | Table(p: nat)

  ghost function Mine(sp: Space, f: nat): set<nat> {
    set v | v in sp.frames && sp.frames[v] == f
  }

  /** The holders of frame `f` in process `p`. */
  ghost function Own(p: nat, sp: Space, f: nat): set<Holder> {
    (set v | v in Mine(sp, f) :: Data(p, v)) + (if f in sp.tables then {Table(p)} else {})
  }

  /** All live trackers of frame `f`. */
  ghost function Holders(spaces: map<nat, Space>, f: nat): set<Holder> {
    set p, h | p in spaces && h in Own(p, spaces[p], f) :: h
  }

  /** Every count is the number of live trackers, and only tracked frames are counted. */
  ghost predicate Exact(refs: map<nat, nat>, spaces: map<nat, Space>) {
    forall f ::
      && (f in refs <==> Holders(spaces, f) != {})
      && (f in refs ==> refs[f] == |Holders(spaces, f)|)
  }

  // ---------------------------------------------------------------- invariant

  /** A page with a frame: the table points at the tracked frame, and the permission bits follow the area. */
  ghost predicate PageOk(refs: map<nat, nat>, mem: Memory, sp: Space, v: nat)
    requires v in sp.frames
  {
    var f := sp.frames[v];
    && v in sp.pages && v in sp.pt && sp.pt[v].ppn == f && sp.pt[v].Valid()
    && f in mem && f in refs && f !in sp.tables
    // a writable page is nobody else's
    && (sp.pt[v].Writable() ==> refs[f] == 1 && sp.pages[v].writable)
    && (sp.pages[v].writable ==> sp.pt[v].Writable() || sp.pt[v].IsCow())
    && (sp.pages[v].trap ==> sp.pt[v].Writable() && !sp.pt[v].IsCow())
  }

  /** A mapping without a frame of ours: the trampolines. */
  ghost predicate Fixed(sp: Space, v: nat)
    requires v in sp.pt
  {
    v !in sp.pages && !sp.pt[v].Writable() && !sp.pt[v].IsCow()
  }

  ghost predicate SpaceOk(refs: map<nat, nat>, mem: Memory, sp: Space) {
    && (forall v :: v in sp.frames ==> PageOk(refs, mem, sp, v))
    && (forall v :: v in sp.pt ==> v in sp.frames || Fixed(sp, v))
    && (forall t :: t in sp.tables ==> t in mem && t in refs && refs[t] == 1)
    && (forall v :: v in sp.pages ==> v < VPN_LIMIT)
  }

  ghost predicate Inv(s: State) {
    && Exact(s.refs, s.spaces)
    && (forall p :: p in s.spaces ==> SpaceOk(s.refs, s.mem, s.spaces[p]))
  }

  // ---------------------------------------------------------------- the eager machine

  /** The specification: every process owns the bytes of all its pages. */
  type Eager = map<nat, map<nat, Page>>

  /** What page `v` reads as: the mapped frame, or zeros where nothing has been touched yet. */
  ghost function View(mem: Memory, sp: Space, v: nat): Page {
    if v in sp.pt && sp.pt[v].ppn in mem then mem[sp.pt[v].ppn] else ZeroPage()
  }

  ghost function Bytes(mem: Memory, sp: Space): map<nat, Page> {
    map v | v in sp.pages :: View(mem, sp, v)
  }

  ghost function Abstract(s: State): Eager {
    map p | p in s.spaces :: Bytes(s.mem, s.spaces[p])
  }

  // ---------------------------------------------------------------- counting lemmas

  lemma OwnDisjoint(p: nat, sp: Space, q: nat, sq: Space, f: nat)
    requires p != q
    ensures Own(p, sp, f) !! Own(q, sq, f)
  {
  }

  /** The holders outside process `p`. */
  ghost function Others(spaces: map<nat, Space>, p: nat, f: nat): set<Holder> {
    Holders(spaces - {p}, f)
  }

  lemma HoldersSplit(spaces: map<nat, Space>, p: nat, f: nat)
    requires p in spaces
    ensures Holders(spaces, f) == Others(spaces, p, f) + Own(p, spaces[p], f)
    ensures Others(spaces, p, f) !! Own(p, spaces[p], f)
    ensures |Holders(spaces, f)| == |Others(spaces, p, f)| + |Own(p, spaces[p], f)|
  {
    hide Own;
    forall h | h in Others(spaces, p, f)
      ensures h !in Own(p, spaces[p], f) && h in Holders(spaces, f)
    {
      var q :| q in spaces - {p} && h in Own(q, spaces[q], f);
      OwnDisjoint(q, spaces[q], p, spaces[p], f);
    }
    forall h | h in Holders(spaces, f)
      ensures h in Others(spaces, p, f) + Own(p, spaces[p], f)
    {
      var q :| q in spaces && h in Own(q, spaces[q], f);
      if q != p {
        assert q in spaces - {p} && h in Own(q, (spaces - {p})[q], f);
      }
    }
  }

  lemma {:induction false} DataSize(p: nat, vs: set<nat>)
    ensures |set v | v in vs :: Data(p, v)| == |vs|
  {
    if vs != {} {
      var v :| v in vs;
      DataSize(p, vs - {v});
      assert (set u | u in vs :: Data(p, u)) == (set u | u in vs - {v} :: Data(p, u)) + {Data(p, v)};
    }
  }

  lemma OwnSize(p: nat, sp: Space, f: nat)
    ensures |Own(p, sp, f)| == |Mine(sp, f)| + (if f in sp.tables then 1 else 0)
    ensures Own(p, sp, f) == {} <==> Mine(sp, f) == {} && f !in sp.tables
  {
    DataSize(p, Mine(sp, f));
    assert Table(p) !in (set v | v in Mine(sp, f) :: Data(p, v));
    if Mine(sp, f) != {} {
      var v :| v in Mine(sp, f);
      assert Data(p, v) in Own(p, sp, f);
    }
  }

  /** How many trackers of `f` a process holds. */
  ghost function Count(sp: Space, f: nat): nat {
    |Mine(sp, f)| + (if f in sp.tables then 1 else 0)
  }

  ghost function Total(refs: map<nat, nat>, f: nat): nat {
    if f in refs then refs[f] else 0
  }

  const EMPTY: Space := Space(map[], {}, map[], map[])

  ghost function At(spaces: map<nat, Space>, p: nat): Space {
    if p in spaces then spaces[p] else EMPTY
  }

  /** The counts moved with the trackers of one process, whose space went from `sp` to `sp'`. */
  ghost predicate Moved(refs: map<nat, nat>, sp: Space, refs': map<nat, nat>, sp': Space) {
    && (forall f :: Total(refs', f) == Total(refs, f) - Count(sp, f) + Count(sp', f))
    && (forall f :: f in refs' ==> refs'[f] > 0)
  }

  lemma HoldersAt(spaces: map<nat, Space>, p: nat, f: nat)
    ensures |Holders(spaces, f)| == |Others(spaces, p, f)| + Count(At(spaces, p), f)
  {
    hide Own, Holders, Mine;
    if p in spaces {
      HoldersSplit(spaces, p, f);
      OwnSize(p, spaces[p], f);
    } else {
      assert spaces - {p} == spaces;
      assert Count(EMPTY, f) == 0 by { assert Mine(EMPTY, f) == {} by { EmptyMine(f); } }
    }
  }

  lemma EmptyMine(f: nat)
    ensures Mine(EMPTY, f) == {}
  {
  }

  lemma TotalIsHolders(refs: map<nat, nat>, spaces: map<nat, Space>, f: nat)
    requires Exact(refs, spaces)
    ensures Total(refs, f) == |Holders(spaces, f)|
  {
    hide Holders;
  }

  /** No process holds more trackers of a frame than are counted. */
  lemma CountBounded(refs: map<nat, nat>, spaces: map<nat, Space>, p: nat, f: nat)
    requires Exact(refs, spaces)
    ensures Count(At(spaces, p), f) <= Total(refs, f)
  {
    hide Holders, Count;
    HoldersAt(spaces, p, f);
    TotalIsHolders(refs, spaces, f);
  }

  /** If `q` holds a frame that is counted once, nobody else holds it. */
  lemma SingleHolder(refs: map<nat, nat>, spaces: map<nat, Space>, p: nat, q: nat, f: nat)
    requires Exact(refs, spaces) && p != q
    ensures Count(At(spaces, p), f) + Count(At(spaces, q), f) <= Total(refs, f)
  {
    hide Holders, Count, Own;
    HoldersAt(spaces, p, f);
    TotalIsHolders(refs, spaces, f);
    HoldersAt(spaces - {p}, q, f);
    assert At(spaces - {p}, q) == At(spaces, q);
  }

  lemma ExactAfter(refs: map<nat, nat>, spaces: map<nat, Space>, p: nat, sp': Space, refs': map<nat, nat>)
    requires Exact(refs, spaces)
    requires Moved(refs, At(spaces, p), refs', sp')
    ensures Exact(refs', spaces[p := sp'])
  {
    hide Holders, Count, Own;
    forall f
      ensures Total(refs', f) == |Holders(spaces[p := sp'], f)|
    {
      ReplacedHolders(refs, spaces, p, sp', refs', f);
    }
    forall f
      ensures f in refs' <==> Holders(spaces[p := sp'], f) != {}
      ensures f in refs' ==> refs'[f] == |Holders(spaces[p := sp'], f)|
    {
      assert Total(refs', f) == |Holders(spaces[p := sp'], f)|;
    }
  }

  lemma ReplacedHolders(refs: map<nat, nat>, spaces: map<nat, Space>, p: nat, sp': Space, refs': map<nat, nat>, f: nat)
    requires Exact(refs, spaces)
    requires Moved(refs, At(spaces, p), refs', sp')
    ensures Total(refs', f) == |Holders(spaces[p := sp'], f)|
  {
    hide Holders, Count, Own;
    TotalIsHolders(refs, spaces, f);
    HoldersAt(spaces, p, f);
    HoldersAt(spaces[p := sp'], p, f);
    assert spaces[p := sp'] - {p} == spaces - {p};
  }

  lemma ExactAfterRemoval(refs: map<nat, nat>, spaces: map<nat, Space>, p: nat, refs': map<nat, nat>)
    requires Exact(refs, spaces)
    requires Moved(refs, At(spaces, p), refs', EMPTY)
    ensures Exact(refs', spaces - {p})
  {
    hide Holders, Count, Own;
    forall f
      ensures Total(refs', f) == |Holders(spaces - {p}, f)|
    {
      TotalIsHolders(refs, spaces, f);
      HoldersAt(spaces, p, f);
      EmptyCount(f);
    }
    forall f
      ensures f in refs' <==> Holders(spaces - {p}, f) != {}
      ensures f in refs' ==> refs'[f] == |Holders(spaces - {p}, f)|
    {
      assert Total(refs', f) == |Holders(spaces - {p}, f)|;
    }
  }

  lemma EmptyCount(f: nat)
    ensures Count(EMPTY, f) == 0
  {
    EmptyMine(f);
  }

  // ---------------------------------------------------------------- one process steps

  /** What process `sq` needs of a step of somebody else: its frames keep their bytes and stay counted,
      and those it may write or walk through keep their count. */
  ghost predicate Undisturbed(refs: map<nat, nat>, mem: Memory, sq: Space, refs': map<nat, nat>, mem': Memory) {
    && mem'.Keys == mem.Keys
    && (forall v :: v in sq.frames && sq.frames[v] in mem ==>
          && sq.frames[v] in refs' && mem'[sq.frames[v]] == mem[sq.frames[v]]
          && (v in sq.pt && sq.pt[v].Writable() ==> refs'[sq.frames[v]] == Total(refs, sq.frames[v])))
    && (forall t :: t in sq.tables ==> t in refs' && refs'[t] == Total(refs, t))
  }

  lemma UndisturbedKeeps(refs: map<nat, nat>, mem: Memory, sq: Space, refs': map<nat, nat>, mem': Memory)
    requires SpaceOk(refs, mem, sq)
    requires Undisturbed(refs, mem, sq, refs', mem')
    ensures SpaceOk(refs', mem', sq)
    ensures Bytes(mem', sq) == Bytes(mem, sq)
  {
    hide Pte.Writable, Pte.IsCow, Pte.Valid;
    forall v | v in sq.frames
      ensures PageOk(refs', mem', sq, v)
    {
      assert PageOk(refs, mem, sq, v);
    }
    forall v | v in sq.pages
      ensures View(mem', sq, v) == View(mem, sq, v)
    {
      if v in sq.pt {
        assert v in sq.frames || Fixed(sq, v);
        assert PageOk(refs, mem, sq, v);
      }
    }
  }

  /** The effect of a step of a process with space `sp` on frames that others hold. */
  ghost predicate Considerate(refs: map<nat, nat>, mem: Memory, sp: Space, refs': map<nat, nat>, mem': Memory) {
    && mem'.Keys == mem.Keys
    && (forall f :: f in refs && f in mem && Count(sp, f) < refs[f] ==>
          && f in refs' && mem'[f] == mem[f]
          && (Count(sp, f) == 0 ==> refs'[f] == refs[f]))
  }

  lemma Holds(sp: Space, v: nat)
    requires v in sp.frames
    ensures Count(sp, sp.frames[v]) > 0
  {
    assert v in Mine(sp, sp.frames[v]);
  }

  lemma HoldsTable(sp: Space, t: nat)
    requires t in sp.tables
    ensures Count(sp, t) > 0
  {
  }

  lemma OthersUndisturbed(s: State, p: nat, refs': map<nat, nat>, mem': Memory, q: nat)
    requires Inv(s) && q in s.spaces && q != p
    requires Considerate(s.refs, s.mem, At(s.spaces, p), refs', mem')
    ensures Undisturbed(s.refs, s.mem, s.spaces[q], refs', mem')
  {
    hide Exact, Count, Pte.Writable, Pte.IsCow, Pte.Valid;
    var sq := s.spaces[q];
    var sp := At(s.spaces, p);
    assert SpaceOk(s.refs, s.mem, sq);
    forall v | v in sq.frames
      ensures var f := sq.frames[v];
              && f in refs' && mem'[f] == s.mem[f]
              && (sq.pt[v].Writable() ==> refs'[f] == s.refs[f])
    {
      assert PageOk(s.refs, s.mem, sq, v);
      Holds(sq, v);
      SingleHolder(s.refs, s.spaces, p, q, sq.frames[v]);
    }
    forall t | t in sq.tables
      ensures t in refs' && refs'[t] == s.refs[t]
    {
      HoldsTable(sq, t);
      SingleHolder(s.refs, s.spaces, p, q, t);
    }
  }

  /** A step of one process that moves the counts, keeps its own space in order and disturbs nobody keeps
      the invariant, and the eager machine sees only that process change. */
  lemma StepOf(s: State, p: nat, refs': map<nat, nat>, mem': Memory, sp': Space)
    requires Inv(s)
    requires Moved(s.refs, At(s.spaces, p), refs', sp')
    requires SpaceOk(refs', mem', sp')
    requires forall q :: q in s.spaces && q != p ==> Undisturbed(s.refs, s.mem, s.spaces[q], refs', mem')
    ensures var s' := State(refs', mem', s.spaces[p := sp']);
            Inv(s') && Abstract(s') == Abstract(s)[p := Bytes(mem', sp')]
  {
    hide Exact, Moved, Undisturbed, SpaceOk, Bytes;
    ExactAfter(s.refs, s.spaces, p, sp', refs');
    forall q | q in s.spaces && q != p
      ensures SpaceOk(refs', mem', s.spaces[q])
      ensures Bytes(mem', s.spaces[q]) == Bytes(s.mem, s.spaces[q])
    {
      UndisturbedKeeps(s.refs, s.mem, s.spaces[q], refs', mem');
    }
  }

  lemma ConsiderateStep(s: State, p: nat, refs': map<nat, nat>, mem': Memory, sp': Space)
    requires Inv(s)
    requires Moved(s.refs, At(s.spaces, p), refs', sp')
    requires SpaceOk(refs', mem', sp')
    requires Considerate(s.refs, s.mem, At(s.spaces, p), refs', mem')
    ensures var s' := State(refs', mem', s.spaces[p := sp']);
            Inv(s') && Abstract(s') == Abstract(s)[p := Bytes(mem', sp')]
  {
    hide Inv, Moved, Undisturbed, SpaceOk, Considerate, Bytes, Abstract;
    forall q | q in s.spaces && q != p
      ensures Undisturbed(s.refs, s.mem, s.spaces[q], refs', mem')
    {
      OthersUndisturbed(s, p, refs', mem', q);
    }
    StepOf(s, p, refs', mem', sp');
  }
}
