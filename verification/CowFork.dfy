/** Fork by sharing, and the end of an address space. */
module CowFork {
  import opened Sv39
  import opened CowSystem
  import opened CowSteps

  /** A page that fork shares: it has a frame and is no trap context. */
  ghost predicate Shared(sp: Space, v: nat) {
    v in sp.frames && v in sp.pages && !sp.pages[v].trap
  }

  /** The parent after fork: shared entries lost W and are marked COW. */
  ghost function Forked(sp: Space): Space {
    sp.(pt := map v | v in sp.pt :: if Shared(sp, v) then Protect(sp.pt[v]) else sp.pt[v])
  }

  ghost function SharedMine(sp: Space, f: nat): set<nat> {
    set v | v in Mine(sp, f) && Shared(sp, v)
  }

  /** The child's own frames: copies of the parent's trap-context pages. */
  ghost function OwnFrames(par: Space, child: Space): map<nat, nat> {
    map v | v in child.frames && !Shared(par, v) :: child.frames[v]
  }

  /** A page of the child with a frame: the parent's frame, protected on both sides, or a copy of its own. */
  ghost predicate ChildPage(refs: map<nat, nat>, mem: Memory, par: Space, mem': Memory, child: Space, v: nat)
    requires v in par.frames && v in child.frames
  {
    var f := child.frames[v];
    && v in par.pt && v in child.pt && v in child.pages
    && (if Shared(par, v) then
          f == par.frames[v] && child.pt[v] == Protect(par.pt[v])
        else
          && f in mem && f in mem' && f !in refs && f !in child.tables
          && child.pt[v].ppn == f && FreshFlags(child.pages[v], child.pt[v].flags)
          && par.frames[v] in mem && mem'[f] == mem[par.frames[v]])
  }

  /** `child` was made from a process whose space was `par` and is now `par'`. */
  ghost predicate ForkedFrom(refs: map<nat, nat>, mem: Memory, par: Space,
                             refs': map<nat, nat>, mem': Memory, par': Space, child: Space) {
    var own := OwnFrames(par, child);
    && par' == Forked(par)
    && child.pages == par.pages
    && child.frames.Keys == par.frames.Keys
    && (forall v :: v in child.frames ==> ChildPage(refs, mem, par, mem', child, v))
    && Injective(own)
    && (forall v :: v in child.pt ==> v in child.frames || Fixed(child, v))
    && (forall t :: t in child.tables ==> t in mem && t !in refs)
    && Kept(mem, mem', par.tables + child.tables + own.Values)
    && (forall f :: f in refs' <==> f in refs || f in child.tables || f in own.Values)
    && (forall f :: f in refs' ==> refs'[f] == if f in refs then refs[f] + |SharedMine(par, f)| else 1)
  }

  // ---------------------------------------------------------------- the parent's side

  lemma ForkedParentEffect(refs: map<nat, nat>, mem: Memory, par: Space, mem': Memory)
    requires SpaceOk(refs, mem, par) && (forall f :: f in refs ==> refs[f] > 0)
    requires Kept(mem, mem', par.tables)
    ensures Effect(refs, mem, par, refs, mem', Forked(par), Bytes(mem, par))
  {
    hide Protect, Pte.Writable, Pte.IsCow, Pte.Valid, Moved, Considerate, Mine, Bytes;
    var par' := Forked(par);
    forall v | v in par.pt
      ensures par'.pt[v].ppn == par.pt[v].ppn
    {
      ProtectFlags(par.pt[v]);
    }
    SameFrames(refs, mem, par, refs, mem', par');
    SameViews(refs, mem, par, mem', par');
    forall u | u in par'.frames
      ensures PageOk(refs, mem', par', u)
    {
      assert PageOk(refs, mem, par, u);
      ProtectFlags(par.pt[u]);
    }
    forall u | u in par'.pt
      ensures u in par'.frames || Fixed(par', u)
    {
      assert u in par.frames || Fixed(par, u);
    }
  }

  // ---------------------------------------------------------------- the child's side

  lemma ChildFrames(refs: map<nat, nat>, mem: Memory, par: Space, refs': map<nat, nat>, mem': Memory, par': Space,
                    child: Space)
    requires ForkedFrom(refs, mem, par, refs', mem', par', child)
    requires SpaceOk(refs, mem, par)
    ensures forall v :: v in child.frames ==>
              && v in par.frames && par.frames[v] in refs
              && (Shared(par, v) ==> child.frames[v] == par.frames[v])
              && (!Shared(par, v) ==> child.frames[v] !in refs && child.frames[v] !in child.tables)
  {
    hide Protect, Pte.Writable, Pte.IsCow, Pte.Valid, Kept, FreshFlags, Fixed, SharedMine, OwnFrames, Injective;
    forall v | v in child.frames
      ensures par.frames[v] in refs
      ensures Shared(par, v) ==> child.frames[v] == par.frames[v]
      ensures !Shared(par, v) ==> child.frames[v] !in refs && child.frames[v] !in child.tables
    {
      assert PageOk(refs, mem, par, v);
      assert ChildPage(refs, mem, par, mem', child, v);
    }
  }

  lemma ChildMine(refs: map<nat, nat>, mem: Memory, par: Space, refs': map<nat, nat>, mem': Memory, par': Space,
                  child: Space, f: nat)
    requires ForkedFrom(refs, mem, par, refs', mem', par', child)
    requires SpaceOk(refs, mem, par)
    ensures f in refs ==> Mine(child, f) == SharedMine(par, f) && f !in child.tables
    ensures f !in refs && f in OwnFrames(par, child).Values ==> |Mine(child, f)| == 1 && f !in child.tables
    ensures f !in refs && f !in OwnFrames(par, child).Values ==> Mine(child, f) == {}
  {
    hide ChildPage, SpaceOk, Kept, FreshFlags, Fixed, Forked, Protect;
    ChildFrames(refs, mem, par, refs', mem', par', child);
    var own := OwnFrames(par, child);
    if f in refs {
      assert Mine(child, f) == SharedMine(par, f);
    } else if f in own.Values {
      var v :| v in own && own[v] == f;
      forall w | w in Mine(child, f)
        ensures w == v
      {
        assert w in own && own[w] == own[v];
      }
      assert Mine(child, f) == {v};
    } else {
      forall v | v in Mine(child, f)
        ensures v in own && own[v] == f
      {
      }
    }
  }

  lemma ChildMoved(refs: map<nat, nat>, mem: Memory, par: Space, refs': map<nat, nat>, mem': Memory, par': Space, child: Space)
    requires ForkedFrom(refs, mem, par, refs', mem', par', child)
    requires SpaceOk(refs, mem, par) && (forall f :: f in refs ==> refs[f] > 0)
    ensures Moved(refs, EMPTY, refs', child)
  {
    hide Protect, Pte.Writable, Pte.IsCow, Pte.Valid, Kept, FreshFlags, Fixed, Mine, SharedMine, OwnFrames, SpaceOk, Injective;
    forall f
      ensures Total(refs', f) == Total(refs, f) - Count(EMPTY, f) + Count(child, f)
    {
      EmptyCount(f);
      ChildMine(refs, mem, par, refs', mem', par', child, f);
    }
  }

  lemma ChildPageOk(refs: map<nat, nat>, mem: Memory, par: Space, refs': map<nat, nat>, mem': Memory, par': Space, child: Space, v: nat)
    requires ForkedFrom(refs, mem, par, refs', mem', par', child)
    requires SpaceOk(refs, mem, par)
    requires v in child.frames
    ensures PageOk(refs', mem', child, v)
  {
    hide Protect, Pte.Writable, Pte.IsCow, Pte.Valid, Mine, SharedMine, Injective, Forked, Fixed;
    assert PageOk(refs, mem, par, v);
    assert ChildPage(refs, mem, par, mem', child, v);
    ProtectFlags(par.pt[v]);
    FlagsOnly(child.pt[v]);
    if !Shared(par, v) {
      assert OwnFrames(par, child)[v] == child.frames[v];
    }
  }

  lemma ChildOk(refs: map<nat, nat>, mem: Memory, par: Space, refs': map<nat, nat>, mem': Memory, par': Space, child: Space)
    requires ForkedFrom(refs, mem, par, refs', mem', par', child)
    requires SpaceOk(refs, mem, par)
    ensures SpaceOk(refs', mem', child)
  {
    hide Protect, Pte.Writable, Pte.IsCow, Pte.Valid, Mine, SharedMine, Injective, Forked, Fixed, PageOk, ChildPage, OwnFrames;
    forall v | v in child.frames
      ensures PageOk(refs', mem', child, v)
    {
      ChildPageOk(refs, mem, par, refs', mem', par', child, v);
    }
  }

  /** A mapping without a frame is outside every area. */
  lemma FixedNotPages(sp: Space)
    requires forall v :: v in sp.pt && v !in sp.frames ==> Fixed(sp, v)
    ensures forall v :: v in sp.pages && v in sp.pt ==> v in sp.frames
  {
    hide Pte.Writable, Pte.IsCow;
  }

  lemma ParentFramesKept(refs: map<nat, nat>, mem: Memory, par: Space, refs': map<nat, nat>, mem': Memory, par': Space, child: Space)
    requires ForkedFrom(refs, mem, par, refs', mem', par', child)
    requires SpaceOk(refs, mem, par)
    ensures forall v :: v in par.frames ==>
              par.frames[v] in mem && par.frames[v] in mem' && mem'[par.frames[v]] == mem[par.frames[v]]
  {
    hide Protect, Pte.Writable, Pte.IsCow, Pte.Valid, Mine, SharedMine, Injective, FreshFlags, Forked, Fixed, Shared;
    forall v | v in child.frames && v in OwnFrames(par, child)
      ensures child.frames[v] !in refs
    {
      assert ChildPage(refs, mem, par, mem', child, v);
    }
    forall v | v in par.frames
      ensures par.frames[v] in mem && par.frames[v] in mem' && mem'[par.frames[v]] == mem[par.frames[v]]
    {
      assert PageOk(refs, mem, par, v);
    }
  }

  lemma ChildBytes(refs: map<nat, nat>, mem: Memory, par: Space, refs': map<nat, nat>, mem': Memory, par': Space, child: Space)
    requires ForkedFrom(refs, mem, par, refs', mem', par', child)
    requires SpaceOk(refs, mem, par)
    ensures Bytes(mem', child) == Bytes(mem, par)
  {
    hide Protect, Pte.Writable, Pte.IsCow, Pte.Valid, Mine, SharedMine, Injective, FreshFlags, Forked, Fixed, OwnFrames, Kept, Shared;
    FixedNotPages(par);
    FixedNotPages(child);
    ParentFramesKept(refs, mem, par, refs', mem', par', child);
    forall v | v in par.pages
      ensures View(mem', child, v) == View(mem, par, v)
    {
      if v in par.frames {
        assert PageOk(refs, mem, par, v);
        assert ChildPage(refs, mem, par, mem', child, v);
        ProtectFlags(par.pt[v]);
      }
    }
  }

  /** A frame that `par` does not hold keeps its count. */
  lemma UnsharedCount(par: Space, f: nat)
    requires Count(par, f) == 0
    ensures |SharedMine(par, f)| == 0
  {
    assert SharedMine(par, f) == {};
  }

  lemma OthersThroughFork(s: State, p: nat, refs': map<nat, nat>, mem': Memory, par': Space, child: Space, mem1: Memory, q: nat)
    requires Inv(s) && p in s.spaces && q in s.spaces && q != p
    requires ForkedFrom(s.refs, s.mem, s.spaces[p], refs', mem', par', child)
    requires Kept(mem1, mem', child.tables + OwnFrames(s.spaces[p], child).Values)
    requires mem1.Keys == s.mem.Keys
    ensures Undisturbed(s.refs, mem1, s.spaces[q], refs', mem')
  {
    hide Exact, Count, SharedMine, Protect, Pte.Writable, Pte.IsCow, Pte.Valid, FreshFlags, Injective;
    var sq := s.spaces[q];
    var par := s.spaces[p];
    assert SpaceOk(s.refs, s.mem, sq);
    forall v | v in sq.frames
      ensures var f := sq.frames[v];
              && f in refs' && mem'[f] == mem1[f]
              && (sq.pt[v].Writable() ==> refs'[f] == s.refs[f])
    {
      assert PageOk(s.refs, s.mem, sq, v);
      var f := sq.frames[v];
      Holds(sq, v);
      SingleHolder(s.refs, s.spaces, p, q, f);
      if sq.pt[v].Writable() {
        UnsharedCount(par, f);
      }
    }
    forall t | t in sq.tables
      ensures t in refs' && refs'[t] == s.refs[t]
    {
      HoldsTable(sq, t);
      SingleHolder(s.refs, s.spaces, p, q, t);
      UnsharedCount(par, t);
    }
  }

  lemma ParentThroughFork(refs: map<nat, nat>, mem: Memory, par: Space, refs': map<nat, nat>, mem': Memory, par': Space,
                          child: Space, mem1: Memory)
    requires SpaceOk(refs, mem, par) && Bounded(refs, par)
    requires ForkedFrom(refs, mem, par, refs', mem', par', child)
    requires Kept(mem1, mem', child.tables + OwnFrames(par, child).Values)
    requires mem1.Keys == mem.Keys
    ensures Undisturbed(refs, mem1, par', refs', mem')
  {
    hide Count, Protect, Pte.Writable, Pte.IsCow, Pte.Valid, FreshFlags, Injective, Bounded, Mine;
    forall v | v in par.frames
      ensures var f := par.frames[v];
              && f in refs' && mem'[f] == mem1[f]
              && (par'.pt[v].Writable() ==> refs'[f] == refs[f])
    {
      assert PageOk(refs, mem, par, v);
      var f := par.frames[v];
      ProtectFlags(par.pt[v]);
      if par'.pt[v].Writable() {
        assert !Shared(par, v);
        SoleTrapPage(refs, par, v);
      }
    }
    forall t | t in par.tables
      ensures t in refs' && refs'[t] == refs[t]
    {
      NoSharedTable(refs, mem, par, t);
    }
  }

  lemma SoleTrapPage(refs: map<nat, nat>, par: Space, v: nat)
    requires Bounded(refs, par) && v in par.frames && !Shared(par, v)
    requires Total(refs, par.frames[v]) == 1
    ensures |SharedMine(par, par.frames[v])| == 0
  {
    hide Count, Bounded;
    forall u | u in SharedMine(par, par.frames[v])
      ensures false
    {
      OnePage(refs, par, u, v);
    }
    assert SharedMine(par, par.frames[v]) == {};
  }

  lemma NoSharedTable(refs: map<nat, nat>, mem: Memory, par: Space, t: nat)
    requires SpaceOk(refs, mem, par) && t in par.tables
    ensures |SharedMine(par, t)| == 0
  {
    hide Pte.Writable, Pte.IsCow, Pte.Valid;
    forall u | u in par.frames
      ensures par.frames[u] != t
    {
      assert PageOk(refs, mem, par, u);
    }
    assert SharedMine(par, t) == {};
  }

  /** Fork keeps the invariant, and the eager machine gives the child a copy of every page. */
  lemma ForkStep(s: State, p: nat, c: nat, refs': map<nat, nat>, mem': Memory, par': Space, child: Space)
    requires Inv(s) && p in s.spaces && c !in s.spaces
    requires ForkedFrom(s.refs, s.mem, s.spaces[p], refs', mem', par', child)
    ensures var s' := State(refs', mem', s.spaces[p := par'][c := child]);
            Inv(s') && Abstract(s') == Abstract(s)[c := Abstract(s)[p]]
  {
    hide Exact, SpaceOk, Effect, Bounded, Undisturbed, Moved, Bytes, OwnFrames, SharedMine, FreshFlags, Injective, Fixed, Forked;
    var par := s.spaces[p];
    var mem1 := map f | f in s.mem :: if f in par.tables then mem'[f] else s.mem[f];
    PositiveCounts(s.refs, s.spaces);
    BoundedAt(s, p);
    ForkedParentEffect(s.refs, s.mem, par, mem1);
    EffectStep(s, p, s.refs, mem1, par', Bytes(s.mem, par));
    var s1 := State(s.refs, mem1, s.spaces[p := par']);
    ChildMoved(s.refs, s.mem, par, refs', mem', par', child);
    ChildOk(s.refs, s.mem, par, refs', mem', par', child);
    ChildBytes(s.refs, s.mem, par, refs', mem', par', child);
    ChildApart(s, p, refs', mem', par', child);
    forall q | q in s1.spaces && q != c
      ensures Undisturbed(s1.refs, s1.mem, s1.spaces[q], refs', mem')
    {
      if q == p {
        ParentThroughFork(s.refs, s.mem, par, refs', mem', par', child, mem1);
      } else {
        OthersThroughFork(s, p, refs', mem', par', child, mem1, q);
      }
    }
    StepOf(s1, c, refs', mem', child);
  }

  /** The frames the child took are none of the parent's tables. */
  lemma ChildApart(s: State, p: nat, refs': map<nat, nat>, mem': Memory, par': Space, child: Space)
    requires Inv(s) && p in s.spaces
    requires ForkedFrom(s.refs, s.mem, s.spaces[p], refs', mem', par', child)
    ensures forall t :: t in s.spaces[p].tables ==> t in s.refs
  {
    hide Exact, PageOk, Fixed, ForkedFrom;
    assert SpaceOk(s.refs, s.mem, s.spaces[p]);
  }

  // ---------------------------------------------------------------- exit

  /** Every tracker of a space was dropped: counts went down by what it held, exhausted ones disappeared. */
  ghost predicate Dropped(refs: map<nat, nat>, mem: Memory, sp: Space, refs': map<nat, nat>, mem': Memory) {
    Moved(refs, sp, refs', EMPTY) && mem' == mem
  }

  lemma ExitStep(s: State, p: nat, refs': map<nat, nat>, mem': Memory)
    requires Inv(s) && p in s.spaces
    requires Dropped(s.refs, s.mem, s.spaces[p], refs', mem')
    ensures var s' := State(refs', mem', s.spaces - {p});
            Inv(s') && Abstract(s') == Abstract(s) - {p}
  {
    hide Exact, SpaceOk, Undisturbed, Bytes, Count;
    ExactAfterRemoval(s.refs, s.spaces, p, refs');
    PositiveCounts(s.refs, s.spaces);
    assert Considerate(s.refs, s.mem, At(s.spaces, p), refs', mem') by {
      forall f | f in s.refs && f in s.mem && Count(s.spaces[p], f) < s.refs[f]
        ensures f in refs' && (Count(s.spaces[p], f) == 0 ==> refs'[f] == s.refs[f])
      {
        EmptyCount(f);
        assert Total(refs', f) == Total(s.refs, f) - Count(s.spaces[p], f) + Count(EMPTY, f);
      }
    }
    forall q | q in s.spaces && q != p
      ensures SpaceOk(refs', mem', s.spaces[q]) && Bytes(mem', s.spaces[q]) == Bytes(s.mem, s.spaces[q])
    {
      OthersUndisturbed(s, p, refs', mem', q);
      UndisturbedKeeps(s.refs, s.mem, s.spaces[q], refs', mem');
    }
  }
}
