/** The steps of the memory manager as relations between states, and what each does to the eager machine. */
module CowSteps {
  import opened LittleEndian
  import opened Sequences
  import opened Sv39
  import opened CowSystem

  // ---------------------------------------------------------------- relations of one space

  ghost predicate Kept(mem: Memory, mem': Memory, except: set<nat>) {
    && mem'.Keys == mem.Keys
    && (forall f :: f in mem && f !in except ==> mem'[f] == mem[f])
  }

  /** The frames `taken` were taken, one tracker each; no other count changed. */
  ghost predicate Taken(refs: map<nat, nat>, refs': map<nat, nat>, taken: set<nat>) {
    && (forall f :: f in taken ==> f !in refs)
    && (forall f :: f in refs' <==> f in refs || f in taken)
    && (forall f :: f in refs' ==> refs'[f] == if f in refs then refs[f] else 1)
  }

  /** Entry flags right after a page was mapped for an area of this kind. */
  ghost predicate FreshFlags(k: Kind, flags: Flags) {
    var e := Pte(0, flags);
    && e.Valid() && !e.IsCow()
    && (e.Writable() <==> k.writable)
    && (k.trap ==> k.writable)
  }

  ghost function Contents(mem: Memory, nf: map<nat, nat>): map<nat, Page> {
    map v | v in nf :: if nf[v] in mem then mem[nf[v]] else ZeroPage()
  }

  ghost predicate Injective(m: map<nat, nat>) {
    forall u, v :: u in m && v in m && m[u] == m[v] ==> u == v
  }

  /** Fresh frames `nf` were mapped at pages that had none. */
  ghost predicate Populated(refs: map<nat, nat>, mem: Memory, sp: Space, nf: map<nat, nat>,
                            refs': map<nat, nat>, mem': Memory, sp': Space) {
    && Injective(nf)
    && sp.tables <= sp'.tables
    && (forall v :: v in nf ==> v in sp.pages && v !in sp.pt && nf[v] in mem && nf[v] !in sp'.tables)
    && (forall t :: t in sp'.tables ==> t in mem)
    && Taken(refs, refs', nf.Values + (sp'.tables - sp.tables))
    && Kept(mem, mem', nf.Values + sp'.tables)
    && sp'.pages == sp.pages
    && sp'.frames == sp.frames + nf
    && sp'.pt.Keys == sp.pt.Keys + nf.Keys
    && (forall v :: v in sp.pt ==> sp'.pt[v] == sp.pt[v])
    && (forall v :: v in nf ==> sp'.pt[v].ppn == nf[v] && FreshFlags(sp.pages[v], sp'.pt[v].flags))
  }

  /** The page at `v` was its frame's only holder and became writable again. */
  ghost predicate Upgraded(refs: map<nat, nat>, mem: Memory, sp: Space, v: nat,
                           refs': map<nat, nat>, mem': Memory, sp': Space) {
    && v in sp.frames && v in sp.pt
    && Total(refs, sp.frames[v]) == 1
    && refs' == refs
    && Kept(mem, mem', sp.tables)
    && sp' == sp.(pt := sp.pt[v := Unprotect(sp.pt[v])])
  }

  /** The page at `v` got a copy `f` of its shared frame, which lost one tracker. */
  ghost predicate Broken(refs: map<nat, nat>, mem: Memory, sp: Space, v: nat, f: nat,
                         refs': map<nat, nat>, mem': Memory, sp': Space) {
    && v in sp.frames && v in sp.pt
    && var former := sp.frames[v];
    && former in mem && Total(refs, former) > 1
    && f in mem && f !in refs && f !in sp.tables
    && refs' == refs[f := 1][former := refs[former] - 1]
    && Kept(mem, mem', sp.tables + {f}) && mem'[f] == mem[former]
    && sp' == sp.(pt := sp.pt[v := Adopt(sp.pt[v], f)], frames := sp.frames[v := f])
  }

  /** One byte was stored through a writable entry. */
  ghost predicate Stored(refs: map<nat, nat>, mem: Memory, sp: Space, v: nat, off: nat, b: Byte,
                         refs': map<nat, nat>, mem': Memory, sp': Space) {
    && off < PAGE_SIZE
    && v in sp.frames && v in sp.pt && sp.pt[v].Writable()
    && sp.frames[v] in mem
    && refs' == refs && sp' == sp
    && mem' == mem[sp.frames[v] := mem[sp.frames[v]][off := b]]
  }

  /** New lazy pages were declared. */
  ghost predicate Reserved(sp: Space, kinds: map<nat, Kind>, sp': Space) {
    && (forall v :: v in kinds ==> v < VPN_LIMIT && v !in sp.pages && v !in sp.pt)
    && sp' == sp.(pages := sp.pages + kinds)
  }

  // ---------------------------------------------------------------- effects of one space

  ghost predicate Bounded(refs: map<nat, nat>, sp: Space) {
    forall f :: Count(sp, f) <= Total(refs, f)
  }

  /** What a step of one process has to show. */
  ghost predicate Effect(refs: map<nat, nat>, mem: Memory, sp: Space, refs': map<nat, nat>, mem': Memory, sp': Space,
                         bytes: map<nat, Page>) {
    && Moved(refs, sp, refs', sp')
    && SpaceOk(refs', mem', sp')
    && Considerate(refs, mem, sp, refs', mem')
    && Bytes(mem', sp') == bytes
  }

  lemma EffectStep(s: State, p: nat, refs': map<nat, nat>, mem': Memory, sp': Space, bytes: map<nat, Page>)
    requires Inv(s)
    requires Effect(s.refs, s.mem, At(s.spaces, p), refs', mem', sp', bytes)
    ensures var s' := State(refs', mem', s.spaces[p := sp']);
            Inv(s') && Abstract(s') == Abstract(s)[p := bytes]
  {
    hide Inv, Moved, SpaceOk, Considerate, Bytes, Abstract;
    ConsiderateStep(s, p, refs', mem', sp');
  }

  lemma BoundedAt(s: State, p: nat)
    requires Inv(s)
    ensures Bounded(s.refs, At(s.spaces, p))
  {
    hide Exact, Count;
    forall f
      ensures Count(At(s.spaces, p), f) <= Total(s.refs, f)
    {
      CountBounded(s.refs, s.spaces, p, f);
    }
  }

  lemma PositiveCounts(refs: map<nat, nat>, spaces: map<nat, Space>)
    requires Exact(refs, spaces)
    ensures forall f :: f in refs ==> refs[f] > 0
  {
    hide Holders;
    forall f | f in refs
      ensures refs[f] > 0
    {
      TotalIsHolders(refs, spaces, f);
    }
  }

  /** Two pages never share a frame that has one tracker. */
  lemma OnePage(refs: map<nat, nat>, sp: Space, u: nat, v: nat)
    requires Bounded(refs, sp)
    requires u in sp.frames && v in sp.frames && sp.frames[u] == sp.frames[v]
    requires Total(refs, sp.frames[v]) == 1
    ensures u == v && sp.frames[v] !in sp.tables
  {
    var f := sp.frames[v];
    assert {u, v} <= Mine(sp, f);
    assert Count(sp, f) <= 1;
    if u != v {
      assert |{u, v}| == 2;
      SubsetSize({u, v}, Mine(sp, f));
    }
    Holds(sp, v);
    assert |Mine(sp, f)| > 0 by { assert v in Mine(sp, f); }
  }

  // ---- populate

  lemma PopulatedMine(refs: map<nat, nat>, mem: Memory, sp: Space, nf: map<nat, nat>,
                      refs': map<nat, nat>, mem': Memory, sp': Space, f: nat)
    requires Populated(refs, mem, sp, nf, refs', mem', sp')
    requires SpaceOk(refs, mem, sp)
    ensures f !in nf.Values ==> Mine(sp', f) == Mine(sp, f)
    ensures f in nf.Values ==> |Mine(sp', f)| == 1 && Mine(sp, f) == {}
  {
    hide FreshFlags, Kept, PageOk;
    forall v | v in sp.frames
      ensures v !in nf && sp.frames[v] in refs
    {
      assert PageOk(refs, mem, sp, v);
      PageOkFacts(refs, mem, sp, v);
    }
    if f in nf.Values {
      var v :| v in nf && nf[v] == f;
      assert f !in refs;
      assert Mine(sp', f) == {v};
    }
  }

  lemma PageOkFacts(refs: map<nat, nat>, mem: Memory, sp: Space, v: nat)
    requires v in sp.frames && PageOk(refs, mem, sp, v)
    ensures v in sp.pages && v in sp.pt && sp.pt[v].ppn == sp.frames[v]
    ensures sp.frames[v] in mem && sp.frames[v] in refs && sp.frames[v] !in sp.tables
  {
  }

  lemma PopulatedMoved(refs: map<nat, nat>, mem: Memory, sp: Space, nf: map<nat, nat>,
                       refs': map<nat, nat>, mem': Memory, sp': Space)
    requires Populated(refs, mem, sp, nf, refs', mem', sp')
    requires SpaceOk(refs, mem, sp) && (forall f :: f in refs ==> refs[f] > 0)
    ensures Moved(refs, sp, refs', sp')
  {
    hide FreshFlags, Kept, PageOk, Mine;
    forall f
      ensures Total(refs', f) == Total(refs, f) - Count(sp, f) + Count(sp', f)
    {
      PopulatedMine(refs, mem, sp, nf, refs', mem', sp', f);
    }
  }

  lemma PopulatedEffect(refs: map<nat, nat>, mem: Memory, sp: Space, nf: map<nat, nat>,
                        refs': map<nat, nat>, mem': Memory, sp': Space)
    requires Populated(refs, mem, sp, nf, refs', mem', sp')
    requires SpaceOk(refs, mem, sp) && (forall f :: f in refs ==> refs[f] > 0)
    ensures Effect(refs, mem, sp, refs', mem', sp',
                   Bytes(mem, sp) + Contents(mem', nf))
  {
    hide Mine;
    PopulatedMoved(refs, mem, sp, nf, refs', mem', sp');
    PopulatedOk(refs, mem, sp, nf, refs', mem', sp');
    PopulatedBytes(refs, mem, sp, nf, refs', mem', sp');
    forall f | f in refs && f in mem && Count(sp, f) < refs[f]
      ensures f in refs' && mem'[f] == mem[f] && refs'[f] == refs[f]
    {
      if f in sp.tables {
        HoldsTable(sp, f);
      }
    }
  }

  lemma PopulatedOk(refs: map<nat, nat>, mem: Memory, sp: Space, nf: map<nat, nat>,
                    refs': map<nat, nat>, mem': Memory, sp': Space)
    requires Populated(refs, mem, sp, nf, refs', mem', sp')
    requires SpaceOk(refs, mem, sp)
    ensures SpaceOk(refs', mem', sp')
  {
    hide Protect, Unprotect, Adopt, Pte.Writable, Pte.IsCow, Pte.Valid;
    forall v | v in sp'.frames
      ensures PageOk(refs', mem', sp', v)
    {
      if v in nf {
        assert FreshFlags(sp.pages[v], sp'.pt[v].flags);
        FlagsOnly(sp'.pt[v]);
      } else {
        assert PageOk(refs, mem, sp, v);
      }
    }
    forall v | v in sp'.pt
      ensures v in sp'.frames || Fixed(sp', v)
    {
      if v in sp.pt {
        assert v in sp.frames || Fixed(sp, v);
      }
    }
  }

  lemma FlagsOnly(e: Pte)
    ensures Pte(0, e.flags).Valid() == e.Valid()
    ensures Pte(0, e.flags).Writable() == e.Writable()
    ensures Pte(0, e.flags).IsCow() == e.IsCow()
  {
  }

  lemma PopulatedBytes(refs: map<nat, nat>, mem: Memory, sp: Space, nf: map<nat, nat>,
                       refs': map<nat, nat>, mem': Memory, sp': Space)
    requires Populated(refs, mem, sp, nf, refs', mem', sp')
    requires SpaceOk(refs, mem, sp)
    ensures Bytes(mem', sp') ==
            Bytes(mem, sp) + Contents(mem', nf)
  {
    hide Protect, Unprotect, Adopt, Pte.Writable, Pte.IsCow, Pte.Valid;
    forall v | v in sp.pages && v !in nf
      ensures View(mem', sp', v) == View(mem, sp, v)
    {
      if v in sp.pt {
        assert v in sp.frames || Fixed(sp, v);
        assert PageOk(refs, mem, sp, v);
      }
    }
  }

  // ---- flags

  lemma UpgradedFlags(e: Pte)
    ensures Unprotect(e).Writable() && !Unprotect(e).IsCow() && Unprotect(e).Valid() == e.Valid()
    ensures Unprotect(e).ppn == e.ppn
  {
  }

  lemma BrokenFlags(e: Pte, f: nat)
    ensures Adopt(e, f).Writable() && Adopt(e, f).IsCow() == e.IsCow() && Adopt(e, f).Valid() == e.Valid()
    ensures Adopt(e, f).ppn == f
  {
  }

  lemma ProtectFlags(e: Pte)
    ensures !Protect(e).Writable() && Protect(e).IsCow() && Protect(e).Valid() == e.Valid()
    ensures Protect(e).ppn == e.ppn
  {
  }

  // ---- upgrade

  lemma UpgradedEffect(refs: map<nat, nat>, mem: Memory, sp: Space, v: nat, refs': map<nat, nat>, mem': Memory, sp': Space)
    requires Upgraded(refs, mem, sp, v, refs', mem', sp')
    requires SpaceOk(refs, mem, sp) && (forall f :: f in refs ==> refs[f] > 0)
    requires v in sp.pages && sp.pages[v].writable && !sp.pages[v].trap
    ensures Effect(refs, mem, sp, refs', mem', sp', Bytes(mem, sp))
  {
    hide Protect, Unprotect, Adopt, Pte.Writable, Pte.IsCow, Pte.Valid, Moved, Considerate, Mine, Bytes;
    UpgradedFlags(sp.pt[v]);
    SameFrames(refs, mem, sp, refs', mem', sp');
    SameViews(refs, mem, sp, mem', sp');
    forall u | u in sp'.frames
      ensures PageOk(refs', mem', sp', u)
    {
      assert PageOk(refs, mem, sp, u);
    }
    forall u | u in sp'.pt
      ensures u in sp'.frames || Fixed(sp', u)
    {
      assert u in sp.frames || Fixed(sp, u);
    }
  }

  /** A step that touches only the table frames and keeps the frame behind each page. */
  lemma SameViews(refs: map<nat, nat>, mem: Memory, sp: Space, mem': Memory, sp': Space)
    requires SpaceOk(refs, mem, sp)
    requires Kept(mem, mem', sp.tables) && sp'.pages == sp.pages && sp'.pt.Keys == sp.pt.Keys
    requires forall u :: u in sp.pt ==> sp'.pt[u].ppn == sp.pt[u].ppn
    ensures Bytes(mem', sp') == Bytes(mem, sp)
  {
    hide Protect, Unprotect, Adopt, Pte.Writable, Pte.IsCow, Pte.Valid;
    forall u | u in sp.pages
      ensures View(mem', sp', u) == View(mem, sp, u)
    {
      if u in sp.pt {
        assert u in sp.frames || Fixed(sp, u);
        assert PageOk(refs, mem, sp, u);
      }
    }
  }

  /** A step that touches only the table frames and keeps all trackers. */
  lemma SameFrames(refs: map<nat, nat>, mem: Memory, sp: Space, refs': map<nat, nat>, mem': Memory, sp': Space)
    requires SpaceOk(refs, mem, sp) && (forall f :: f in refs ==> refs[f] > 0)
    requires refs' == refs && Kept(mem, mem', sp.tables)
    requires sp'.frames == sp.frames && sp'.tables == sp.tables
    ensures Moved(refs, sp, refs', sp')
    ensures Considerate(refs, mem, sp, refs', mem')
  {
    hide PageOk, Fixed;
    forall f
      ensures Count(sp', f) == Count(sp, f)
    {
      assert Mine(sp', f) == Mine(sp, f);
    }
    forall f | f in refs && f in mem && Count(sp, f) < refs[f]
      ensures mem'[f] == mem[f]
    {
      if f in sp.tables {
        HoldsTable(sp, f);
      }
    }
  }

  // ---- store

  lemma StoredEffect(refs: map<nat, nat>, mem: Memory, sp: Space, v: nat, off: nat, b: Byte,
                     refs': map<nat, nat>, mem': Memory, sp': Space)
    requires Stored(refs, mem, sp, v, off, b, refs', mem', sp')
    requires SpaceOk(refs, mem, sp) && Bounded(refs, sp) && (forall f :: f in refs ==> refs[f] > 0)
    ensures v in Bytes(mem, sp)
    ensures Effect(refs, mem, sp, refs', mem', sp', Bytes(mem, sp)[v := Bytes(mem, sp)[v][off := b]])
  {
    hide Protect, Unprotect, Adopt, Pte.Writable, Pte.IsCow, Pte.Valid, Mine, Count;
    assert PageOk(refs, mem, sp, v);
    forall u | u in sp.frames
      ensures PageOk(refs', mem', sp', u)
    {
      assert PageOk(refs, mem, sp, u);
    }
    StoredBytes(refs, mem, sp, v, off, b, mem');
    var f := sp.frames[v];
    Holds(sp, v);
    assert Count(sp, f) >= refs[f];
  }

  lemma StoredBytes(refs: map<nat, nat>, mem: Memory, sp: Space, v: nat, off: nat, b: Byte, mem': Memory)
    requires SpaceOk(refs, mem, sp) && Bounded(refs, sp)
    requires off < PAGE_SIZE && v in sp.frames && PageOk(refs, mem, sp, v) && sp.pt[v].Writable()
    requires mem' == mem[sp.frames[v] := mem[sp.frames[v]][off := b]]
    ensures v in Bytes(mem, sp)
    ensures Bytes(mem', sp) == Bytes(mem, sp)[v := Bytes(mem, sp)[v][off := b]]
  {
    hide Protect, Unprotect, Adopt, Pte.Writable, Pte.IsCow, Pte.Valid, Mine, Count, Bounded;
    forall u | u in sp.pages && u != v
      ensures View(mem', sp, u) == View(mem, sp, u)
    {
      if u in sp.pt {
        assert u in sp.frames || Fixed(sp, u);
        assert PageOk(refs, mem, sp, u);
        if sp.frames[u] == sp.frames[v] {
          OnePage(refs, sp, u, v);
        }
      }
    }
    assert View(mem', sp, v) == View(mem, sp, v)[off := b];
  }

  // ---- reserve

  lemma ReservedEffect(refs: map<nat, nat>, mem: Memory, sp: Space, kinds: map<nat, Kind>, sp': Space)
    requires Reserved(sp, kinds, sp')
    requires SpaceOk(refs, mem, sp) && (forall f :: f in refs ==> refs[f] > 0)
    ensures Effect(refs, mem, sp, refs, mem, sp', Bytes(mem, sp) + map v: nat | v in kinds :: ZeroPage())
  {
    hide Protect, Unprotect, Adopt, Pte.Writable, Pte.IsCow, Pte.Valid, Moved, Considerate, Mine, Bytes;
    SameFrames(refs, mem, sp, refs, mem, sp');
    ReservedBytes(mem, sp, kinds, sp');
    forall u | u in sp'.frames
      ensures PageOk(refs, mem, sp', u)
    {
      assert PageOk(refs, mem, sp, u);
    }
    forall u | u in sp'.pt
      ensures u in sp'.frames || Fixed(sp', u)
    {
      assert u in sp.frames || Fixed(sp, u);
    }
  }

  lemma ReservedBytes(mem: Memory, sp: Space, kinds: map<nat, Kind>, sp': Space)
    requires Reserved(sp, kinds, sp')
    ensures Bytes(mem, sp') == Bytes(mem, sp) + map v: nat | v in kinds :: ZeroPage()
  {
    forall u | u in sp.pages
      ensures View(mem, sp', u) == View(mem, sp, u)
    {
    }
  }

  // ---- break

  lemma BrokenMoved(refs: map<nat, nat>, mem: Memory, sp: Space, v: nat, f: nat,
                    refs': map<nat, nat>, mem': Memory, sp': Space)
    requires Broken(refs, mem, sp, v, f, refs', mem', sp')
    requires SpaceOk(refs, mem, sp) && (forall g :: g in refs ==> refs[g] > 0)
    ensures Moved(refs, sp, refs', sp')
  {
    hide Protect, Unprotect, Adopt, Pte.Writable, Pte.IsCow, Pte.Valid, Kept;
    var former := sp.frames[v];
    forall u | u in sp.frames
      ensures sp.frames[u] in refs && sp.frames[u] !in sp.tables
    {
      assert PageOk(refs, mem, sp, u);
    }
    forall g
      ensures Total(refs', g) == Total(refs, g) - Count(sp, g) + Count(sp', g)
    {
      if g == f {
        assert Mine(sp, f) == {};
        assert Mine(sp', f) == {v};
      } else if g == former {
        assert Mine(sp, g) == Mine(sp', g) + {v};
      } else {
        assert Mine(sp, g) == Mine(sp', g);
      }
    }
  }

  lemma BrokenEffect(refs: map<nat, nat>, mem: Memory, sp: Space, v: nat, f: nat,
                     refs': map<nat, nat>, mem': Memory, sp': Space)
    requires Broken(refs, mem, sp, v, f, refs', mem', sp')
    requires SpaceOk(refs, mem, sp) && (forall g :: g in refs ==> refs[g] > 0)
    requires v in sp.pages && sp.pages[v].writable && sp.pt[v].IsCow()
    ensures Effect(refs, mem, sp, refs', mem', sp', Bytes(mem, sp))
  {
    hide Protect, Unprotect, Adopt, Pte.Writable, Pte.IsCow, Pte.Valid, Mine, Count, Moved;
    BrokenMoved(refs, mem, sp, v, f, refs', mem', sp');
    BrokenFlags(sp.pt[v], f);
    forall u | u in sp'.frames
      ensures PageOk(refs', mem', sp', u)
    {
      assert PageOk(refs, mem, sp, u);
    }
    forall u | u in sp'.pt
      ensures u in sp'.frames || Fixed(sp', u)
    {
      assert u in sp.frames || Fixed(sp, u);
    }
    BrokenBytes(refs, mem, sp, v, f, refs', mem', sp');
    Holds(sp, v);
    forall g | g in refs && g in mem && Count(sp, g) < refs[g]
      ensures g in refs' && mem'[g] == mem[g] && (Count(sp, g) == 0 ==> refs'[g] == refs[g])
    {
      if g in sp.tables {
        HoldsTable(sp, g);
      }
    }
  }

  lemma BrokenBytes(refs: map<nat, nat>, mem: Memory, sp: Space, v: nat, f: nat,
                    refs': map<nat, nat>, mem': Memory, sp': Space)
    requires Broken(refs, mem, sp, v, f, refs', mem', sp')
    requires SpaceOk(refs, mem, sp)
    ensures Bytes(mem', sp') == Bytes(mem, sp)
  {
    hide Protect, Unprotect, Adopt, Pte.Writable, Pte.IsCow, Pte.Valid;
    BrokenFlags(sp.pt[v], f);
    forall u | u in sp.pages
      ensures View(mem', sp', u) == View(mem, sp, u)
    {
      if u in sp.pt {
        assert u in sp.frames || Fixed(sp, u);
        assert PageOk(refs, mem, sp, u);
      }
    }
  }
}
