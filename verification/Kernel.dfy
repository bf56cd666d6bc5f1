/** All address spaces of the machine, over one physical memory.

    `Now()` is the state of the transition system of `CowSystem` that the objects stand for.  Every
    operation is a run of that system (`Ran`), of one step or two, and runs go on from where others ended
    (`RanOn`), so whatever the kernel does is a run in the sense of `CowRuns`. */
module Kernel {
  import opened LittleEndian
  import opened Options
  import opened Sv39
  import opened FrameAllocator
  import opened PhysicalMemory
  import opened PageTables
  import opened CowSystem
  import opened CowSteps
  import opened CowFork
  import opened CowRuns
  import opened MemoryLayout
  import opened MemorySets
  import opened Forking
  import opened Dropping
  import opened Loading

  // ---------------------------------------------------------------- what others see of a step

  /** The tables of process `q` are where they were, with the entries they had. */
  ghost predicate TablesKept(s: State, q: nat, refs': map<nat, nat>, mem': Memory)
    requires q in s.spaces
  {
    && mem'.Keys == s.mem.Keys
    && (forall t :: t in s.spaces[q].tables ==> t in s.mem && t in refs' && mem'[t] == s.mem[t])
  }

  lemma ConsiderateKeepsTables(s: State, p: nat, refs': map<nat, nat>, mem': Memory, q: nat)
    requires Inv(s) && q in s.spaces && q != p
    requires Considerate(s.refs, s.mem, At(s.spaces, p), refs', mem')
    ensures TablesKept(s, q, refs', mem')
  {
    hide Exact, Count, PageOk, Fixed;
    var sq := s.spaces[q];
    assert SpaceOk(s.refs, s.mem, sq);
    forall t | t in sq.tables
      ensures t in s.mem && t in refs' && mem'[t] == s.mem[t]
    {
      HoldsTable(sq, t);
      SingleHolder(s.refs, s.spaces, p, q, t);
    }
  }

  lemma PageInIsConsiderate(s: State, p: nat, v: nat, s': State)
    requires Inv(s) && Step(s, PageIn(p, v), s')
    ensures Considerate(s.refs, s.mem, At(s.spaces, p), s'.refs, s'.mem)
    ensures s'.spaces[p].pages == s.spaces[p].pages && v in s'.spaces[p].pages
    ensures v in s'.spaces[p].frames && v in s'.spaces[p].pt
    ensures s'.spaces[p].pt[v].Writable() <==> s'.spaces[p].pages[v].writable
    ensures !s'.spaces[p].pt[v].IsCow()
  {
    hide Exact, SpaceOk, Contents, Bytes, Considerate, Moved, Pte.Writable, Pte.IsCow, Pte.Valid;
    PositiveCounts(s.refs, s.spaces);
    var sp, sp' := s.spaces[p], s'.spaces[p];
    var f :| Populated(s.refs, s.mem, sp, map[v := f], s'.refs, s'.mem, sp') && Contents(s'.mem, map[v := f]) == map[v := ZeroPage()];
    PopulatedEffect(s.refs, s.mem, sp, map[v := f], s'.refs, s'.mem, sp');
    FlagsOnly(sp'.pt[v]);
  }

  lemma CowFaultIsConsiderate(s: State, p: nat, v: nat, s': State)
    requires Inv(s) && Step(s, CowFault(p, v), s') && Permitted(s, CowFault(p, v))
    ensures Considerate(s.refs, s.mem, At(s.spaces, p), s'.refs, s'.mem)
    ensures s'.spaces[p].pages == s.spaces[p].pages && v in s'.spaces[p].pages
    ensures v in s'.spaces[p].frames && v in s'.spaces[p].pt && s'.spaces[p].pt[v].Writable()
  {
    hide Exact, SpaceOk, Bytes, Pte.IsCow, Pte.Writable, Pte.Valid, Considerate, Moved, Unprotect, Adopt, Kept;
    PositiveCounts(s.refs, s.spaces);
    var sp, sp' := s.spaces[p], s'.spaces[p];
    CowPageKind(s, p, v, s');
    UpgradedFlags(sp.pt[v]);
    if Upgraded(s.refs, s.mem, sp, v, s'.refs, s'.mem, sp') {
      UpgradedEffect(s.refs, s.mem, sp, v, s'.refs, s'.mem, sp');
    } else {
      var f :| Broken(s.refs, s.mem, sp, v, f, s'.refs, s'.mem, sp');
      BrokenFlags(sp.pt[v], f);
      BrokenEffect(s.refs, s.mem, sp, v, f, s'.refs, s'.mem, sp');
    }
  }

  lemma StoreIsConsiderate(s: State, p: nat, v: nat, off: nat, b: Byte, s': State)
    requires Inv(s) && Step(s, Store(p, v, off, b), s')
    ensures Considerate(s.refs, s.mem, At(s.spaces, p), s'.refs, s'.mem)
  {
    hide Exact, Bytes, Bounded, SpaceOk, Considerate, Moved;
    PositiveCounts(s.refs, s.spaces);
    BoundedAt(s, p);
    StoredEffect(s.refs, s.mem, s.spaces[p], v, off, b, s'.refs, s'.mem, s'.spaces[p]);
  }

  lemma ForkKeepsTables(s: State, p: nat, c: nat, s': State, q: nat)
    requires Inv(s) && Step(s, Fork(p, c), s') && q in s.spaces && q != p
    ensures TablesKept(s, q, s'.refs, s'.mem)
  {
    hide Exact, Count, PageOk, Fixed, ChildPage, Injective, Forked, Protect, SharedMine;
    var sq, par, child := s.spaces[q], s.spaces[p], s'.spaces[c];
    assert SpaceOk(s.refs, s.mem, sq) && SpaceOk(s.refs, s.mem, par);
    ChildFrames(s.refs, s.mem, par, s'.refs, s'.mem, s'.spaces[p], child);
    forall t | t in sq.tables
      ensures t in s.mem && t in s'.refs && s'.mem[t] == s.mem[t]
    {
      HoldsTable(sq, t);
      SingleHolder(s.refs, s.spaces, p, q, t);
      if t in par.tables {
        HoldsTable(par, t);
      }
    }
  }

  lemma ExitKeepsTables(s: State, p: nat, s': State, q: nat)
    requires Inv(s) && Step(s, Exit(p), s') && q in s'.spaces
    ensures q in s.spaces && TablesKept(s, q, s'.refs, s'.mem)
  {
    hide Exact, PageOk, Fixed, Count, Others, Moved, SpaceOk;
    PositiveCounts(s.refs, s.spaces);
    assert Considerate(s.refs, s.mem, At(s.spaces, p), s'.refs, s'.mem) by {
      DropIsConsiderate(s.refs, s.mem, s.spaces[p], s'.refs);
    }
    ConsiderateKeepsTables(s, p, s'.refs, s'.mem, q);
  }

  lemma DropIsConsiderate(refs: map<nat, nat>, mem: Memory, sp: Space, refs': map<nat, nat>)
    requires Moved(refs, sp, refs', EMPTY)
    ensures Considerate(refs, mem, sp, refs', mem)
  {
    hide Count;
    forall f | f in refs && f in mem && Count(sp, f) < refs[f]
      ensures f in refs' && (Count(sp, f) == 0 ==> refs'[f] == refs[f])
    {
      EmptyCount(f);
      assert Total(refs', f) == Total(refs, f) - Count(sp, f) + Count(EMPTY, f);
    }
  }

  twostate predicate SameObjects(ms: MemorySet)
    reads ms, ms.pageTable
  {
    && ms.Areas() == old(ms.Areas())
    && ms.pageTable.slots == old(ms.pageTable.slots) && ms.pageTable.frames == old(ms.pageTable.frames)
    && ms.pageTable.rootPpn == old(ms.pageTable.rootPpn)
  }

  lemma SamePagesBelow(l: Layout, l': Layout)
    requires BelowTrampolines(l) && AllPages(l') == AllPages(l)
    ensures BelowTrampolines(l')
  {
  }

  /** A fault on a COW page is only raised by stores, and those are to pages of writable areas. */
  ghost predicate FaultAllowed(sp: Space, v: nat) {
    v in sp.pt && sp.pt[v].IsCow() ==> v in sp.pages && sp.pages[v].writable
  }

  ghost predicate LoadAllowed(sp: Space, v: nat) {
    v in sp.pt ==> v in sp.pages && (sp.pt[v].IsCow() ==> sp.pt[v].Readable())
  }

  /** A step of the kernel, which the machine without sharing takes as well. */
  ghost predicate Refines(s: State, e: Event, s': State) {
    && Step(s, e, s') && Permitted(s, e)
    && Abstract(s') == EagerStep(Abstract(s), e)
  }

  /** What a served fault at page `v` was. */
  ghost function FaultEvent(sp: Space, p: nat, v: nat): Event {
    if v in sp.pt then CowFault(p, v) else PageIn(p, v)
  }

  /** What a store of process `p` is to the machine: the store, after the fault that an entry without W raises. */
  ghost function StoreEvents(sp: Space, p: nat, v: nat, off: nat, b: Byte): seq<Event> {
    (if v in sp.pt && sp.pt[v].Writable() then [] else [FaultEvent(sp, p, v)]) + [Store(p, v, off, b)]
  }

  /** A served fault keeps every process in order, changes no byte anybody reads and leaves the others'
      tables alone. */
  lemma FaultStep(s: State, p: nat, v: nat, s': State)
    requires Inv(s) && p in s.spaces && FaultAllowed(s.spaces[p], v)
    requires Step(s, FaultEvent(s.spaces[p], p, v), s')
    ensures Inv(s') && Refines(s, FaultEvent(s.spaces[p], p, v), s')
    ensures s'.spaces[p].pages == s.spaces[p].pages && v in s'.spaces[p].pages && v in s'.spaces[p].frames
    ensures v in s'.spaces[p].pt && (s'.spaces[p].pages[v].writable ==> s'.spaces[p].pt[v].Writable())
    ensures v !in s.spaces[p].pt ==> !s'.spaces[p].pt[v].IsCow()
    ensures forall q :: q in s.spaces && q != p ==> TablesKept(s, q, s'.refs, s'.mem)
  {
    hide Exact, SpaceOk, Abstract, Considerate, TablesKept, PagedIn, CowServed, Pte.IsCow, Pte.Writable;
    StepRefines(s, FaultEvent(s.spaces[p], p, v), s');
    if v in s.spaces[p].pt {
      CowFaultIsConsiderate(s, p, v, s');
    } else {
      PageInIsConsiderate(s, p, v, s');
    }
    forall q | q in s.spaces && q != p
      ensures TablesKept(s, q, s'.refs, s'.mem)
    {
      ConsiderateKeepsTables(s, p, s'.refs, s'.mem, q);
    }
  }

  /** The other address spaces stand for what they stood for. */
  twostate lemma OthersStand(ms: MemorySet, new ram: Ram, new s: State, new q: nat)
    requires old(allocated(ram)) && old(ms.Valid(ram)) && old(BelowTrampolines(ms.Areas()))
    requires ram.Valid()
    requires SameObjects(ms)
    requires q in s.spaces && s.spaces[q].tables == old(ms.pageTable.slots.Keys) && s.mem == old(ram.mem)
    requires TablesKept(s, q, ram.Refs(), ram.mem)
    ensures ms.Valid(ram) && ms.View(ram) == old(ms.View(ram)) && BelowTrampolines(ms.Areas())
  {
    hide LayoutOk, TrackedFrames, AllPages, Tree, Meaning, TablesOf, Partition, BelowTrampolines;
    BindingsFrame(old(ram.mem), ram.mem, ms.pageTable.slots.Keys);
  }

  /** No two processes share an address space or a page table. */
  ghost predicate Distinct(spaces: map<nat, MemorySet>) {
    forall p, q :: p in spaces && q in spaces && p != q ==>
      spaces[p] != spaces[q] && spaces[p].pageTable != spaces[q].pageTable
  }

  class Kernel {
    const ram: Ram
    const trampoline: nat
    const sigreturn: nat
    /** The address space of each process. */
    var spaces: map<nat, MemorySet>

    ghost function Objects(): set<object>
      reads this
    {
      (set p | p in spaces :: spaces[p] as object) + (set p | p in spaces :: spaces[p].pageTable as object)
    }

    ghost function Now(): State
      reads this, ram, ram.allocator, Objects()
    {
      State(ram.Refs(), ram.mem, map p | p in spaces :: spaces[p].View(ram))
    }

    /** What each process reads. */
    ghost function Contents(): Eager
      reads this, ram, ram.allocator, Objects()
    {
      Abstract(Now())
    }

    ghost predicate SpacesOk()
      reads this, ram, ram.allocator, Objects()
    {
      && ram.Valid()
      && (forall p :: p in spaces ==> spaces[p].Valid(ram) && BelowTrampolines(spaces[p].Areas()))
      && Distinct(spaces)
    }

    ghost predicate Valid()
      reads this, ram, ram.allocator, Objects()
    {
      && trampoline < PPN_LIMIT && sigreturn < PPN_LIMIT
      && SpacesOk()
      && Inv(Now())
    }

    lemma SpaceInOrder(p: nat)
      requires Valid() && p in spaces
      ensures spaces[p].InOrder(ram)
      ensures Now().refs == ram.Refs() && Now().mem == ram.mem
      ensures Inv(Now()) && p in Now().spaces && Now().spaces[p] == spaces[p].View(ram)
      ensures Bounded(ram.Refs(), spaces[p].View(ram))
    {
      hide Exact, SpaceOk, LayoutOk, TrackedFrames, AllPages, Tree, Meaning, TablesOf, Partition;
      PositiveCounts(ram.Refs(), Now().spaces);
      BoundedAt(Now(), p);
    }

    constructor (ram: Ram, trampoline: nat, sigreturn: nat)
      requires ram.Valid() && ram.Refs() == map[] && trampoline < PPN_LIMIT && sigreturn < PPN_LIMIT
      ensures Valid() && this.ram == ram && spaces == map[] && Contents() == map[]
    {
      this.ram, this.trampoline, this.sigreturn := ram, trampoline, sigreturn;
      spaces := map[];
      new;
      BootState(ram.mem);
      assert Now() == State(map[], ram.mem, map[]);
    }

    /** The faults that `check_lazy` serves: COW pages, and lazy pages without a frame. */
    ghost predicate Serves(p: nat, va: nat)
      requires p in spaces
      reads this, ram, spaces[p], spaces[p].pageTable
    {
      var m := spaces[p].pageTable.Bindings(ram);
      if va / PAGE_SIZE in m then m[va / PAGE_SIZE].IsCow()
      else spaces[p].IsLazy(va) || va == spaces[p].brkStart + USER_HEAP_SIZE
    }

    /** The page fault of process `p` at address `va`, served by `check_lazy`. */
    method Fault(p: nat, va: nat) returns (o: Outcome, code: int)
      requires Valid() && p in spaces && spaces[p].Loaded() && va / PAGE_SIZE < VPN_LIMIT
      requires FaultAllowed(spaces[p].View(ram), va / PAGE_SIZE)
      requires !spaces[p].HeapEdge(va)
      modifies spaces[p], spaces[p].pageTable, ram.Repr
      ensures spaces == old(spaces) && ram.Valid()
      ensures o.Panicked? ==> ram.Exhausted()
      ensures o.Running? ==> Valid() && spaces[p].Loaded()
      ensures spaces[p].HeapEdge(va) == old(spaces[p].HeapEdge(va))
      ensures o.Running? && code == 0 ==>
                Ran(old(Now()), [FaultEvent(old(spaces[p].View(ram)), p, va / PAGE_SIZE)], Now())
      ensures o.Running? && code != 0 ==> Now() == old(Now())
      ensures o.Running? ==> (code == 0 <==> old(Serves(p, va)))
    {
      hide Exact, SpaceOk, LayoutOk, TrackedFrames, AllPages, Tree, Meaning, TablesOf, Partition, PagedIn, CowServed,
        Considerate, Refines, Ran, Pte.Valid, Pte.Writable, Pte.IsCow, BelowTrampolines, Inv, TablesKept, FaultAllowed, MemorySet.IsLazy, MemorySet.Loaded;
      SpaceInOrder(p);
      ghost var s := Now();
      ghost var vpn := va / PAGE_SIZE;
      o, code := spaces[p].CheckLazy(ram, va);
      if o.Panicked? {
        return;
      }
      ghost var s' := State(ram.Refs(), ram.mem, s.spaces[p := spaces[p].View(ram)]);
      if code == 0 {
        FaultStep(s, p, vpn, s');
        RefinesIsRan(s, FaultEvent(s.spaces[p], p, vpn), s');
      } else {
        NothingMoved(s);
        assert s' == s;
      }
      Settled(this, p, s');
    }

    /** A byte stored through a writable entry. */
    method StoreThrough(p: nat, vpn: nat, off: nat, b: Byte)
      requires Valid() && p in spaces && off < PAGE_SIZE
      requires vpn in spaces[p].pageTable.Bindings(ram) && spaces[p].pageTable.Bindings(ram)[vpn].Writable()
      modifies ram.Repr
      ensures spaces == old(spaces) && ram.Valid()
      ensures Valid() && spaces[p].View(ram) == old(spaces[p].View(ram))
      ensures Refines(old(Now()), Store(p, vpn, off, b), Now())
    {
      hide Exact, SpaceOk, LayoutOk, TrackedFrames, AllPages, Tree, Meaning, TablesOf, Partition, 
        Considerate, Refines, Pte.Valid, Pte.Writable, Pte.IsCow, BelowTrampolines, Inv, TablesKept;
      ghost var s := Now();
      WritableEntry(s, p, vpn);
      spaces[p].pageTable.BindingsBound(ram);
      var pte := spaces[p].pageTable.Translate(ram, vpn);
      var f := pte.value.ppn;
      ram.WritePage(f, ram.mem[f][off := b]);
      BindingsFrame(s.mem, ram.mem, spaces[p].pageTable.slots.Keys);
      ghost var s' := State(ram.Refs(), ram.mem, s.spaces[p := spaces[p].View(ram)]);
      StoreStep(s, p, vpn, off, b, s');
      Settled(this, p, s');
    }

    /** The entry of page `vpn`, read by the MMU. */
    method Lookup(p: nat, vpn: nat) returns (pte: Option<Pte>)
      requires Valid() && p in spaces && vpn < VPN_LIMIT
      ensures Valid() && Now() == old(Now())
      ensures var m := spaces[p].pageTable.Bindings(ram); pte == if vpn in m then Some(m[vpn]) else None
    {
      hide Exact, SpaceOk, LayoutOk, TrackedFrames, AllPages, Tree, Meaning, TablesOf, Partition, BelowTrampolines, Inv, TablesKept;
      NothingMoved(Now());
      pte := spaces[p].pageTable.Translate(ram, vpn);
      Settled(this, p, old(Now()));
    }

    /** A store instruction of process `p`: through the page table, or, after a fault that `check_lazy`
        serves, once more. */
    method UserStore(p: nat, va: nat, b: Byte) returns (o: Outcome, code: int)
      requires Valid() && p in spaces && spaces[p].Loaded() && va / PAGE_SIZE < VPN_LIMIT
      requires va / PAGE_SIZE in spaces[p].View(ram).pages ==> spaces[p].View(ram).pages[va / PAGE_SIZE].writable
      requires !spaces[p].HeapEdge(va)
      modifies spaces[p], spaces[p].pageTable, ram.Repr
      ensures spaces == old(spaces) && ram.Valid()
      ensures o.Panicked? ==> ram.Exhausted()
      ensures o.Running? ==> Valid() && spaces[p].Loaded()
      ensures o.Running? && code == 0 ==> StoreSeen(old(Now()), p, va / PAGE_SIZE, va % PAGE_SIZE, b, Now())
      ensures o.Running? && code == 0 ==>
                Ran(old(Now()), StoreEvents(old(spaces[p].View(ram)), p, va / PAGE_SIZE, va % PAGE_SIZE, b), Now())
      ensures o.Running? && code != 0 ==> Now() == old(Now())
      ensures o.Running? ==> (code == 0 <==> old(va / PAGE_SIZE in spaces[p].View(ram).frames || Serves(p, va)))
    {
      hide Exact, SpaceOk, LayoutOk, TrackedFrames, AllPages, Tree, Meaning, TablesOf, Partition, Step,
        Refines, Ran, Pte.Valid, Pte.Writable, Pte.IsCow, BelowTrampolines, Inv, StoreSeen,
        Valid, SpacesOk, Now, MemorySet.HeapEdge, FaultEvent, FaultAllowed;
      ghost var s := Now();
      SpaceInOrder(p);
      ghost var v := va / PAGE_SIZE;
      StoreCases(s, p, v);
      var pte := Lookup(p, va / PAGE_SIZE);
      if pte == None || !pte.value.Writable() {
        o, code := Fault(p, va);
        if o.Panicked? || code != 0 {
          return;
        }
        ghost var s1 := Now();
        SpaceInOrder(p);
        RefinesIsRan(s, FaultEvent(s.spaces[p], p, v), s1);
        ServedPage(s, p, v, s1);
        StoreThrough(p, va / PAGE_SIZE, va % PAGE_SIZE, b);
        SeenAfterFault(s, p, v, s1, va % PAGE_SIZE, b, Now());
        RefinesIsRan(s1, Store(p, v, va % PAGE_SIZE, b), Now());
        RanOn(s, [FaultEvent(s.spaces[p], p, v)], s1, [Store(p, v, va % PAGE_SIZE, b)], Now());
        return;
      }
      StoreThrough(p, va / PAGE_SIZE, va % PAGE_SIZE, b);
      SeenAtOnce(s, p, v, va % PAGE_SIZE, b, Now());
      RefinesIsRan(s, Store(p, v, va % PAGE_SIZE, b), Now());
      assert [] + [Store(p, v, va % PAGE_SIZE, b)] == [Store(p, v, va % PAGE_SIZE, b)];
      return Running, 0;
    }

    /** A load instruction of process `p`. */
    method UserLoad(p: nat, va: nat) returns (o: Outcome, code: int, b: Byte)
      requires Valid() && p in spaces && spaces[p].Loaded() && va / PAGE_SIZE < VPN_LIMIT
      // the trampolines are not the user's, and a load from a readable COW page raises no fault
      requires LoadAllowed(spaces[p].View(ram), va / PAGE_SIZE)
      requires !spaces[p].HeapEdge(va)
      modifies spaces[p], spaces[p].pageTable, ram.Repr
      ensures spaces == old(spaces) && ram.Valid()
      ensures o.Panicked? ==> ram.Exhausted()
      ensures o.Running? ==> Valid() && spaces[p].Loaded()
      ensures o.Running? ==> Abstract(Now()) == Abstract(old(Now()))
      ensures o.Running? ==>
                Now() == old(Now()) || Ran(old(Now()), [FaultEvent(old(spaces[p].View(ram)), p, va / PAGE_SIZE)], Now())
      ensures o.Running? && code == 0 ==> Reads(old(Now()), p, va / PAGE_SIZE, va % PAGE_SIZE, b)
      ensures var m := old(spaces[p].pageTable.Bindings(ram));
              va / PAGE_SIZE in m && m[va / PAGE_SIZE].Readable() ==> o.Running? && code == 0
    {
      hide Exact, SpaceOk, LayoutOk, TrackedFrames, AllPages, Tree, Meaning, TablesOf, Partition, Step,
        Refines, Ran, Pte.Valid, Pte.Writable, Pte.IsCow, Pte.Readable, BelowTrampolines, Inv, Reads, Abstract,
        Valid, SpacesOk, Now, MemorySet.HeapEdge, FaultEvent, FaultAllowed;
      ghost var s := Now();
      SpaceInOrder(p);
      ghost var v := va / PAGE_SIZE;
      LoadCases(s.spaces[p], v);
      var pte := Lookup(p, va / PAGE_SIZE);
      if pte == None || !pte.value.Readable() {
        o, code := Fault(p, va);
        if o.Panicked? || code != 0 {
          return o, code, 0;
        }
        ghost var s1 := Now();
        SpaceInOrder(p);
        RefinesIsRan(s, FaultEvent(s.spaces[p], p, v), s1);
        ServedPage(s, p, v, s1);
        FaultHidden(s, p, v, s1);
        pte := Lookup(p, va / PAGE_SIZE);
        SpaceInOrder(p);
        LoadCases(s1.spaces[p], v);
        if !pte.value.Readable() {
          o, code := Fault(p, va);
          return o, code, 0;
        }
      }
      SpaceInOrder(p);
      ReadsMapped(Now(), p, v, va % PAGE_SIZE);
      SameReads(s, Now(), p, v, va % PAGE_SIZE);
      return Running, 0, ram.mem[pte.value.ppn][va % PAGE_SIZE];
    }

    /** The address space of a child of process `p`, which will be process `c`. */
    method CloneSpace(p: nat, ghost c: nat) returns (o: Outcome, child: MemorySet?, ghost s': State)
      requires Valid() && p in spaces && c !in spaces
      // reference counts are bytes
      requires forall f :: f in ram.Refs() ==> ram.Refs()[f] + |SharedMine(spaces[p].View(ram), f)| < 256
      modifies spaces[p].pageTable, ram.Repr
      ensures spaces == old(spaces) && ram.Valid()
      ensures o.Panicked? ==> ram.Exhausted()
      ensures o.Running? ==>
                && child != null && fresh(child) && fresh(child.pageTable)
                && InPlace(spaces[p], ram, p, s') && InPlace(child, ram, c, s')
                && Inv(s') && Refines(old(Now()), Fork(p, c), s')
                && s'.refs == ram.Refs() && s'.mem == ram.mem && s'.spaces.Keys == spaces.Keys + {c}
      ensures o.Running? ==> forall q :: q in spaces && q != p ==>
                SameObjects(spaces[q]) && TablesKept(old(Now()), q, ram.Refs(), ram.mem)
      ensures o.Running? ==> OthersIn(old(Now()), s', {p, c})
    {
      hide Exact, SpaceOk, LayoutOk, TrackedFrames, AllPages, Tree, Meaning, TablesOf, Partition, ForkedFrom, SharedMine,
        BelowTrampolines, Inv, Distinct, Abstract, Ram.Exhausted, TablesKept, Refines, Step, EagerStep;
      SpaceInOrder(p);
      DistinctTables(spaces, p);
      s' := Now();
      o, child := FromCopyOnWrite(ram, spaces[p], trampoline, sigreturn);
      if o.Running? {
        ghost var s := old(Now());
        s' := State(ram.Refs(), ram.mem, s.spaces[p := spaces[p].View(ram)][c := child.View(ram)]);
        ForkIsStep(s, p, c, s');
        SamePagesBelow(old(spaces[p].Areas()), spaces[p].Areas());
        SamePagesBelow(old(spaces[p].Areas()), child.Areas());
      }
    }

    /** Fork: `from_copy_on_write` makes the address space of the new process `c`. */
    method Clone(p: nat, c: nat) returns (o: Outcome)
      requires Valid() && p in spaces && c !in spaces
      requires forall f :: f in ram.Refs() ==> ram.Refs()[f] + |SharedMine(spaces[p].View(ram), f)| < 256
      modifies this, spaces[p].pageTable, ram.Repr
      ensures ram.Valid()
      ensures o.Panicked? ==> ram.Exhausted()
      ensures o.Running? ==> Valid() && spaces.Keys == old(spaces.Keys) + {c}
      ensures o.Running? ==> Ran(old(Now()), [Fork(p, c)], Now())
    {
      hide SharedMine, Refines, Ran, Inv, TablesKept, Distinct, Ram.Exhausted, SameObjects, InPlace, Ram.Valid, Ram.Refs,
        MemorySet.Valid, MemorySet.View, BelowTrampolines, Now, OthersIn;
      var child;
      ghost var s';
      o, child, s' := CloneSpace(p, c);
      if o.Running? {
        DistinctAdded(spaces, c, child);
        spaces := spaces[c := child];
        Standing(this, {p, c}, s');
        Assembled(this, s');
        RefinesIsRan(old(Now()), Fork(p, c), s');
      }
    }

    /** Drops the trackers of process `p`. */
    method DropTrackers(p: nat) returns (ghost s': State)
      requires Valid() && p in spaces
      modifies ram.Repr
      ensures spaces == old(spaces) && ram.Valid()
      ensures Inv(s') && Refines(old(Now()), Exit(p), s')
      ensures s'.refs == ram.Refs() && s'.mem == ram.mem && s'.spaces.Keys == spaces.Keys - {p}
      ensures forall q :: q in spaces && q != p ==> SameObjects(spaces[q]) && TablesKept(old(Now()), q, ram.Refs(), ram.mem)
      ensures OthersIn(old(Now()), s', {p})
    {
      hide Exact, SpaceOk, LayoutOk, TrackedFrames, AllPages, Tree, Meaning, TablesOf, Partition, Dropped,
        Refines, BelowTrampolines, Inv, TablesKept, EagerStep, Distinct, Step, Abstract, Bounded;
      SpaceInOrder(p);
      ghost var s := Now();
      DropSpace(ram, spaces[p]);
      s' := State(ram.Refs(), ram.mem, s.spaces - {p});
      ExitIsStep(s, p, s');
    }

    /** Exit: the address space of process `p` is dropped. */
    method Remove(p: nat)
      requires Valid() && p in spaces
      modifies this, ram.Repr
      ensures Valid() && spaces.Keys == old(spaces.Keys) - {p}
      ensures Ran(old(Now()), [Exit(p)], Now())
    {
      hide Refines, Ran, Inv, TablesKept, Distinct, SameObjects, InPlace, Ram.Valid, Ram.Refs,
        MemorySet.Valid, MemorySet.View, BelowTrampolines, Now, OthersIn;
      ghost var s' := DropTrackers(p);
      DistinctRemoved(spaces, p);
      spaces := spaces - {p};
      Standing(this, {p}, s');
      Assembled(this, s');
      RefinesIsRan(old(Now()), Exit(p), s');
    }

    /** A bare address space, made beside the others for process `c`. */
    method NewSpace(ghost c: nat) returns (o: Outcome, child: MemorySet?, ghost s': State)
      requires Valid() && c !in spaces
      modifies ram.Repr
      ensures spaces == old(spaces) && ram.Valid()
      ensures o.Panicked? ==> ram.Exhausted()
      ensures o.Running? ==>
                && child != null && fresh(child) && fresh(child.pageTable)
                && InPlace(child, ram, c, s')
                && Inv(s') && Refines(old(Now()), Create(c), s')
                && s'.refs == ram.Refs() && s'.mem == ram.mem && s'.spaces.Keys == spaces.Keys + {c}
      ensures o.Running? ==> forall q :: q in spaces ==>
                SameObjects(spaces[q]) && TablesKept(old(Now()), q, ram.Refs(), ram.mem)
      ensures o.Running? ==> OthersIn(old(Now()), s', {c})
    {
      hide Exact, SpaceOk, LayoutOk, TrackedFrames, AllPages, Tree, Meaning, TablesOf, Partition, Grew, Bare,
        BelowTrampolines, Inv, Distinct, Abstract, Ram.Exhausted, Pte.IsCow, Pte.Writable, TablesKept, Refines, Step, EagerStep;
      s' := Now();
      o, child := NewBare(ram, trampoline, sigreturn);
      if o.Running? {
        ghost var s := old(Now());
        s' := State(ram.Refs(), ram.mem, s.spaces[c := child.View(ram)]);
        BareSpace(old(ram.Refs()), old(ram.mem), ram.Refs(), ram.mem, child.View(ram));
        CreateIsStep(s, c, s');
        NoPagesBelow(child.Areas());
      }
    }

    /** A new address space with nothing but the trampolines. */
    method Spawn(c: nat) returns (o: Outcome)
      requires Valid() && c !in spaces
      modifies this, ram.Repr
      ensures ram.Valid()
      ensures o.Panicked? ==> ram.Exhausted()
      ensures o.Running? ==> Valid() && spaces.Keys == old(spaces.Keys) + {c}
      ensures o.Running? ==> Ran(old(Now()), [Create(c)], Now())
    {
      hide Refines, Ran, Inv, TablesKept, Distinct, Ram.Exhausted, SameObjects, InPlace, Ram.Valid, Ram.Refs,
        MemorySet.Valid, MemorySet.View, BelowTrampolines, Now, OthersIn;
      var child;
      ghost var s';
      o, child, s' := NewSpace(c);
      if o.Running? {
        DistinctAdded(spaces, c, child);
        spaces := spaces[c := child];
        Standing(this, {c}, s');
        Assembled(this, s');
        RefinesIsRan(old(Now()), Create(c), s');
      }
    }

    /** Process `p` gets the frames of a new area. */
    method LoadPages(p: nat, area: VmArea, data: Option<Source>, ghost startVa: nat) returns (o: Outcome, ghost s': State)
      requires Valid() && p in spaces && area.areaType != UserHeap
      requires Vacant(spaces[p].View(ram), area) && (data.Some? ==> Fits(data.value, startVa, area))
      requires !area.Contains(TRAMPOLINE_VPN) && !area.Contains(SIGNAL_TRAMPOLINE_VPN)
      modifies spaces[p], spaces[p].pageTable, ram.Repr
      ensures spaces == old(spaces) && ram.Valid()
      ensures spaces[p].heapAreas == old(spaces[p].heapAreas) && spaces[p].userStackAreas == old(spaces[p].userStackAreas)
      ensures o.Panicked? ==> ram.Exhausted()
      ensures o.Running? ==>
                && Inv(s') && Loads(old(Now()), p, area, AreaBytes(area, data, startVa), s')
                && InPlace(spaces[p], ram, p, s')
                && s'.refs == ram.Refs() && s'.mem == ram.mem && s'.spaces.Keys == spaces.Keys
      ensures o.Running? ==> forall q :: q in spaces && q != p ==> TablesKept(old(Now()), q, ram.Refs(), ram.mem)
      ensures o.Running? ==> OthersIn(old(Now()), s', {p})
    {
      hide Exact, SpaceOk, LayoutOk, TrackedFrames, AllPages, Tree, Meaning, TablesOf, Partition, Filled, Reserved, RangePages,
        Refines, BelowTrampolines, Inv, TablesKept, AreaBytes, Fits, Distinct, Ram.Exhausted, Vacant, Abstract, Step, EagerStep,
        Loads, WithArea, Bounded, OthersIn, MemorySet.Loaded, VmArea.Contains;
      SpaceInOrder(p);
      DistinctTables(spaces, p);
      ghost var s := Now();
      s' := s;
      o := InsertAndMap(spaces[p], ram, area, data, startVa);
      if o.Running? {
        s' := State(ram.Refs(), ram.mem, s.spaces[p := spaces[p].View(ram)]);
        LoadIsStep(s, p, area, AreaBytes(area, data, startVa), s');
        JoinBelow(old(spaces[p].Areas()), spaces[p].Areas(), area);
      }
    }

    /** A new area of process `p` whose pages get frames at once: a segment of a program, a trap context. */
    method LoadArea(p: nat, area: VmArea, data: Option<Source>, ghost startVa: nat) returns (o: Outcome)
      requires Valid() && p in spaces && area.areaType != UserHeap
      requires Vacant(spaces[p].View(ram), area) && (data.Some? ==> Fits(data.value, startVa, area))
      requires !area.Contains(TRAMPOLINE_VPN) && !area.Contains(SIGNAL_TRAMPOLINE_VPN)
      modifies spaces[p], spaces[p].pageTable, ram.Repr
      ensures spaces == old(spaces) && ram.Valid()
      ensures spaces[p].heapAreas == old(spaces[p].heapAreas) && spaces[p].userStackAreas == old(spaces[p].userStackAreas)
      ensures o.Panicked? ==> ram.Exhausted()
      ensures o.Running? ==> Valid()
      ensures o.Running? ==>
                Ran(old(Now()), [Reserve(p, RangePages(area)), Fill(p, AreaBytes(area, data, startVa))], Now())
    {
      hide Refines, Ran, Inv, TablesKept, Distinct, Ram.Exhausted, InPlace, Ram.Refs, Vacant, Loads, AreaBytes, RangePages,
        MemorySet.Valid, MemorySet.View, BelowTrampolines, Now, OthersIn, Fits;
      ghost var s';
      DistinctSpaces(spaces, p);
      o, s' := LoadPages(p, area, data, startVa);
      if o.Running? {
        assert forall q :: q in spaces && q != p ==> SameObjects(spaces[q]);
        Standing(this, {p}, s');
        Assembled(this, s');
        LoadsIsRan(old(Now()), p, area, AreaBytes(area, data, startVa), s');
      }
    }

    /** The stack and the heap of process `p` are placed. */
    method PlaceLazyAreas(p: nat, stackTop: nat, heapBottom: nat)
      requires Valid() && p in spaces && stackTop % PAGE_SIZE == 0 && USER_STACK_SIZE <= stackTop
      requires spaces[p].userStackAreas.start == spaces[p].userStackAreas.end && spaces[p].heapAreas.start == spaces[p].heapAreas.end
      requires LazyAreasFit(spaces[p].View(ram), stackTop, heapBottom)
      modifies spaces[p]
      ensures spaces == old(spaces) && Valid() && spaces[p].Loaded()
      ensures Ran(old(Now()), [Reserve(p, StackAndHeap(stackTop, heapBottom))], Now())
    {
      hide Exact, SpaceOk, LayoutOk, TrackedFrames, AllPages, Tree, Meaning, TablesOf, Partition, Reserved, RangePages,
        Refines, Ran, BelowTrampolines, Inv, TablesKept, Distinct, Vacant, Abstract, Step, EagerStep, StackAndHeap;
      SpaceInOrder(p);
      DistinctTables(spaces, p);
      ghost var s := Now();
      Loading.PlaceStackAndHeap(spaces[p], ram, stackTop, heapBottom);
      ghost var s' := State(ram.Refs(), ram.mem, s.spaces[p := spaces[p].View(ram)]);
      ReserveIsStep(s, p, StackAndHeap(stackTop, heapBottom), s');
      LazyBelow(s.spaces[p], stackTop, heapBottom, old(spaces[p].Areas()), spaces[p].Areas());
      Rejoined(this, p, s');
      RefinesIsRan(s, Reserve(p, StackAndHeap(stackTop, heapBottom)), s');
    }

    /** An anonymous mapping of process `p`. */
    method Mmap(p: nat, length: nat, prot: Prot) returns (start: nat)
      requires Valid() && p in spaces
      requires MappingFits(spaces[p].View(ram), spaces[p].mmapManager.top / PAGE_SIZE, Ceil(length))
      modifies spaces[p]
      ensures spaces == old(spaces) && Valid() && spaces[p].Loaded() == old(spaces[p].Loaded()) && start == old(spaces[p].mmapManager.top)
      ensures Ran(old(Now()), [Reserve(p, NewMapping(start / PAGE_SIZE, Ceil(length), prot))], Now())
    {
      hide Exact, SpaceOk, LayoutOk, TrackedFrames, AllPages, Tree, Meaning, TablesOf, Partition, Reserved,
        Refines, Ran, BelowTrampolines, Inv, TablesKept, Distinct, Abstract, Step, EagerStep, NewMapping;
      SpaceInOrder(p);
      DistinctTables(spaces, p);
      ghost var s := Now();
      start := MapAnonymous(spaces[p], ram, length, prot);
      ghost var s' := State(ram.Refs(), ram.mem, s.spaces[p := spaces[p].View(ram)]);
      ReserveIsStep(s, p, NewMapping(start / PAGE_SIZE, Ceil(length), prot), s');
      MappingBelow(old(spaces[p].Areas()), spaces[p].Areas(), start / PAGE_SIZE, Ceil(length), prot);
      Rejoined(this, p, s');
      RefinesIsRan(s, Reserve(p, NewMapping(start / PAGE_SIZE, Ceil(length), prot)), s');
    }
  }

  /** The processes outside `changed` have the objects they had, in a memory that kept their tables. */
  twostate predicate LeftAlone(k: Kernel, new changed: set<nat>)
    reads k, k.ram, k.ram.allocator, k.Objects()
  {
    forall q :: q in k.spaces && q !in changed ==>
      && q in old(k.spaces) && k.spaces[q] == old(k.spaces[q])
      && SameObjects(k.spaces[q])
      && TablesKept(old(k.Now()), q, k.ram.Refs(), k.ram.mem)
  }

  twostate lemma OneStands(k: Kernel, new changed: set<nat>, new q: nat)
    requires old(k.SpacesOk()) && k.ram.Valid() && LeftAlone(k, changed) && q in k.spaces && q !in changed
    ensures q in old(k.Now()).spaces
    ensures k.spaces[q].Valid(k.ram) && k.spaces[q].View(k.ram) == old(k.Now()).spaces[q]
    ensures BelowTrampolines(k.spaces[q].Areas())
  {
    hide LayoutOk, TrackedFrames, AllPages, Tree, Meaning, TablesOf, Partition, BelowTrampolines, Inv, TablesKept,
      MemorySet.Valid, PageTable.Valid, PageTable.Bindings, SameObjects, MemorySet.Areas, Ram.Valid;
    OthersStand(k.spaces[q], k.ram, old(k.Now()), q);
  }

  /** The address spaces are in place one by one, and stand for those of `s'`. */
  ghost predicate InPlace(ms: MemorySet, ram: Ram, p: nat, s': State)
    reads ms, ms.pageTable, ram, ram.allocator
  {
    && ms.Valid(ram) && BelowTrampolines(ms.Areas())
    && p in s'.spaces && s'.spaces[p] == ms.View(ram)
  }

  lemma Assembled(k: Kernel, s': State)
    requires k.trampoline < PPN_LIMIT && k.sigreturn < PPN_LIMIT && k.ram.Valid() && Distinct(k.spaces)
    requires forall q :: q in k.spaces ==> InPlace(k.spaces[q], k.ram, q, s')
    requires s'.spaces.Keys == k.spaces.Keys && s'.refs == k.ram.Refs() && s'.mem == k.ram.mem && Inv(s')
    ensures k.Valid() && k.Now() == s'
  {
    hide LayoutOk, TrackedFrames, AllPages, Tree, Meaning, TablesOf, Partition, BelowTrampolines, Inv, Distinct,
      MemorySet.Valid, PageTable.Valid, PageTable.Bindings, MemorySet.Areas, Ram.Valid;
    assert k.Now() == s';
  }

  /** From `s` to `s'` only the spaces of the processes in `changed` differ. */
  ghost predicate OthersIn(s: State, s': State, changed: set<nat>) {
    && s.spaces.Keys - changed == s'.spaces.Keys - changed
    && (forall q :: q in s.spaces && q !in changed ==> q in s'.spaces && s'.spaces[q] == s.spaces[q])
  }

  /** The processes outside `changed` stand where they stood. */
  twostate lemma Standing(k: Kernel, new changed: set<nat>, new s': State)
    requires old(k.SpacesOk()) && k.ram.Valid() && LeftAlone(k, changed)
    requires OthersIn(old(k.Now()), s', changed)
    ensures forall q :: q in k.spaces && q !in changed ==> InPlace(k.spaces[q], k.ram, q, s')
  {
    hide LayoutOk, TrackedFrames, AllPages, Tree, Meaning, TablesOf, Partition, BelowTrampolines, Inv, TablesKept,
      MemorySet.Valid, PageTable.Valid, PageTable.Bindings, SameObjects, MemorySet.Areas, Ram.Valid, LeftAlone, Kernel.SpacesOk,
      Kernel.Now;
    forall q | q in k.spaces && q !in changed
      ensures InPlace(k.spaces[q], k.ram, q, s')
    {
      OneStands(k, changed, q);
    }
  }

  /** After a step of process `p` the objects stand for `s'`. */
  twostate lemma Settled(k: Kernel, new p: nat, new s': State)
    requires old(k.Valid()) && p in k.spaces && k.spaces == old(k.spaces) && k.ram.Valid() && k.spaces[p].Valid(k.ram)
    requires LeftAlone(k, {p})
    requires k.spaces[p].View(k.ram).pages == old(k.spaces[p].View(k.ram).pages)
    requires s' == State(k.ram.Refs(), k.ram.mem, old(k.Now()).spaces[p := k.spaces[p].View(k.ram)]) && Inv(s')
    ensures k.Valid() && k.Now() == s'
  {
    hide LayoutOk, TrackedFrames, AllPages, Tree, Meaning, TablesOf, Partition, BelowTrampolines, Inv, TablesKept,
      MemorySet.Valid, PageTable.Valid, PageTable.Bindings, SameObjects, MemorySet.Areas, Ram.Valid, LeftAlone, Distinct;
    SamePagesBelow(old(k.spaces[p].Areas()), k.spaces[p].Areas());
    Standing(k, {p}, s');
    Assembled(k, s');
  }

  /** A writable entry belongs to a tracked page, whose frame is none of the tables. */
  lemma WritableEntry(s: State, p: nat, v: nat)
    requires Inv(s) && p in s.spaces && v in s.spaces[p].pt && s.spaces[p].pt[v].Writable()
    ensures v in s.spaces[p].frames && v in s.spaces[p].pages && s.spaces[p].frames[v] == s.spaces[p].pt[v].ppn
    ensures s.spaces[p].frames[v] in s.mem && s.spaces[p].frames[v] !in s.spaces[p].tables
    ensures v in Bytes(s.mem, s.spaces[p])
  {
    hide Exact, Pte.Writable, Pte.IsCow, Pte.Valid;
    var sp := s.spaces[p];
    assert SpaceOk(s.refs, s.mem, sp);
    assert v in sp.frames || Fixed(sp, v);
    assert PageOk(s.refs, s.mem, sp, v);
  }

  lemma StoreStep(s: State, p: nat, v: nat, off: nat, b: Byte, s': State)
    requires Inv(s) && p in s.spaces && off < PAGE_SIZE
    requires v in s.spaces[p].pt && s.spaces[p].pt[v].Writable() && s.spaces[p].pt[v].ppn in s.mem
    requires s' == s.(mem := s.mem[s.spaces[p].pt[v].ppn := s.mem[s.spaces[p].pt[v].ppn][off := b]])
    ensures Refines(s, Store(p, v, off, b), s') && Inv(s')
    ensures forall q :: q in s.spaces && q != p ==> TablesKept(s, q, s'.refs, s'.mem)
  {
    hide Exact, SpaceOk, Considerate, TablesKept, Pte.Writable, EagerStep, Inv;
    WritableEntry(s, p, v);
    assert s'.spaces == s.spaces[p := s'.spaces[p]];
    StepRefines(s, Store(p, v, off, b), s');
    StoreIsConsiderate(s, p, v, off, b, s');
    forall q | q in s.spaces && q != p
      ensures TablesKept(s, q, s'.refs, s'.mem)
    {
      ConsiderateKeepsTables(s, p, s'.refs, s'.mem, q);
    }
  }

  lemma RefinesIsRan(s: State, e: Event, s': State)
    ensures Refines(s, e, s') <==> Ran(s, [e], s')
  {
    hide Step, Permitted, Abstract, EagerStep;
    RanOnce(s, e, s');
  }

  lemma LoadsIsRan(s: State, p: nat, area: VmArea, bytes: map<nat, Page>, s': State)
    requires Loads(s, p, area, bytes, s')
    ensures Ran(s, [Reserve(p, RangePages(area)), Fill(p, bytes)], s')
  {
    hide Refines, Ran, RangePages;
    var s1 := Reserving(s, p, area);
    RefinesIsRan(s, Reserve(p, RangePages(area)), s1);
    RefinesIsRan(s1, Fill(p, bytes), s');
    RanOn(s, [Reserve(p, RangePages(area))], s1, [Fill(p, bytes)], s');
    assert [Reserve(p, RangePages(area))] + [Fill(p, bytes)] == [Reserve(p, RangePages(area)), Fill(p, bytes)];
  }

  /** The eager machine took the store, and it hit a page of the process. */
  ghost predicate StoreSeen(s: State, p: nat, v: nat, off: nat, b: Byte, s': State) {
    && off < PAGE_SIZE
    && p in Abstract(s) && v in Abstract(s)[p]
    && Abstract(s') == EagerStep(Abstract(s), Store(p, v, off, b))
  }

  /** Byte `b` is what process `p` reads at `off` of page `v`, if that is a page of one of its areas. */
  ghost predicate Reads(s: State, p: nat, v: nat, off: nat, b: Byte) {
    off < PAGE_SIZE && p in Abstract(s) && v in Abstract(s)[p] ==> Abstract(s)[p][v][off] == b
  }

  lemma StoreCases(s: State, p: nat, v: nat)
    requires Inv(s) && p in s.spaces
    requires v in s.spaces[p].pages ==> s.spaces[p].pages[v].writable
    ensures FaultAllowed(s.spaces[p], v)
    ensures v in s.spaces[p].frames ==> v in s.spaces[p].pt && (s.spaces[p].pt[v].Writable() || s.spaces[p].pt[v].IsCow())
    ensures v in s.spaces[p].pt && s.spaces[p].pt[v].Writable() ==> v in s.spaces[p].frames
    ensures v in s.spaces[p].pt && s.spaces[p].pt[v].IsCow() ==> v in s.spaces[p].frames
  {
    hide Exact, Pte.Writable, Pte.IsCow, Pte.Valid;
    var sp := s.spaces[p];
    assert SpaceOk(s.refs, s.mem, sp);
    if v in sp.frames {
      assert PageOk(s.refs, s.mem, sp, v);
    }
  }

  lemma LoadCases(sp: Space, v: nat)
    ensures v !in sp.pt || !sp.pt[v].IsCow() ==> FaultAllowed(sp, v)
  {
  }

  lemma ServedPage(s: State, p: nat, v: nat, s': State)
    requires Inv(s) && p in s.spaces && FaultAllowed(s.spaces[p], v)
    requires Refines(s, FaultEvent(s.spaces[p], p, v), s')
    ensures p in s'.spaces && v in s'.spaces[p].pt && v in s'.spaces[p].pages
    ensures s'.spaces[p].pages == s.spaces[p].pages
    ensures s'.spaces[p].pages[v].writable ==> s'.spaces[p].pt[v].Writable()
    ensures v !in s.spaces[p].pt ==> !s'.spaces[p].pt[v].IsCow()
  {
    hide Inv, Abstract, PagedIn, CowServed, Pte.Writable, Pte.IsCow;
    FaultStep(s, p, v, s');
  }

  lemma FaultHidden(s: State, p: nat, v: nat, s': State)
    requires p in s.spaces && Refines(s, FaultEvent(s.spaces[p], p, v), s')
    ensures Abstract(s') == Abstract(s)
  {
    hide Abstract, Step;
  }

  lemma SeenAtOnce(s: State, p: nat, v: nat, off: nat, b: Byte, s': State)
    requires Inv(s) && Refines(s, Store(p, v, off, b), s')
    ensures StoreSeen(s, p, v, off, b, s')
  {
    hide Exact, Pte.Writable, EagerStep;
    WritableEntry(s, p, v);
  }

  lemma SeenAfterFault(s: State, p: nat, v: nat, s1: State, off: nat, b: Byte, s': State)
    requires Inv(s1) && p in s.spaces && Refines(s, FaultEvent(s.spaces[p], p, v), s1)
    requires Refines(s1, Store(p, v, off, b), s')
    ensures StoreSeen(s, p, v, off, b, s')
  {
    hide Inv, Abstract, Step, Refines;
    FaultHidden(s, p, v, s1);
    SeenAtOnce(s1, p, v, off, b, s');
  }

  lemma ReadsMapped(s: State, p: nat, v: nat, off: nat)
    requires Inv(s) && p in s.spaces && v in s.spaces[p].pt && off < PAGE_SIZE
    ensures v in s.spaces[p].pages ==> s.spaces[p].pt[v].ppn in s.mem && Reads(s, p, v, off, s.mem[s.spaces[p].pt[v].ppn][off])
  {
    hide Exact, Pte.Writable, Pte.IsCow, Pte.Valid;
    var sp := s.spaces[p];
    assert SpaceOk(s.refs, s.mem, sp);
    assert v in sp.frames || Fixed(sp, v);
    if v in sp.frames {
      assert PageOk(s.refs, s.mem, sp, v);
    }
  }

  lemma SameReads(s: State, s': State, p: nat, v: nat, off: nat)
    requires Abstract(s') == Abstract(s)
    ensures forall b :: Reads(s', p, v, off, b) == Reads(s, p, v, off, b)
  {
    hide Abstract;
  }

  lemma ForkIsStep(s: State, p: nat, c: nat, s': State)
    requires Inv(s) && p in s.spaces && c !in s.spaces && p in s'.spaces && c in s'.spaces
    requires s'.spaces == s.spaces[p := s'.spaces[p]][c := s'.spaces[c]]
    requires ForkedFrom(s.refs, s.mem, s.spaces[p], s'.refs, s'.mem, s'.spaces[p], s'.spaces[c])
    ensures Inv(s') && Refines(s, Fork(p, c), s') && s'.spaces[c].pages == s.spaces[p].pages && s'.spaces[p].pages == s.spaces[p].pages
    ensures forall q :: q in s.spaces && q != p ==> TablesKept(s, q, s'.refs, s'.mem)
  {
    hide Inv, Abstract, TablesKept, EagerStep, ChildPage, Kept, Injective;
    StepRefines(s, Fork(p, c), s');
    forall q | q in s.spaces && q != p
      ensures TablesKept(s, q, s'.refs, s'.mem)
    {
      ForkKeepsTables(s, p, c, s', q);
    }
  }

  lemma ExitIsStep(s: State, p: nat, s': State)
    requires Inv(s) && p in s.spaces && s'.spaces == s.spaces - {p}
    requires Dropped(s.refs, s.mem, s.spaces[p], s'.refs, s'.mem)
    ensures Inv(s') && Refines(s, Exit(p), s')
    ensures forall q :: q in s'.spaces ==> q in s.spaces && TablesKept(s, q, s'.refs, s'.mem)
  {
    hide Inv, Abstract, TablesKept, EagerStep, Dropped;
    StepRefines(s, Exit(p), s');
    forall q | q in s'.spaces
      ensures q in s.spaces && TablesKept(s, q, s'.refs, s'.mem)
    {
      ExitKeepsTables(s, p, s', q);
    }
  }

  lemma CreateIsStep(s: State, c: nat, s': State)
    requires Inv(s) && c !in s.spaces && c in s'.spaces && s'.spaces == s.spaces[c := s'.spaces[c]]
    requires Bare(s.refs, s.mem, s'.refs, s'.mem, s'.spaces[c])
    ensures Inv(s') && Refines(s, Create(c), s')
    ensures forall q :: q in s.spaces ==> TablesKept(s, q, s'.refs, s'.mem)
  {
    hide Exact, Abstract, EagerStep, PageOk, Fixed, Pte.Writable, Pte.IsCow, Pte.Valid;
    StepRefines(s, Create(c), s');
    forall q | q in s.spaces
      ensures TablesKept(s, q, s'.refs, s'.mem)
    {
      assert SpaceOk(s.refs, s.mem, s.spaces[q]);
    }
  }

  lemma BareSpace(refs: map<nat, nat>, mem: Memory, refs': map<nat, nat>, mem': Memory, sp: Space)
    requires Grew(refs, mem, {}, refs', mem', sp.tables)
    requires sp.frames == map[] && sp.pages == map[]
    requires forall v :: v in sp.pt ==> !sp.pt[v].Writable() && !sp.pt[v].IsCow()
    ensures Bare(refs, mem, refs', mem', sp)
  {
    hide Pte.Writable, Pte.IsCow;
  }

  lemma NoPagesBelow(l: Layout)
    requires AllPages(l) == map[]
    ensures BelowTrampolines(l)
  {
  }

  lemma DistinctRemoved(m: map<nat, MemorySet>, p: nat)
    requires Distinct(m)
    ensures Distinct(m - {p})
  {
  }

  lemma DistinctTables(m: map<nat, MemorySet>, p: nat)
    requires Distinct(m) && p in m
    ensures forall q :: q in m && q != p ==> m[q].pageTable != m[p].pageTable
  {
  }

  lemma DistinctSpaces(m: map<nat, MemorySet>, p: nat)
    requires Distinct(m) && p in m
    ensures forall q :: q in m && q != p ==> m[q] != m[p] && m[q].pageTable != m[p].pageTable
  {
  }

  lemma DistinctAdded(m: map<nat, MemorySet>, c: nat, ms: MemorySet)
    requires Distinct(m)
    requires forall q :: q in m ==> m[q] != ms && m[q].pageTable != ms.pageTable
    ensures Distinct(m[c := ms])
  {
  }

  /** Process `p` after the pages of `area` were declared, before they get their frames. */
  ghost function Reserving(s: State, p: nat, area: VmArea): State
    requires p in s.spaces
  {
    s.(spaces := s.spaces[p := WithArea(s.spaces[p], area)])
  }

  /** Two steps: the pages of `area` were declared, then they got frames with the bytes `bytes`. */
  ghost predicate Loads(s: State, p: nat, area: VmArea, bytes: map<nat, Page>, s': State) {
    && p in s.spaces
    && Refines(s, Reserve(p, RangePages(area)), Reserving(s, p, area))
    && Refines(Reserving(s, p, area), Fill(p, bytes), s')
  }

  ghost predicate LazyAreasFit(sp: Space, stackTop: nat, heapBottom: nat)
    requires USER_STACK_SIZE <= stackTop
  {
    var stack := LazyArea(UserStack, stackTop - USER_STACK_SIZE, stackTop);
    var heap := LazyArea(UserHeap, heapBottom, heapBottom + USER_HEAP_SIZE);
    && Vacant(sp, stack) && Vacant(sp, heap) && MemoryLayout.Apart(stack, heap)
    && stack.end < SIGNAL_TRAMPOLINE_VPN && heap.end < SIGNAL_TRAMPOLINE_VPN
  }

  ghost predicate MappingFits(sp: Space, first: nat, count: nat) {
    && first + count < SIGNAL_TRAMPOLINE_VPN
    && (forall v :: Loading.Among(first, count, v) ==> v !in sp.pages && v !in sp.pt)
  }

  lemma JoinBelow(l: Layout, l': Layout, area: VmArea)
    requires BelowTrampolines(l) && AllPages(l') == AllPages(l) + RangePages(area)
    requires !area.Contains(TRAMPOLINE_VPN) && !area.Contains(SIGNAL_TRAMPOLINE_VPN)
    ensures BelowTrampolines(l')
  {
    hide AllPages;
  }

  lemma LazyBelow(sp: Space, stackTop: nat, heapBottom: nat, l: Layout, l': Layout)
    requires USER_STACK_SIZE <= stackTop && LazyAreasFit(sp, stackTop, heapBottom)
    requires BelowTrampolines(l) && sp.pages == AllPages(l)
    requires AllPages(l') == AllPages(l) + StackAndHeap(stackTop, heapBottom)
    ensures BelowTrampolines(l')
  {
    hide AllPages, Vacant;
  }

  lemma MappingBelow(l: Layout, l': Layout, first: nat, count: nat, prot: Prot)
    requires BelowTrampolines(l) && first + count < SIGNAL_TRAMPOLINE_VPN
    requires AllPages(l') == AllPages(l) + NewMapping(first, count, prot)
    ensures BelowTrampolines(l')
  {
    hide AllPages;
  }

  lemma ReserveIsStep(s: State, p: nat, kinds: map<nat, Kind>, s': State)
    requires Inv(s) && p in s.spaces && p in s'.spaces && s' == s.(spaces := s.spaces[p := s'.spaces[p]])
    requires Reserved(s.spaces[p], kinds, s'.spaces[p])
    ensures Inv(s') && Refines(s, Reserve(p, kinds), s')
    ensures s'.spaces[p].pages == s.spaces[p].pages + kinds
    ensures forall q :: q in s.spaces && q != p ==> TablesKept(s, q, s'.refs, s'.mem)
  {
    hide Inv, Abstract, EagerStep;
    StepRefines(s, Reserve(p, kinds), s');
    NothingMoved(s);
  }

  lemma LoadIsStep(s: State, p: nat, area: VmArea, bytes: map<nat, Page>, s': State)
    requires Inv(s) && p in s.spaces && p in s'.spaces && s'.spaces == s.spaces[p := s'.spaces[p]]
    requires Vacant(s.spaces[p], area)
    requires Filled(s.refs, s.mem, WithArea(s.spaces[p], area), bytes, s'.refs, s'.mem, s'.spaces[p])
    ensures Inv(s') && Loads(s, p, area, bytes, s') && OthersIn(s, s', {p}) && s'.spaces.Keys == s.spaces.Keys
    ensures s'.spaces[p].pages == s.spaces[p].pages + RangePages(area)
    ensures forall q :: q in s.spaces && q != p ==> TablesKept(s, q, s'.refs, s'.mem)
  {
    hide Inv, Abstract, EagerStep, Filled, TablesKept, Considerate, Vacant, RangePages;
    var s1 := Reserving(s, p, area);
    VacantIsUnmapped(s.spaces[p], area);
    ReserveIsStep(s, p, RangePages(area), s1);
    assert s'.spaces == s1.spaces[p := s'.spaces[p]];
    StepRefines(s1, Fill(p, bytes), s');
    FillIsConsiderate(s1, p, bytes, s');
    forall q | q in s.spaces && q != p
      ensures TablesKept(s, q, s'.refs, s'.mem)
    {
      ConsiderateKeepsTables(s1, p, s'.refs, s'.mem, q);
      SameTablesKept(s, s1, q, s'.refs, s'.mem);
    }
  }

  lemma SameTablesKept(s: State, s1: State, q: nat, refs': map<nat, nat>, mem': Memory)
    requires q in s.spaces && q in s1.spaces && s1.spaces[q] == s.spaces[q] && s1.mem == s.mem
    requires TablesKept(s1, q, refs', mem')
    ensures TablesKept(s, q, refs', mem')
  {
  }

  lemma FillIsConsiderate(s: State, p: nat, bytes: map<nat, Page>, s': State)
    requires Inv(s) && Step(s, Fill(p, bytes), s')
    ensures Considerate(s.refs, s.mem, At(s.spaces, p), s'.refs, s'.mem)
    ensures s'.spaces[p].pages == s.spaces[p].pages
  {
    hide Exact, SpaceOk, Contents, Bytes, Considerate, Moved;
    PositiveCounts(s.refs, s.spaces);
    var sp, sp' := s.spaces[p], s'.spaces[p];
    var nf :| Populated(s.refs, s.mem, sp, nf, s'.refs, s'.mem, sp') && Contents(s'.mem, nf) == bytes;
    PopulatedEffect(s.refs, s.mem, sp, nf, s'.refs, s'.mem, sp');
  }

  /** After process `p` got new pages the objects stand for `s'`. */
  twostate lemma Rejoined(k: Kernel, new p: nat, new s': State)
    requires old(k.Valid()) && p in k.spaces && k.spaces == old(k.spaces) && k.ram.Valid() && k.spaces[p].Valid(k.ram)
    requires LeftAlone(k, {p}) && BelowTrampolines(k.spaces[p].Areas())
    requires s' == State(k.ram.Refs(), k.ram.mem, old(k.Now()).spaces[p := k.spaces[p].View(k.ram)]) && Inv(s')
    ensures k.Valid() && k.Now() == s'
  {
    hide LayoutOk, TrackedFrames, AllPages, Tree, Meaning, TablesOf, Partition, BelowTrampolines, Inv, TablesKept,
      MemorySet.Valid, PageTable.Valid, PageTable.Bindings, SameObjects, MemorySet.Areas, Ram.Valid, LeftAlone, Distinct;
    Standing(k, {p}, s');
    Assembled(k, s');
  }

  lemma NothingMoved(s: State)
    requires Inv(s)
    ensures forall q :: q in s.spaces ==> TablesKept(s, q, s.refs, s.mem)
  {
    hide Exact, PageOk, Fixed;
    forall q | q in s.spaces
      ensures TablesKept(s, q, s.refs, s.mem)
    {
      assert SpaceOk(s.refs, s.mem, s.spaces[q]);
    }
  }
}
