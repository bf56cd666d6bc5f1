/** `MemorySet::from_copy_on_write` (kernel/src/mm/memory_set.rs): the loops that build a child address
    space by sharing the parent's frames. */
module Forking {
  import opened Options
  import opened Sv39
  import opened FrameAllocator
  import opened PhysicalMemory
  import opened PageTables
  import opened CowSystem
  import opened CowSteps
  import opened CowFork
  import opened CowRuns
  import opened MemoryLayout
  import opened MemorySets
  import opened ForkProgress

  const TRAMPOLINE_VPN: nat := VPN_LIMIT - 1
  const SIGNAL_TRAMPOLINE_VPN: nat := VPN_LIMIT - 2

  // ---------------------------------------------------------------- a bare space

  /** `PageTable::new`. */
  method NewPageTable(ram: Ram) returns (o: Outcome, pt: PageTable?)
    requires ram.Valid()
    modifies ram.Repr
    ensures ram.Valid()
    ensures o.Panicked? ==> ram.Exhausted()
    ensures o.Running? ==>
              && pt != null && fresh(pt) && pt.Valid(ram) && pt.Bindings(ram) == map[]
              && Grew(old(ram.Refs()), old(ram.mem), {}, ram.Refs(), ram.mem, pt.slots.Keys)
  {
    hide Meaning, TablesOf, Tree, Partition;
    var got := ram.AllocFrame();
    if got == None {
      return Panicked, null;
    }
    pt := new PageTable(ram, got.value);
    return Running, pt;
  }

  /** `new_bare`, `map_trampoline` and `map_signal_trampoline`. */
  method NewBare(ram: Ram, trampoline: nat, sigreturn: nat) returns (o: Outcome, ms: MemorySet?)
    requires ram.Valid() && trampoline < PPN_LIMIT && sigreturn < PPN_LIMIT
    modifies ram.Repr
    ensures ram.Valid()
    ensures o.Panicked? ==> ram.Exhausted()
    ensures o.Running? ==>
              && ms != null && fresh(ms) && fresh(ms.pageTable) && ms.Valid(ram)
              && Grew(old(ram.Refs()), old(ram.mem), {}, ram.Refs(), ram.mem, ms.pageTable.slots.Keys)
              && ms.pageTable.Bindings(ram).Keys == {TRAMPOLINE_VPN, SIGNAL_TRAMPOLINE_VPN}
              && (forall v :: v in ms.pageTable.Bindings(ram) ==>
                    !ms.pageTable.Bindings(ram)[v].Writable() && !ms.pageTable.Bindings(ram)[v].IsCow())
              && TrackedFrames(ms.Areas()) == map[] && AllPages(ms.Areas()) == map[]
  {
    hide Meaning, TablesOf, Tree, Partition, Grew, TrackedFrames, AllPages, LayoutOk;
    var pt: PageTable?;
    o, pt := NewPageTable(ram);
    if o.Panicked? {
      return o, null;
    }
    ghost var refs1, mem1, ts1 := ram.Refs(), ram.mem, pt.slots.Keys;
    o := pt.Map(ram, TRAMPOLINE_VPN, trampoline, AddFlags(R, X));
    if o.Panicked? {
      return o, null;
    }
    ghost var refs2, mem2, ts2 := ram.Refs(), ram.mem, pt.slots.Keys;
    GrewTransitive(old(ram.Refs()), old(ram.mem), {}, refs1, mem1, ts1, refs2, mem2, ts2);
    o := pt.Map(ram, SIGNAL_TRAMPOLINE_VPN, sigreturn, AddFlags(AddFlags(R, X), U));
    if o.Panicked? {
      return o, null;
    }
    GrewTransitive(old(ram.Refs()), old(ram.mem), {}, refs2, mem2, ts2, ram.Refs(), ram.mem, pt.slots.Keys);
    ms := new MemorySet(pt);
  }

  // ---------------------------------------------------------------- one page

  /** Both page tables changed, and the child's grew. */
  ghost predicate GrewBeside(pts: set<nat>, refs: map<nat, nat>, mem: Memory, ts: set<nat>,
                             refs': map<nat, nat>, mem': Memory, ts': set<nat>) {
    && ts <= ts'
    && (forall t :: t in ts' && t !in ts ==> t !in refs && t in mem)
    && (forall f :: f in refs' <==> f in refs || (f in ts' && f !in ts))
    && (forall f :: f in refs' ==> refs'[f] == if f in refs then refs[f] else 1)
    && Kept(mem, mem', pts + ts')
  }

  lemma GrewThenKept(pts: set<nat>, refs: map<nat, nat>, mem: Memory, ts: set<nat>, mem1: Memory,
                     refs': map<nat, nat>, mem2: Memory, ts': set<nat>, mem': Memory)
    requires Kept(mem, mem1, pts)
    requires Grew(refs, mem1, ts, refs', mem2, ts')
    requires Kept(mem2, mem', ts')
    ensures GrewBeside(pts, refs, mem, ts, refs', mem', ts')
  {
  }

  lemma ProtectTwice(e: Pte)
    requires e.Valid()
    ensures var flags := ClearFlags(e.flags, W);
            && e.(flags := flags).Valid()
            && e.(flags := AddFlags(flags, COW)) == Protect(e)
            && Pte(e.ppn, AddFlags(AddFlags(flags, V), COW)) == Protect(e)
  {
  }

  /** `set_flags` without W and `set_cow` on an entry. */
  method ProtectEntry(pt: PageTable, ram: Ram, vpn: nat, flags: Flags)
    requires pt.Valid(ram) && vpn in pt.Bindings(ram) && flags == ClearFlags(pt.Bindings(ram)[vpn].flags, W)
    modifies pt, ram.Repr
    ensures pt.Valid(ram) && pt.slots == old(pt.slots) && ram.Refs() == old(ram.Refs())
    ensures Kept(old(ram.mem), ram.mem, pt.slots.Keys)
    ensures pt.Bindings(ram) == old(pt.Bindings(ram))[vpn := Protect(old(pt.Bindings(ram))[vpn])]
  {
    hide AddFlags, ClearFlags, Protect, Pte.Valid, Meaning, TablesOf, Tree, Partition;
    pt.BindingsBound(ram);
    ProtectTwice(pt.Bindings(ram)[vpn]);
    var _ := pt.SetFlags(ram, vpn, flags);
    var _ := pt.SetCow(ram, vpn);
  }

  lemma GrewIsKept(refs: map<nat, nat>, mem: Memory, ts: set<nat>, refs': map<nat, nat>, mem': Memory, ts': set<nat>)
    requires Grew(refs, mem, ts, refs', mem', ts')
    ensures Kept(mem, mem', ts')
  {
  }

  /** Maps the parent's frame in the child, protected. */
  method MapProtected(cpt: PageTable, ram: Ram, vpn: nat, ghost e: Pte, ppn: nat, flags: Flags) returns (o: Outcome)
    requires cpt.Valid(ram) && vpn !in cpt.Bindings(ram) && vpn < VPN_LIMIT && ppn < PPN_LIMIT
    requires e.Valid() && ppn == e.ppn && flags == ClearFlags(e.flags, W)
    modifies cpt, ram.Repr
    ensures ram.Valid()
    ensures o.Panicked? ==> ram.Exhausted()
    ensures o.Running? ==>
              && cpt.Valid(ram)
              && cpt.Bindings(ram) == old(cpt.Bindings(ram))[vpn := Protect(e)]
              && GrewBeside({}, old(ram.Refs()), old(ram.mem), old(cpt.slots.Keys), ram.Refs(), ram.mem, cpt.slots.Keys)
  {
    hide AddFlags, ClearFlags, Protect, Pte.Valid, Meaning, TablesOf, Tree, Partition, Grew, GrewBeside;
    ProtectTwice(e);
    ghost var refs, mem, ts := ram.Refs(), ram.mem, cpt.slots.Keys;
    o := cpt.Map(ram, vpn, ppn, flags);
    if o.Panicked? {
      return;
    }
    ghost var refs2, mem2 := ram.Refs(), ram.mem;
    var _ := cpt.SetCow(ram, vpn);
    GrewIsKept(refs2, mem2, cpt.slots.Keys, ram.Refs(), ram.mem, cpt.slots.Keys);
    GrewThenKept({}, refs, mem, ts, mem, ram.Refs(), mem2, cpt.slots.Keys, ram.mem);
  }

  // ---------------------------------------------------------------- turns of the loops

  /** The objects are where the progress says. */
  ghost predicate Matches(ram: Ram, ppt: PageTable, cpt: PageTable, a: Start, n: Now)
    reads ram, ram.allocator, ppt, cpt
  {
    && ram.Valid() && ppt != cpt && ppt.Valid(ram) && cpt.Valid(ram)
    && a.par.tables == ppt.slots.Keys && n.tables == cpt.slots.Keys
    && n.refs == ram.Refs() && n.mem == ram.mem
    && n.ppt == ppt.Bindings(ram) && n.cpt == cpt.Bindings(ram)
    && StartOk(a) && Progress(a, n)
  }

  lemma TablesApart(a: Start, n: Now)
    requires StartOk(a) && Progress(a, n)
    ensures a.par.tables !! n.tables
    ensures forall t :: t in a.par.tables ==> t in n.refs
  {
    hide EntriesOk, BytesKept, CopiesOk, TrackerOk, OwnOf, Injective, SharedIn, Pte.Writable, Pte.IsCow;
  }

  lemma Unmapped(a: Start, n: Now, v: nat)
    requires StartOk(a) && Progress(a, n) && v !in n.mapped && v in a.par.frames
    ensures v !in n.cpt && v in a.par.pt && (v in n.ppt <==> v in a.par.pt)
    ensures a.par.frames[v] in a.mem && a.par.frames[v] in a.refs
    ensures v in n.ppt && n.ppt[v] == a.par.pt[v]
  {
    hide TrackersOk, BytesKept, CopiesOk, CountsOk, EntryOk, Protect, Pte.Writable, Pte.IsCow;
  }

  lemma SpreadFrom(a: Start, n: Now, mem1: Memory, refs': map<nat, nat>, mem': Memory, ts': set<nat>)
    requires n.mem.Keys == a.mem.Keys
    requires Kept(n.mem, mem1, a.par.tables)
    requires GrewBeside({}, n.refs, mem1, n.tables, refs', mem', ts')
    requires forall t :: t in n.tables ==> t in n.refs
    ensures Spread(a, n, refs', mem', ts')
  {
  }

  lemma TablesHeld(a: Start, n: Now)
    requires Progress(a, n)
    ensures n.mem.Keys == a.mem.Keys
    ensures forall t :: t in n.tables ==> t in n.refs
  {
    hide EntriesOk, CopiesOk, TrackersOk, OwnOf, SharedIn;
  }

  /** Shares the page at `vpn`: the parent's entry loses W and is marked COW, and the child gets the same entry. */
  method ShareEntry(ram: Ram, ppt: PageTable, cpt: PageTable, vpn: nat, e: Pte, ghost a: Start, ghost n: Now)
    returns (o: Outcome, ghost n': Now)
    requires Matches(ram, ppt, cpt, a, n)
    requires Shared(a.par, vpn) && vpn !in n.mapped && vpn in n.ppt && e == n.ppt[vpn] && e.ppn < PPN_LIMIT
    modifies ppt, cpt, ram.Repr
    ensures ram.Valid()
    ensures o.Panicked? ==> ram.Exhausted()
    ensures o.Running? ==>
              && Matches(ram, ppt, cpt, a, n')
              && n'.mapped == n.mapped + {vpn} && n'.frames == n.frames && n'.copied == n.copied
  {
    hide Protect, ClearFlags, AddFlags, Pte.Valid, Meaning, TablesOf, Tree, Partition, Progress, StartOk, Spread, GrewBeside, Shared, Kept, Grew, Exact;
    n' := n;
    TablesApart(a, n);
    TablesHeld(a, n);
    SharedFacts(a, vpn);
    Unmapped(a, n, vpn);
    ppt.BindingsBound(ram);
    var flags := ClearFlags(e.flags, W);
    ProtectEntry(ppt, ram, vpn, flags);
    ghost var mem1 := ram.mem;
    KeptTables(n.mem, mem1, ppt.slots.Keys, cpt.slots.Keys);
    o := MapProtected(cpt, ram, vpn, e, e.ppn, flags);
    if o.Panicked? {
      return;
    }
    SpreadFrom(a, n, mem1, ram.Refs(), ram.mem, cpt.slots.Keys);
    TablesUntouched(ppt.slots.Keys, n.refs, mem1, n.tables, ram.Refs(), ram.mem, cpt.slots.Keys);
    n' := n.(refs := ram.Refs(), mem := ram.mem, tables := cpt.slots.Keys, mapped := n.mapped + {vpn},
             ppt := n.ppt[vpn := Protect(e)], cpt := n.cpt[vpn := Protect(e)]);
    ShareTurn(a, n, vpn, n');
  }

  /** Tables of somebody else do not change while the child's grow. */
  lemma TablesUntouched(pts: set<nat>, refs: map<nat, nat>, mem: Memory, ts: set<nat>, refs': map<nat, nat>, mem': Memory, ts': set<nat>)
    requires GrewBeside({}, refs, mem, ts, refs', mem', ts')
    requires pts !! ts && forall t :: t in pts ==> t in refs && t in mem
    ensures pts !! ts'
    ensures forall t :: t in pts ==> t in refs' && t in mem'
    ensures TablesOf(mem', pts) == TablesOf(mem, pts)
  {
    BindingsFrame(mem, mem', pts);
  }

  lemma KeptTables(mem: Memory, mem': Memory, except: set<nat>, ts: set<nat>)
    requires Kept(mem, mem', except) && ts !! except && ts <= mem.Keys
    ensures TablesOf(mem', ts) == TablesOf(mem, ts) && mem'.Keys == mem.Keys
  {
    BindingsFrame(mem, mem', ts);
  }

  /** Clones the tracker of a shared page. */
  method CloneShared(ram: Ram, ppt: PageTable, cpt: PageTable, vpn: nat, f: nat, ghost a: Start, ghost n: Now)
    returns (ghost n': Now)
    requires Matches(ram, ppt, cpt, a, n)
    requires Shared(a.par, vpn) && vpn !in n.frames && f == a.par.frames[vpn]
    requires RoomFor(a)
    modifies ram.Repr
    ensures Matches(ram, ppt, cpt, a, n')
    ensures n' == n.(refs := n'.refs, frames := n.frames[vpn := f])
  {
    hide Meaning, TablesOf, Tree, Partition, Progress, StartOk, Shared;
    RoomAt(a, n, vpn);
    CloneTurn(a, n, vpn);
    ram.CloneTracker(f);
    n' := n.(refs := n.refs[f := n.refs[f] + 1], frames := n.frames[vpn := f]);
  }

  /** No frame of the parent would be tracked more than 255 times. */
  ghost predicate RoomFor(a: Start) {
    forall f :: f in a.refs ==> a.refs[f] + |SharedMine(a.par, f)| < 256
  }

  lemma RoomAt(a: Start, n: Now, v: nat)
    requires StartOk(a) && Progress(a, n) && RoomFor(a)
    requires Shared(a.par, v) && v !in n.frames
    ensures a.par.frames[v] in n.refs && n.refs[a.par.frames[v]] < 255
  {
    hide StartOk, EntriesOk, TrackersOk, BytesKept, CopiesOk, CountsOk, SharedMine, Shared;
    RoomToClone(a, n, v);
  }

  // ---------------------------------------------------------------- ranges of shared pages

  /** The pages of `[start, end)` that the parent has frames for. */
  ghost function Part(par: Space, start: nat, end: nat): set<nat> {
    set v | v in par.frames && start <= v < end
  }

  /** Nothing of the range has had its turn, and all its pages are to be shared. */
  ghost predicate Pending(a: Start, n: Now, start: nat, end: nat) {
    && (forall v :: start <= v < end && v in a.par.pt ==> Shared(a.par, v))
    && (forall v :: start <= v < end ==> v !in n.mapped && v !in n.frames)
  }

  lemma ParentKeys(a: Start, n: Now)
    requires StartOk(a) && Progress(a, n)
    ensures n.ppt.Keys == a.par.pt.Keys
    ensures forall v :: v in a.par.frames ==> v in a.par.pt
  {
    hide TrackersOk, BytesKept, CopiesOk, CountsOk, EntryOk, Protect, Pte.Writable, Pte.IsCow;
  }

  /** The entry of a page that has not had its turn. */
  lemma ParentEntry(ram: Ram, a: Start, n: Now, v: nat)
    requires ram.Valid() && n.mem == ram.mem
    requires StartOk(a) && Progress(a, n) && v !in n.mapped && v in a.par.frames
    ensures v in n.ppt && n.ppt[v].ppn == a.par.frames[v] && n.ppt[v].ppn < PPN_LIMIT
  {
    hide EntriesOk, TrackersOk, CopiesOk, CountsOk, Partition;
    Unmapped(a, n, v);
    TablesHeld(a, n);
    StartPpn(a, v);
    assert a.par.frames[v] in ram.mem;
  }

  lemma StartPpn(a: Start, v: nat)
    requires StartOk(a) && v in a.par.frames
    ensures v in a.par.pt && a.par.pt[v].ppn == a.par.frames[v] && a.par.frames[v] in a.mem
  {
    hide Pte.Writable, Pte.IsCow;
  }

  /** One turn: the page at `vpn` is shared if it has a frame. */
  method SharePage(ram: Ram, ppt: PageTable, cpt: PageTable, vpn: nat, ghost a: Start, ghost n: Now)
    returns (o: Outcome, frame: Option<nat>, ghost n': Now)
    requires Matches(ram, ppt, cpt, a, n) && RoomFor(a)
    requires vpn < VPN_LIMIT && Pending(a, n, vpn, vpn + 1)
    modifies ppt, cpt, ram.Repr
    ensures ram.Valid()
    ensures o.Panicked? ==> ram.Exhausted()
    ensures o.Running? ==>
              && Matches(ram, ppt, cpt, a, n') && n'.copied == n.copied
              && (vpn in a.par.frames ==>
                    && frame == Some(a.par.frames[vpn])
                    && n'.mapped == n.mapped + {vpn} && n'.frames == n.frames[vpn := a.par.frames[vpn]])
              && (vpn !in a.par.frames ==> frame == None && n'.mapped == n.mapped && n'.frames == n.frames)
  {
    hide Protect, Pte.Valid, Meaning, TablesOf, Tree, Partition, Progress, StartOk, Shared, PageTable.Valid, PageTable.Bindings,
      Ram.Valid, RoomFor;
    n' := n;
    ParentKeys(a, n);
    var pte := ppt.Translate(ram, vpn);
    if pte == None {
      return Running, None, n;
    }
    SharedFacts(a, vpn);
    ParentEntry(ram, a, n, vpn);
    o, n' := ShareEntry(ram, ppt, cpt, vpn, pte.value, a, n);
    if o.Panicked? {
      return o, None, n';
    }
    n' := CloneShared(ram, ppt, cpt, vpn, pte.value.ppn, a, n');
    return Running, Some(pte.value.ppn), n';
  }

  /** The pages of `[start, vpn)` have had their turn. */
  ghost predicate RangeDone(a: Start, n: Now, n': Now, frameMap: map<nat, nat>, start: nat, vpn: nat) {
    && n'.mapped == n.mapped + Part(a.par, start, vpn)
    && n'.frames == n.frames + frameMap && n'.copied == n.copied
    && frameMap.Keys == Part(a.par, start, vpn)
    && (forall v :: v in frameMap ==> frameMap[v] == a.par.frames[v])
  }

  lemma RangeStart(a: Start, n: Now, start: nat)
    ensures RangeDone(a, n, n, map[], start, start)
  {
    assert Part(a.par, start, start) == {};
  }

  lemma RangeTurn(a: Start, n: Now, n1: Now, n2: Now, frameMap: map<nat, nat>, start: nat, vpn: nat)
    requires start <= vpn && RangeDone(a, n, n1, frameMap, start, vpn) && n2.copied == n1.copied
    requires vpn in a.par.frames ==> n2.mapped == n1.mapped + {vpn} && n2.frames == n1.frames[vpn := a.par.frames[vpn]]
    requires vpn !in a.par.frames ==> n2.mapped == n1.mapped && n2.frames == n1.frames
    ensures vpn in a.par.frames ==> RangeDone(a, n, n2, frameMap[vpn := a.par.frames[vpn]], start, vpn + 1)
    ensures vpn !in a.par.frames ==> RangeDone(a, n, n2, frameMap, start, vpn + 1)
  {
    if vpn in a.par.frames {
      assert Part(a.par, start, vpn + 1) == Part(a.par, start, vpn) + {vpn};
    } else {
      assert Part(a.par, start, vpn + 1) == Part(a.par, start, vpn);
    }
  }

  lemma StillPending(a: Start, n: Now, n': Now, frameMap: map<nat, nat>, start: nat, vpn: nat, end: nat)
    requires start <= vpn < end && Pending(a, n, start, end) && RangeDone(a, n, n', frameMap, start, vpn)
    ensures Pending(a, n', vpn, vpn + 1)
  {
    hide Shared;
  }

  /** The loop over an ELF area, the stack or the heap: shares every page that has a frame. */
  method ShareRange(ram: Ram, ppt: PageTable, cpt: PageTable, start: nat, end: nat, ghost a: Start, ghost n: Now)
    returns (o: Outcome, frameMap: map<nat, nat>, ghost n': Now)
    requires Matches(ram, ppt, cpt, a, n) && RoomFor(a)
    requires start <= end <= VPN_LIMIT && Pending(a, n, start, end)
    modifies ppt, cpt, ram.Repr
    ensures ram.Valid()
    ensures o.Panicked? ==> ram.Exhausted()
    ensures o.Running? ==> Matches(ram, ppt, cpt, a, n') && RangeDone(a, n, n', frameMap, start, end)
  {
    hide Matches, Shared, RoomFor, Ram.Valid, RangeDone, Pending;
    frameMap := map[];
    n' := n;
    o := Running;
    var vpn := start;
    MatchesRam(ram, ppt, cpt, a, n);
    RangeStart(a, n, start);
    while vpn < end
      invariant start <= vpn <= end
      invariant o == Running && ram.Valid() && Matches(ram, ppt, cpt, a, n')
      invariant RangeDone(a, n, n', frameMap, start, vpn)
    {
      StillPending(a, n, n', frameMap, start, vpn, end);
      ghost var n1 := n';
      var frame;
      o, frame, n' := SharePage(ram, ppt, cpt, vpn, a, n');
      if o.Panicked? {
        return;
      }
      RangeTurn(a, n, n1, n', frameMap, start, vpn);
      if frame.Some? {
        frameMap := frameMap[vpn := frame.value];
      }
      vpn := vpn + 1;
    }
  }

  lemma MatchesRam(ram: Ram, ppt: PageTable, cpt: PageTable, a: Start, n: Now)
    requires Matches(ram, ppt, cpt, a, n)
    ensures ram.Valid() && ram in ram.Repr && StartOk(a) && Progress(a, n)
  {
    hide StartOk, Progress, PageTable.Valid;
  }

  // ---------------------------------------------------------------- trap contexts

  lemma TrapSpread(a: Start, n: Now, f: nat, refs': map<nat, nat>, mem': Memory, ts': set<nat>)
    requires n.mem.Keys == a.mem.Keys && f in a.mem
    requires forall t :: t in n.tables ==> t in n.refs
    requires Grew(n.refs[f := 1], n.mem[f := ZeroPage()], n.tables, refs', mem', ts')
    ensures Spread(a, n.(refs := n.refs[f := 1], mem := n.mem[f := ZeroPage()]), refs', mem', ts')
  {
  }

  lemma TablesCalm(pts: set<nat>, refs: map<nat, nat>, mem: Memory, ts: set<nat>, f: nat, refs': map<nat, nat>, mem': Memory, ts': set<nat>)
    requires f !in refs && f in mem
    requires Grew(refs[f := 1], mem[f := ZeroPage()], ts, refs', mem', ts')
    requires pts !! ts && forall t :: t in pts ==> t in refs && t in mem
    ensures pts !! ts'
    ensures forall t :: t in pts ==> t in refs' && t in mem'
    ensures TablesOf(mem', pts) == TablesOf(mem, pts)
  {
    BindingsFrame(mem, mem', pts);
  }

  /** A zeroed frame for a trap-context page of the child. */
  method MapTrapPage(ram: Ram, ppt: PageTable, cpt: PageTable, vpn: nat, flags: Flags, ghost a: Start, ghost n: Now)
    returns (o: Outcome, f: nat, ghost n': Now)
    requires Matches(ram, ppt, cpt, a, n) && vpn < VPN_LIMIT
    requires IsTrap(a.par, vpn) && vpn !in n.mapped && vpn !in n.frames
    requires FreshFlags(a.par.pages[vpn], AddFlags(flags, V))
    modifies cpt, ram.Repr
    ensures ram.Valid()
    ensures o.Panicked? ==> ram.Exhausted()
    ensures o.Running? ==>
              && Matches(ram, ppt, cpt, a, n')
              && n'.mapped == n.mapped + {vpn} && n'.frames == n.frames[vpn := f] && n'.copied == n.copied
  {
    hide AddFlags, FreshFlags, Meaning, TablesOf, Tree, Partition, Progress, StartOk, Spread, Grew, IsTrap;
    n' := n;
    TablesApart(a, n);
    TablesHeld(a, n);
    TrapFacts(a, n, vpn);
    o, f := MapOne(cpt, ram, vpn, flags);
    if o.Panicked? {
      return;
    }
    TrapSpread(a, n, f, ram.Refs(), ram.mem, cpt.slots.Keys);
    TablesCalm(ppt.slots.Keys, n.refs, n.mem, n.tables, f, ram.Refs(), ram.mem, cpt.slots.Keys);
    n' := n.(refs := ram.Refs(), mem := ram.mem, tables := cpt.slots.Keys, mapped := n.mapped + {vpn},
             cpt := n.cpt[vpn := Pte(f, AddFlags(flags, V))], frames := n.frames[vpn := f]);
    TrapTurn(a, n, vpn, f, AddFlags(flags, V), n');
  }

  lemma TrapFacts(a: Start, n: Now, v: nat)
    requires StartOk(a) && Progress(a, n) && IsTrap(a.par, v)
    ensures v !in n.mapped ==> v !in n.cpt
    ensures v in n.mapped ==> v in n.cpt && v in n.frames && n.cpt[v].ppn == n.frames[v]
    ensures v in n.ppt && n.ppt[v].ppn == a.par.frames[v] && a.par.frames[v] in a.mem
  {
    hide TrackersOk, BytesKept, CopiesOk, CountsOk, FreshFlags, Protect, Pte.Writable, Pte.IsCow;
    if v in n.mapped {
      assert EntryOk(a, n, v);
    }
  }

  /** Copies the parent's trap context into the child's frame. */
  method CopyTrapPage(ram: Ram, ppt: PageTable, cpt: PageTable, vpn: nat, ghost a: Start, ghost n: Now)
    returns (ghost n': Now)
    requires Matches(ram, ppt, cpt, a, n) && vpn < VPN_LIMIT
    requires IsTrap(a.par, vpn) && vpn in n.mapped && vpn in n.frames
    modifies ram
    ensures Matches(ram, ppt, cpt, a, n')
    ensures n' == n.(mem := n'.mem, copied := n.copied + {vpn})
  {
    hide Meaning, TablesOf, Tree, Partition, Progress, StartOk, IsTrap;
    TrapFacts(a, n, vpn);
    TablesApart(a, n);
    TablesHeld(a, n);
    FrameApart(a, n, vpn);
    var src := ppt.Translate(ram, vpn);
    var dst := cpt.Translate(ram, vpn);
    ram.WritePage(dst.value.ppn, ram.mem[src.value.ppn]);
    BindingsFrame(n.mem, ram.mem, ppt.slots.Keys);
    BindingsFrame(n.mem, ram.mem, cpt.slots.Keys);
    n' := n.(mem := ram.mem, copied := n.copied + {vpn});
    CopyTurn(a, n, vpn, n');
  }

  lemma FrameApart(a: Start, n: Now, v: nat)
    requires StartOk(a) && Progress(a, n) && v in n.frames
    ensures n.frames[v] !in n.tables && n.frames[v] !in a.par.tables && n.frames[v] in a.mem
  {
    hide EntriesOk, BytesKept, CopiesOk, CountsOk, OwnOf, Injective, SharedIn, Pte.Writable, Pte.IsCow;
    FramesCounted(a, n);
    assert TrackerOk(a, n, v);
  }

  /** The pages of a trap-context area: all have frames, and none has had its turn. */
  ghost predicate PendingTrap(a: Start, n: Now, start: nat, end: nat) {
    && (forall v :: start <= v < end ==> IsTrap(a.par, v))
    && (forall v :: start <= v < end ==> v !in n.mapped && v !in n.frames)
  }

  /** The first `k` pages of a trap-context area have frames in the child. */
  ghost predicate TrapDone(a: Start, n: Now, n': Now, frameMap: map<nat, nat>, start: nat, vpn: nat) {
    && n'.mapped == n.mapped + Part(a.par, start, vpn)
    && n'.frames == n.frames + frameMap && n'.copied == n.copied
    && frameMap.Keys == Part(a.par, start, vpn)
  }

  lemma TrapDoneStart(a: Start, n: Now, start: nat)
    ensures TrapDone(a, n, n, map[], start, start)
  {
    assert Part(a.par, start, start) == {};
  }

  lemma TrapDoneTurn(a: Start, n: Now, n1: Now, n2: Now, frameMap: map<nat, nat>, start: nat, vpn: nat, f: nat)
    requires start <= vpn && TrapDone(a, n, n1, frameMap, start, vpn) && vpn in a.par.frames
    requires n2.mapped == n1.mapped + {vpn} && n2.frames == n1.frames[vpn := f] && n2.copied == n1.copied
    ensures TrapDone(a, n, n2, frameMap[vpn := f], start, vpn + 1)
  {
    assert Part(a.par, start, vpn + 1) == Part(a.par, start, vpn) + {vpn};
  }

  lemma TrapPending(a: Start, n: Now, n': Now, frameMap: map<nat, nat>, start: nat, vpn: nat, end: nat)
    requires start <= vpn < end && PendingTrap(a, n, start, end) && TrapDone(a, n, n', frameMap, start, vpn)
    ensures IsTrap(a.par, vpn) && vpn in a.par.frames && vpn in a.par.pages && vpn !in n'.mapped && vpn !in n'.frames
  {
  }

  /** `insert_and_map` of the child's trap-context area: a zeroed frame for every page. */
  method InflateTrapArea(ram: Ram, ppt: PageTable, cpt: PageTable, area: VmArea, ghost a: Start, ghost n: Now)
    returns (o: Outcome, frameMap: map<nat, nat>, ghost n': Now)
    requires Matches(ram, ppt, cpt, a, n)
    requires AreaOk(area) && PendingTrap(a, n, area.start, area.end)
    requires forall v :: area.Contains(v) && v in a.par.pages ==> FreshFlags(a.par.pages[v], AddFlags(FromMapPermission(area.permission), V))
    modifies cpt, ram.Repr
    ensures ram.Valid()
    ensures o.Panicked? ==> ram.Exhausted()
    ensures o.Running? ==> Matches(ram, ppt, cpt, a, n') && TrapDone(a, n, n', frameMap, area.start, area.end)
  {
    hide Matches, FreshFlags, AddFlags, FromMapPermission, Ram.Valid, TrapDone, PendingTrap, IsTrap;
    frameMap := map[];
    n' := n;
    o := Running;
    var vpn := area.start;
    MatchesRam(ram, ppt, cpt, a, n);
    TrapDoneStart(a, n, vpn);
    while vpn < area.end
      invariant area.start <= vpn <= area.end
      invariant o == Running && ram.Valid() && Matches(ram, ppt, cpt, a, n')
      invariant TrapDone(a, n, n', frameMap, area.start, vpn)
    {
      TrapPending(a, n, n', frameMap, area.start, vpn, area.end);
      ghost var n1 := n';
      var f;
      o, f, n' := MapTrapPage(ram, ppt, cpt, vpn, FromMapPermission(area.permission), a, n');
      if o.Panicked? {
        return;
      }
      TrapDoneTurn(a, n, n1, n', frameMap, area.start, vpn, f);
      frameMap := frameMap[vpn := f];
      vpn := vpn + 1;
    }
  }

  /** The copy loop of the trap-context branch. */
  method CopyTrapArea(ram: Ram, ppt: PageTable, cpt: PageTable, start: nat, end: nat, ghost a: Start, ghost n: Now)
    returns (ghost n': Now)
    requires Matches(ram, ppt, cpt, a, n) && start <= end <= VPN_LIMIT
    requires forall v :: start <= v < end ==> IsTrap(a.par, v) && v in n.mapped && v in n.frames
    modifies ram
    ensures Matches(ram, ppt, cpt, a, n')
    ensures n' == n.(mem := n'.mem, copied := n'.copied)
    ensures n'.copied == n.copied + Part(a.par, start, end)
  {
    hide Matches;
    n' := n;
    var vpn := start;
    assert Part(a.par, start, start) == {};
    while vpn < end
      invariant start <= vpn <= end
      invariant Matches(ram, ppt, cpt, a, n')
      invariant n' == n.(mem := n'.mem, copied := n'.copied)
      invariant n'.copied == n.copied + Part(a.par, start, vpn)
    {
      n' := CopyTrapPage(ram, ppt, cpt, vpn, a, n');
      assert Part(a.par, start, vpn + 1) == Part(a.par, start, vpn) + {vpn};
      vpn := vpn + 1;
    }
  }

  // ---------------------------------------------------------------- anonymous mappings

  /** All trackers of `frameMap` but those in `left` were cloned. */
  ghost predicate Cloned(n: Now, n': Now, frameMap: map<nat, nat>, left: set<nat>) {
    && left <= frameMap.Keys
    && n' == n.(refs := n'.refs, frames := n.frames + (frameMap - left))
  }

  lemma ClonedStart(n: Now, frameMap: map<nat, nat>)
    ensures Cloned(n, n, frameMap, frameMap.Keys)
  {
    assert frameMap - frameMap.Keys == map[];
  }

  lemma ClonedTurn(n: Now, n1: Now, n2: Now, frameMap: map<nat, nat>, left: set<nat>, v: nat)
    requires Cloned(n, n1, frameMap, left) && v in left
    requires n2 == n1.(refs := n2.refs, frames := n1.frames[v := frameMap[v]])
    ensures Cloned(n, n2, frameMap, left - {v})
  {
    assert n.frames + (frameMap - (left - {v})) == (n.frames + (frameMap - left))[v := frameMap[v]];
  }

  lemma NotYetCloned(n: Now, n': Now, frameMap: map<nat, nat>, left: set<nat>, v: nat)
    requires Cloned(n, n', frameMap, left) && v in left && v !in n.frames
    ensures v in frameMap && v !in n'.frames
  {
  }

  lemma ClonedAll(n: Now, n': Now, frameMap: map<nat, nat>)
    requires Cloned(n, n', frameMap, {})
    ensures n' == n.(refs := n'.refs, frames := n.frames + frameMap)
  {
    assert frameMap - {} == frameMap;
  }

  /** `mmap_manager.clone()`: every tracker of the mappings is cloned. */
  method CloneTrackers(ram: Ram, ppt: PageTable, cpt: PageTable, frameMap: map<nat, nat>, ghost a: Start, ghost n: Now)
    returns (ghost n': Now)
    requires Matches(ram, ppt, cpt, a, n) && RoomFor(a)
    requires forall v :: v in frameMap ==> Shared(a.par, v) && frameMap[v] == a.par.frames[v] && v !in n.frames
    modifies ram.Repr
    ensures Matches(ram, ppt, cpt, a, n')
    ensures n' == n.(refs := n'.refs, frames := n.frames + frameMap)
  {
    hide Matches, Shared, RoomFor, Cloned;
    n' := n;
    var left := frameMap.Keys;
    ClonedStart(n, frameMap);
    while left != {}
      invariant left <= frameMap.Keys
      invariant Matches(ram, ppt, cpt, a, n')
      invariant Cloned(n, n', frameMap, left)
      decreases |left|
    {
      var v :| v in left;
      NotYetCloned(n, n', frameMap, left, v);
      ghost var n1 := n';
      n' := CloneShared(ram, ppt, cpt, v, frameMap[v], a, n');
      ClonedTurn(n, n1, n', frameMap, left, v);
      left := left - {v};
    }
    ClonedAll(n, n', frameMap);
  }

  /** All valid pages but those in `left` were mapped. */
  ghost predicate MappedBut(n: Now, n': Now, pages: map<nat, MmapPage>, left: set<nat>) {
    && n'.mapped == n.mapped + (set v | v in pages && v !in left && pages[v].valid)
    && n'.frames == n.frames && n'.copied == n.copied
  }

  lemma MappedTurn(n: Now, n1: Now, n2: Now, pages: map<nat, MmapPage>, left: set<nat>, v: nat)
    requires MappedBut(n, n1, pages, left) && v in left && v in pages && n2.frames == n1.frames && n2.copied == n1.copied
    requires n2.mapped == n1.mapped + (if pages[v].valid then {v} else {})
    ensures MappedBut(n, n2, pages, left - {v})
  {
    assert (set u | u in pages && u !in left - {v} && pages[u].valid)
        == (set u | u in pages && u !in left && pages[u].valid) + (if pages[v].valid then {v} else {});
  }

  lemma MappedStart(n: Now, pages: map<nat, MmapPage>)
    ensures MappedBut(n, n, pages, pages.Keys)
  {
  }

  lemma NotYetMapped(n: Now, n': Now, pages: map<nat, MmapPage>, left: set<nat>, v: nat)
    requires MappedBut(n, n', pages, left) && v in left && v !in n.mapped
    ensures v !in n'.mapped
  {
  }

  lemma MappedAll(n: Now, n': Now, pages: map<nat, MmapPage>)
    requires MappedBut(n, n', pages, {})
    ensures n'.mapped == n.mapped + (set v | v in pages && pages[v].valid)
    ensures n'.frames == n.frames && n'.copied == n.copied
  {
    assert (set v | v in pages && v !in {} && pages[v].valid) == (set v | v in pages && pages[v].valid);
  }

  /** The mapping loop over the pages of the manager that are valid. */
  method ShareMappings(ram: Ram, ppt: PageTable, cpt: PageTable, pages: map<nat, MmapPage>, ghost a: Start, ghost n: Now)
    returns (o: Outcome, ghost n': Now)
    requires Matches(ram, ppt, cpt, a, n)
    requires forall v :: v in pages && pages[v].valid ==> Shared(a.par, v) && v !in n.mapped
    requires forall v :: v in pages ==> v < VPN_LIMIT
    modifies ppt, cpt, ram.Repr
    ensures ram.Valid()
    ensures o.Panicked? ==> ram.Exhausted()
    ensures o.Running? ==>
              && Matches(ram, ppt, cpt, a, n')
              && n'.mapped == n.mapped + (set v | v in pages && pages[v].valid)
              && n'.frames == n.frames && n'.copied == n.copied
  {
    hide Matches, Shared, Ram.Valid, PageTable.Valid, PageTable.Bindings, Progress, StartOk, MappedBut;
    n' := n;
    o := Running;
    MatchesRam(ram, ppt, cpt, a, n);
    var left := pages.Keys;
    MappedStart(n, pages);
    while left != {}
      invariant left <= pages.Keys
      invariant o == Running && ram.Valid() && Matches(ram, ppt, cpt, a, n')
      invariant MappedBut(n, n', pages, left)
      decreases |left|
    {
      var v :| v in left;
      ghost var n1 := n';
      if pages[v].valid {
        NotYetMapped(n, n', pages, left, v);
        MatchesParent(ram, ppt, cpt, a, n', v);
        var pte := ppt.Translate(ram, v);
        if pte.Some? {
          o, n' := ShareEntry(ram, ppt, cpt, v, pte.value, a, n');
          if o.Panicked? {
            return;
          }
        }
      }
      MappedTurn(n, n1, n', pages, left, v);
      left := left - {v};
    }
    MappedAll(n, n', pages);
  }

  lemma MatchesParent(ram: Ram, ppt: PageTable, cpt: PageTable, a: Start, n: Now, v: nat)
    requires Matches(ram, ppt, cpt, a, n) && Shared(a.par, v) && v !in n.mapped
    ensures ppt.Valid(ram) && n.ppt == ppt.Bindings(ram)
    ensures v in n.ppt && n.ppt[v].ppn < PPN_LIMIT
  {
    hide StartOk, Progress, PageTable.Valid, Ram.Valid, PageTable.Bindings, Shared;
    SharedFacts(a, v);
    ParentEntry(ram, a, n, v);
  }

  // ---------------------------------------------------------------- areas

  /** Where an area of the parent stands: its pages are tracked as its frame map says. */
  ghost predicate Placed(a: Start, area: VmArea) {
    && AreaOk(area) && Inflated(area)
    && (forall v :: area.Contains(v) ==>
          v in area.frameMap && v in a.par.frames && a.par.frames[v] == area.frameMap[v]
          && v in a.par.pages && a.par.pages[v] == area.PageKind())
  }

  ghost predicate Untouched(n: Now, area: VmArea) {
    forall v :: area.Contains(v) ==> v !in n.mapped && v !in n.frames
  }

  lemma PlacedShared(a: Start, n: Now, area: VmArea)
    requires Placed(a, area) && Untouched(n, area) && area.areaType != TrapContext
    ensures Pending(a, n, area.start, area.end)
    ensures Part(a.par, area.start, area.end) == area.frameMap.Keys
  {
    forall v | area.start <= v < area.end
      ensures Shared(a.par, v) && v !in n.mapped && v !in n.frames
    {
      assert area.Contains(v);
    }
    PlacedPart(a, area);
  }

  lemma PlacedTrap(a: Start, n: Now, area: VmArea)
    requires Placed(a, area) && Untouched(n, area) && area.areaType == TrapContext
    ensures PendingTrap(a, n, area.start, area.end)
    ensures Part(a.par, area.start, area.end) == area.frameMap.Keys
    ensures forall v :: area.Contains(v) && v in a.par.pages ==> FreshFlags(a.par.pages[v], AddFlags(FromMapPermission(area.permission), V))
  {
    hide FreshFlags, FromMapPermission;
    AreaFlags(area);
    forall v | area.start <= v < area.end
      ensures IsTrap(a.par, v) && v !in n.mapped && v !in n.frames
    {
      assert area.Contains(v);
    }
    PlacedPart(a, area);
  }

  lemma PlacedPart(a: Start, area: VmArea)
    requires Placed(a, area)
    ensures Part(a.par, area.start, area.end) == area.frameMap.Keys
  {
    hide VmArea.PageKind;
    forall v | v in Part(a.par, area.start, area.end)
      ensures v in area.frameMap
    {
      assert area.Contains(v);
    }
  }

  /** An area of the parent and the child's copy of it have had their turn. */
  ghost predicate AreaDone(n: Now, n': Now, area: VmArea, newArea: VmArea) {
    && SameArea(area, newArea) && newArea.frameMap.Keys == area.frameMap.Keys
    && n'.mapped == n.mapped + area.frameMap.Keys
    && n'.frames == n.frames + newArea.frameMap
    && n.copied <= n'.copied
    && (area.areaType == TrapContext ==> area.frameMap.Keys <= n'.copied)
  }

  /** One turn of the loop over the parent's areas. */
  method ForkArea(ram: Ram, ppt: PageTable, cpt: PageTable, area: VmArea, ghost a: Start, ghost n: Now)
    returns (o: Outcome, newArea: VmArea, ghost n': Now)
    requires Matches(ram, ppt, cpt, a, n) && RoomFor(a)
    requires Placed(a, area) && Untouched(n, area) && area.areaType != UserHeap
    modifies ppt, cpt, ram.Repr
    ensures ram.Valid()
    ensures o.Panicked? ==> ram.Exhausted()
    ensures o.Running? ==> Matches(ram, ppt, cpt, a, n') && AreaDone(n, n', area, newArea)
  {
    hide Matches, Placed, Untouched, Pending, PendingTrap, RoomFor, Ram.Valid, FreshFlags, FromMapPermission, Part;
    newArea := area.(frameMap := map[]);
    PlacedBounds(a, area);
    var frameMap;
    if area.areaType == TrapContext {
      PlacedTrap(a, n, area);
      o, frameMap, n' := InflateTrapArea(ram, ppt, cpt, area, a, n);
      if o.Panicked? {
        return;
      }
      TrapMapped(a, n, n', frameMap, area);
      MatchesRam(ram, ppt, cpt, a, n');
      n' := CopyTrapArea(ram, ppt, cpt, area.start, area.end, a, n');
      MatchesRam(ram, ppt, cpt, a, n');
    } else {
      PlacedShared(a, n, area);
      o, frameMap, n' := ShareRange(ram, ppt, cpt, area.start, area.end, a, n);
      if o.Panicked? {
        return;
      }
    }
    newArea := area.(frameMap := frameMap);
  }

  lemma PlacedBounds(a: Start, area: VmArea)
    requires Placed(a, area)
    ensures area.start <= area.end <= VPN_LIMIT && AreaOk(area)
  {
  }

  lemma TrapMapped(a: Start, n: Now, n': Now, frameMap: map<nat, nat>, area: VmArea)
    requires TrapDone(a, n, n', frameMap, area.start, area.end) && Placed(a, area) && area.areaType == TrapContext
    ensures forall v :: area.start <= v < area.end ==> IsTrap(a.par, v) && v in n'.mapped && v in n'.frames
  {
    forall v | area.start <= v < area.end
      ensures IsTrap(a.par, v) && v in n'.mapped && v in n'.frames
    {
      assert area.Contains(v);
      assert v in Part(a.par, area.start, area.end);
    }
  }

  // ---------------------------------------------------------------- all areas

  /** The pages of the first `k` areas. */
  ghost function Covered(areas: seq<VmArea>, k: nat): set<nat>
    requires k <= |areas|
  {
    if k == 0 then {} else Covered(areas, k - 1) + areas[k - 1].frameMap.Keys
  }

  lemma {:induction false} CoveredHas(areas: seq<VmArea>, k: nat, i: nat)
    requires i < k <= |areas|
    ensures areas[i].frameMap.Keys <= Covered(areas, k)
  {
    if i < k - 1 {
      CoveredHas(areas, k - 1, i);
    }
  }

  lemma {:induction false} CoveredOnly(areas: seq<VmArea>, k: nat, v: nat)
    requires k <= |areas| && v in Covered(areas, k)
    ensures exists i :: 0 <= i < k && v in areas[i].frameMap
  {
    if v in areas[k - 1].frameMap {
    } else {
      CoveredOnly(areas, k - 1, v);
    }
  }

  /** The first `k` areas of the parent have had their turn. */
  ghost predicate AreasDone(n: Now, n': Now, areas: seq<VmArea>, newAreas: seq<VmArea>, k: nat) {
    && k <= |areas| && |newAreas| == k
    && n'.mapped == n.mapped + Covered(areas, k)
    && n'.frames.Keys == n.frames.Keys + Covered(areas, k)
    && n.copied <= n'.copied
    && (forall j :: 0 <= j < k ==>
          && SameArea(areas[j], newAreas[j]) && newAreas[j].frameMap.Keys == areas[j].frameMap.Keys
          && (areas[j].areaType == TrapContext ==> areas[j].frameMap.Keys <= n'.copied))
    && (forall j, v :: 0 <= j < k && v in newAreas[j].frameMap ==> v in n'.frames && n'.frames[v] == newAreas[j].frameMap[v])
  }

  lemma AreasTurn(n: Now, n1: Now, n2: Now, areas: seq<VmArea>, newAreas: seq<VmArea>, k: nat, newArea: VmArea)
    requires AreasDone(n, n1, areas, newAreas, k) && k < |areas|
    requires AreaDone(n1, n2, areas[k], newArea)
    requires forall v :: v in areas[k].frameMap ==> v !in n1.frames
    ensures AreasDone(n, n2, areas, newAreas + [newArea], k + 1)
  {
    hide SameArea;
    var new2 := newAreas + [newArea];
    forall j, v | 0 <= j < k + 1 && v in new2[j].frameMap
      ensures v in n2.frames && n2.frames[v] == new2[j].frameMap[v]
    {
      if j < k {
        assert new2[j] == newAreas[j];
        assert v in newAreas[j].frameMap;
      }
    }
  }

  lemma NextUntouched(n: Now, n1: Now, areas: seq<VmArea>, newAreas: seq<VmArea>, k: nat)
    requires AreasDone(n, n1, areas, newAreas, k) && k < |areas|
    requires n.mapped == {} && n.frames == map[]
    requires forall i :: 0 <= i < |areas| ==> AreaOk(areas[i]) && Inflated(areas[i])
    requires forall i, j :: 0 <= i < j < |areas| ==> Apart(areas[i], areas[j])
    ensures Untouched(n1, areas[k])
    ensures forall v :: v in areas[k].frameMap ==> v !in n1.frames
  {
    forall v | v in Covered(areas, k)
      ensures !areas[k].Contains(v)
    {
      CoveredOnly(areas, k, v);
      var i :| 0 <= i < k && v in areas[i].frameMap;
      assert Apart(areas[i], areas[k]);
    }
  }

  /** The loop over the parent's areas. */
  method ForkAreas(ram: Ram, ppt: PageTable, cpt: PageTable, areas: seq<VmArea>, ghost a: Start, ghost n: Now)
    returns (o: Outcome, newAreas: seq<VmArea>, ghost n': Now)
    requires Matches(ram, ppt, cpt, a, n) && RoomFor(a)
    requires n.mapped == {} && n.frames == map[]
    requires forall i :: 0 <= i < |areas| ==> Placed(a, areas[i]) && areas[i].areaType != UserHeap
    requires forall i, j :: 0 <= i < j < |areas| ==> Apart(areas[i], areas[j])
    modifies ppt, cpt, ram.Repr
    ensures ram.Valid()
    ensures o.Panicked? ==> ram.Exhausted()
    ensures o.Running? ==> Matches(ram, ppt, cpt, a, n') && AreasDone(n, n', areas, newAreas, |areas|)
  {
    hide Matches, RoomFor, Ram.Valid, AreasDone, AreaDone, Untouched, Apart;
    newAreas := [];
    n' := n;
    o := Running;
    MatchesRam(ram, ppt, cpt, a, n);
    assert AreasDone(n, n', areas, newAreas, 0) by { NoneDone(n, areas); }
    var i := 0;
    while i < |areas|
      invariant i <= |areas|
      invariant o == Running && ram.Valid() && Matches(ram, ppt, cpt, a, n')
      invariant AreasDone(n, n', areas, newAreas, i)
    {
      NextUntouched(n, n', areas, newAreas, i);
      ghost var n1 := n';
      var newArea;
      o, newArea, n' := ForkArea(ram, ppt, cpt, areas[i], a, n');
      if o.Panicked? {
        return;
      }
      AreasTurn(n, n1, n', areas, newAreas, i, newArea);
      newAreas := newAreas + [newArea];
      i := i + 1;
    }
  }

  lemma NoneDone(n: Now, areas: seq<VmArea>)
    requires n.mapped == {} && n.frames == map[]
    ensures AreasDone(n, n, areas, [], 0)
  {
  }

  // ---------------------------------------------------------------- the phases of fork

  /** The parent's space at the start of fork is the one its areas describe. */
  ghost predicate Origin(a: Start, l: Layout) {
    && LayoutOk(l) && StartOk(a)
    && a.par.frames == TrackedFrames(l) && a.par.pages == AllPages(l)
    && (forall v :: v in a.par.pt && v !in a.par.frames ==> v !in a.par.pages)
  }

  lemma AreaPlaced(a: Start, l: Layout, i: nat)
    requires Origin(a, l) && i < |l.areas|
    ensures Placed(a, l.areas[i]) && l.areas[i].areaType != UserHeap
  {
    hide VmArea.PageKind, TrackedFrames, AllPages, StartOk;
    forall v | l.areas[i].Contains(v)
      ensures v in l.areas[i].frameMap && v in a.par.frames && a.par.frames[v] == l.areas[i].frameMap[v]
              && v in a.par.pages && a.par.pages[v] == l.areas[i].PageKind()
    {
      FramesAt(l, v);
    }
  }

  /** After the areas, the pages that were mapped or tracked are theirs. */
  lemma OnlyAreas(a: Start, l: Layout, n: Now, n1: Now, newAreas: seq<VmArea>, v: nat)
    requires Origin(a, l) && AreasDone(n, n1, l.areas, newAreas, |l.areas|) && n.mapped == {} && n.frames == map[]
    requires v in n1.mapped || v in n1.frames
    ensures InSomeArea(l.areas, v) && !l.mmap.Contains(v) && !l.stack.Contains(v) && !l.heap.Contains(v)
  {
    hide StartOk, TrackedFrames, AllPages;
    CoveredOnly(l.areas, |l.areas|, v);
    var i :| 0 <= i < |l.areas| && v in l.areas[i].frameMap;
    assert AreaOk(l.areas[i]);
    assert l.areas[i].Contains(v);
    assert Apart(l.areas[i], l.stack) && Apart(l.areas[i], l.heap);
  }

  lemma MmapTracked(a: Start, l: Layout, v: nat)
    requires Origin(a, l) && v in l.mmap.frameMap
    ensures l.mmap.Contains(v) && Shared(a.par, v) && v in a.par.frames && l.mmap.frameMap[v] == a.par.frames[v]
  {
    hide StartOk, TrackedFrames, AllPages;
    assert v in l.mmap.pages;
    FramesAt(l, v);
  }

  lemma PendingMmap(a: Start, l: Layout, n: Now, n1: Now, newAreas: seq<VmArea>)
    requires Origin(a, l) && AreasDone(n, n1, l.areas, newAreas, |l.areas|) && n.mapped == {} && n.frames == map[]
    ensures forall v :: v in l.mmap.frameMap ==> Shared(a.par, v) && v in a.par.frames && l.mmap.frameMap[v] == a.par.frames[v] && v !in n1.frames
    ensures forall v :: v in l.mmap.pages && l.mmap.pages[v].valid ==> v in l.mmap.frameMap && Shared(a.par, v) && v !in n1.mapped
    ensures forall v :: v in l.mmap.pages ==> v < VPN_LIMIT
  {
    hide StartOk, TrackedFrames, AllPages, AreasDone, Shared;
    forall v | v in l.mmap.frameMap
      ensures Shared(a.par, v) && v in a.par.frames && l.mmap.frameMap[v] == a.par.frames[v] && v !in n1.frames && v !in n1.mapped
    {
      MmapTracked(a, l, v);
      if v in n1.frames || v in n1.mapped {
        OnlyAreas(a, l, n, n1, newAreas, v);
      }
    }
  }

  /** What has been mapped and tracked once the anonymous mappings are done. */
  ghost predicate MmapDone(l: Layout, n1: Now, n3: Now) {
    && n3.mapped == n1.mapped + (set v | v in l.mmap.pages && l.mmap.pages[v].valid)
    && n3.frames == n1.frames + l.mmap.frameMap
    && n3.copied == n1.copied
  }

  lemma PendingRange(a: Start, l: Layout, n: Now, n1: Now, newAreas: seq<VmArea>, n3: Now, area: VmArea)
    requires Origin(a, l) && AreasDone(n, n1, l.areas, newAreas, |l.areas|) && n.mapped == {} && n.frames == map[]
    requires MmapDone(l, n1, n3) && (area == l.stack || area == l.heap)
    ensures area.start <= area.end <= VPN_LIMIT
    ensures Pending(a, n3, area.start, area.end)
    ensures Part(a.par, area.start, area.end) == area.frameMap.Keys
    ensures forall v :: v in area.frameMap ==> v in a.par.frames && a.par.frames[v] == area.frameMap[v]
  {
    hide StartOk, TrackedFrames, AllPages, AreasDone;
    forall v | area.Contains(v)
      ensures v in a.par.pt ==> Shared(a.par, v)
      ensures v !in n3.mapped && v !in n3.frames
      ensures v in a.par.frames <==> v in area.frameMap
      ensures v in area.frameMap ==> a.par.frames[v] == area.frameMap[v]
    {
      FramesAt(l, v);
      if v in n1.frames || v in n1.mapped {
        OnlyAreas(a, l, n, n1, newAreas, v);
      }
      assert !l.mmap.Contains(v);
    }
    assert AreaOk(area);
    forall v | area.start <= v < area.end
      ensures area.Contains(v)
    {
    }
  }

  lemma HeapAfterStack(a: Start, l: Layout, n3: Now, n4: Now, stackMap: map<nat, nat>)
    requires Origin(a, l)
    requires RangeDone(a, n3, n4, stackMap, l.stack.start, l.stack.end)
    requires Pending(a, n3, l.heap.start, l.heap.end)
    ensures Pending(a, n4, l.heap.start, l.heap.end)
  {
    hide StartOk, TrackedFrames, AllPages, Shared;
    forall v | l.heap.start <= v < l.heap.end
      ensures v !in Part(a.par, l.stack.start, l.stack.end)
    {
      assert Apart(l.stack, l.heap);
      assert l.heap.Contains(v);
      assert !l.stack.Contains(v);
    }
  }

  /** Everything has had its turn. */
  ghost predicate AllDone(l: Layout, n: Now) {
    && n.mapped == TrackedFrames(l).Keys && n.frames.Keys == TrackedFrames(l).Keys
    && (forall i :: 0 <= i < |l.areas| && l.areas[i].areaType == TrapContext ==> l.areas[i].frameMap.Keys <= n.copied)
  }

  lemma AllTurnsDone(a: Start, l: Layout, n: Now, n1: Now, newAreas: seq<VmArea>, n3: Now, n4: Now, stackMap: map<nat, nat>,
                     n5: Now, heapMap: map<nat, nat>)
    requires Origin(a, l) && AreasDone(n, n1, l.areas, newAreas, |l.areas|) && n.mapped == {} && n.frames == map[]
    requires MmapDone(l, n1, n3)
    requires RangeDone(a, n3, n4, stackMap, l.stack.start, l.stack.end) && Part(a.par, l.stack.start, l.stack.end) == l.stack.frameMap.Keys
    requires RangeDone(a, n4, n5, heapMap, l.heap.start, l.heap.end) && Part(a.par, l.heap.start, l.heap.end) == l.heap.frameMap.Keys
    ensures AllDone(l, n5)
  {
    hide StartOk, TrackedFrames, AllPages, Part, AreasDone, LayoutOk, Covered;
    AreasFacts(l, n, n1, newAreas);
    ValidMapped(l);
    TrackedKeys(l);
  }

  lemma AreasFacts(l: Layout, n: Now, n1: Now, newAreas: seq<VmArea>)
    requires AreasDone(n, n1, l.areas, newAreas, |l.areas|) && n.mapped == {} && n.frames == map[]
    ensures n1.mapped == Covered(l.areas, |l.areas|) && n1.frames.Keys == Covered(l.areas, |l.areas|)
    ensures forall i :: 0 <= i < |l.areas| && l.areas[i].areaType == TrapContext ==> l.areas[i].frameMap.Keys <= n1.copied
  {
    hide SameArea, Covered;
  }

  lemma ValidMapped(l: Layout)
    requires LayoutOk(l)
    ensures (set v | v in l.mmap.pages && l.mmap.pages[v].valid) == l.mmap.frameMap.Keys
  {
  }

  lemma TrackedKeys(l: Layout)
    requires LayoutOk(l)
    ensures TrackedFrames(l).Keys ==
            Covered(l.areas, |l.areas|) + l.mmap.frameMap.Keys + l.stack.frameMap.Keys + l.heap.frameMap.Keys
  {
    hide TrackedFrames, Covered, LayoutOk;
    forall v
      ensures v in TrackedFrames(l) <==>
              v in Covered(l.areas, |l.areas|) || v in l.mmap.frameMap || v in l.stack.frameMap || v in l.heap.frameMap
    {
      TrackedWhere(l, v);
    }
  }

  lemma TrackedWhere(l: Layout, v: nat)
    requires LayoutOk(l)
    ensures v in TrackedFrames(l) <==>
            v in Covered(l.areas, |l.areas|) || v in l.mmap.frameMap || v in l.stack.frameMap || v in l.heap.frameMap
  {
    hide TrackedFrames, AllPages, VmArea.PageKind, ProtKind;
    FramesAt(l, v);
    if v in Covered(l.areas, |l.areas|) {
      CoveredOnly(l.areas, |l.areas|, v);
      var i :| 0 <= i < |l.areas| && v in l.areas[i].frameMap;
      assert AreaOk(l.areas[i]);
      assert l.areas[i].Contains(v);
    } else if InSomeArea(l.areas, v) {
      var i :| 0 <= i < |l.areas| && l.areas[i].Contains(v);
      assert Inflated(l.areas[i]);
      CoveredHas(l.areas, |l.areas|, i);
      assert false;
    }
  }

  lemma TrapsCopied(a: Start, l: Layout, n: Now)
    requires Origin(a, l) && AllDone(l, n)
    ensures forall v :: IsTrap(a.par, v) ==> v in n.copied
  {
    hide StartOk, TrackedFrames, AllPages;
    forall v | IsTrap(a.par, v)
      ensures v in n.copied
    {
      FramesAt(l, v);
      if InSomeArea(l.areas, v) {
        var i :| 0 <= i < |l.areas| && l.areas[i].Contains(v);
        assert l.areas[i].PageKind().trap;
        assert v in l.areas[i].frameMap;
      }
    }
  }

  /** The child's areas are the parent's, with the child's trackers. */
  lemma ChildLayout(l: Layout, l': Layout, frames: map<nat, nat>)
    requires LayoutOk(l) && SameRanges(l, l') && l'.mmap == l.mmap
    requires forall i :: 0 <= i < |l.areas| ==> l'.areas[i].frameMap.Keys == l.areas[i].frameMap.Keys
    requires l'.stack.frameMap.Keys == l.stack.frameMap.Keys && l'.heap.frameMap.Keys == l.heap.frameMap.Keys
    requires frames.Keys == TrackedFrames(l).Keys
    requires forall i, v :: 0 <= i < |l'.areas| && v in l'.areas[i].frameMap ==> v in frames && frames[v] == l'.areas[i].frameMap[v]
    requires forall v :: v in l'.stack.frameMap ==> v in frames && frames[v] == l'.stack.frameMap[v]
    requires forall v :: v in l'.heap.frameMap ==> v in frames && frames[v] == l'.heap.frameMap[v]
    requires forall v :: v in l'.mmap.frameMap ==> v in frames && frames[v] == l'.mmap.frameMap[v]
    ensures LayoutOk(l') && TrackedFrames(l') == frames && AllPages(l') == AllPages(l)
  {
    hide TrackedFrames, AllPages, VmArea.PageKind, ProtKind;
    SameRangesApart(l, l');
    forall v
      ensures v in TrackedFrames(l') <==> v in frames
      ensures v in frames ==> TrackedFrames(l')[v] == frames[v]
      ensures v in AllPages(l') <==> v in AllPages(l)
      ensures v in AllPages(l) ==> AllPages(l')[v] == AllPages(l)[v]
    {
      ChildLayoutAt(l, l', frames, v);
    }
    PagesKept(l, l');
  }

  lemma ChildLayoutAt(l: Layout, l': Layout, frames: map<nat, nat>, v: nat)
    requires LayoutOk(l) && LayoutOk(l') && SameRanges(l, l') && l'.mmap == l.mmap
    requires l'.stack.frameMap.Keys == l.stack.frameMap.Keys && l'.heap.frameMap.Keys == l.heap.frameMap.Keys
    requires frames.Keys == TrackedFrames(l).Keys
    requires forall i, v :: 0 <= i < |l'.areas| && v in l'.areas[i].frameMap ==> v in frames && frames[v] == l'.areas[i].frameMap[v]
    requires forall v :: v in l'.stack.frameMap ==> v in frames && frames[v] == l'.stack.frameMap[v]
    requires forall v :: v in l'.heap.frameMap ==> v in frames && frames[v] == l'.heap.frameMap[v]
    requires forall v :: v in l'.mmap.frameMap ==> v in frames && frames[v] == l'.mmap.frameMap[v]
    ensures v in TrackedFrames(l') <==> v in frames
    ensures v in frames ==> TrackedFrames(l')[v] == frames[v]
    ensures v in AllPages(l') <==> v in AllPages(l)
    ensures v in AllPages(l) ==> AllPages(l')[v] == AllPages(l)[v]
  {
    hide TrackedFrames, AllPages, VmArea.PageKind, ProtKind, LayoutOk;
    SameSearch(l, l', v);
    FramesAt(l, v);
    FramesAt(l', v);
    AreaKindKept(l.stack, l'.stack);
    AreaKindKept(l.heap, l'.heap);
    if InSomeArea(l.areas, v) {
      var i :| 0 <= i < |l.areas| && l.areas[i].Contains(v);
      AreaKindKept(l.areas[i], l'.areas[i]);
      assert l'.areas[i].Contains(v);
    }
  }

  lemma NewLayout(a: Start, l: Layout, n: Now, n1: Now, newAreas: seq<VmArea>, n3: Now, n4: Now, stackMap: map<nat, nat>,
                  n5: Now, heapMap: map<nat, nat>)
    requires Origin(a, l) && AreasDone(n, n1, l.areas, newAreas, |l.areas|) && n.mapped == {} && n.frames == map[]
    requires MmapDone(l, n1, n3)
    requires RangeDone(a, n3, n4, stackMap, l.stack.start, l.stack.end) && Part(a.par, l.stack.start, l.stack.end) == l.stack.frameMap.Keys
    requires RangeDone(a, n4, n5, heapMap, l.heap.start, l.heap.end) && Part(a.par, l.heap.start, l.heap.end) == l.heap.frameMap.Keys
    requires AllDone(l, n5)
    ensures var l' := Layout(newAreas, l.mmap, l.stack.(frameMap := stackMap), l.heap.(frameMap := heapMap));
            LayoutOk(l') && TrackedFrames(l') == n5.frames && AllPages(l') == AllPages(l)
  {
    hide StartOk, TrackedFrames, AllPages, Part, Covered, LayoutOk, VmArea.PageKind;
    var l' := Layout(newAreas, l.mmap, l.stack.(frameMap := stackMap), l.heap.(frameMap := heapMap));
    PhasesApart(a, l, n, n1, newAreas, n3, n4, stackMap);
    assert SameRanges(l, l');
    ChildLayout(l, l', n5.frames);
  }

  /** Later phases do not replace trackers of earlier ones. */
  lemma PhasesApart(a: Start, l: Layout, n: Now, n1: Now, newAreas: seq<VmArea>, n3: Now, n4: Now, stackMap: map<nat, nat>)
    requires Origin(a, l) && AreasDone(n, n1, l.areas, newAreas, |l.areas|) && n.mapped == {} && n.frames == map[]
    requires MmapDone(l, n1, n3)
    requires RangeDone(a, n3, n4, stackMap, l.stack.start, l.stack.end) && Part(a.par, l.stack.start, l.stack.end) == l.stack.frameMap.Keys
    ensures n1.frames.Keys !! l.mmap.frameMap.Keys
    ensures n3.frames.Keys !! l.stack.frameMap.Keys
    ensures n4.frames.Keys !! l.heap.frameMap.Keys
  {
    hide StartOk, TrackedFrames, AllPages, AreasDone, Part;
    forall v | v in n1.frames
      ensures !l.mmap.Contains(v) && !l.stack.Contains(v) && !l.heap.Contains(v)
    {
      OnlyAreas(a, l, n, n1, newAreas, v);
    }
    forall v | v in l.mmap.frameMap
      ensures l.mmap.Contains(v) && !l.stack.Contains(v) && !l.heap.Contains(v)
    {
      assert v in l.mmap.pages;
    }
    assert AreaOk(l.stack) && AreaOk(l.heap) && Apart(l.stack, l.heap);
  }

  /** The four loops of fork: areas, anonymous mappings, stack, heap. */
  method ForkContents(ram: Ram, ppt: PageTable, cpt: PageTable, l: Layout, ghost a: Start, ghost n: Now)
    returns (o: Outcome, l': Layout, ghost n': Now)
    requires Matches(ram, ppt, cpt, a, n) && RoomFor(a) && Origin(a, l)
    requires n.mapped == {} && n.frames == map[]
    modifies ppt, cpt, ram.Repr
    ensures ram.Valid()
    ensures o.Panicked? ==> ram.Exhausted()
    ensures o.Running? ==>
              && Matches(ram, ppt, cpt, a, n') && AllDone(l, n')
              && LayoutOk(l') && TrackedFrames(l') == n'.frames && AllPages(l') == AllPages(l)
              && SameBounds(l, l')
  {
    hide Matches, RoomFor, Ram.Valid, AreasDone, RangeDone, Origin, Pending, Placed, TrackedFrames, AllPages, AllDone, LayoutOk, Shared, Part, Apart;
    l' := l;
    OriginAreas(a, l);
    var newAreas;
    ghost var n1;
    o, newAreas, n1 := ForkAreas(ram, ppt, cpt, l.areas, a, n);
    n' := n1;
    if o.Panicked? {
      return;
    }
    PendingMmap(a, l, n, n1, newAreas);
    ghost var n2 := CloneTrackers(ram, ppt, cpt, l.mmap.frameMap, a, n1);
    ghost var n3;
    o, n3 := ShareMappings(ram, ppt, cpt, l.mmap.pages, a, n2);
    if o.Panicked? {
      return;
    }
    PendingRange(a, l, n, n1, newAreas, n3, l.stack);
    PendingRange(a, l, n, n1, newAreas, n3, l.heap);
    var stackMap;
    ghost var n4;
    o, stackMap, n4 := ShareRange(ram, ppt, cpt, l.stack.start, l.stack.end, a, n3);
    if o.Panicked? {
      return;
    }
    HeapAfterStack(a, l, n3, n4, stackMap);
    var heapMap;
    ghost var n5;
    o, heapMap, n5 := ShareRange(ram, ppt, cpt, l.heap.start, l.heap.end, a, n4);
    if o.Panicked? {
      return;
    }
    AllTurnsDone(a, l, n, n1, newAreas, n3, n4, stackMap, n5, heapMap);
    NewLayout(a, l, n, n1, newAreas, n3, n4, stackMap, n5, heapMap);
    n' := n5;
    l' := Layout(newAreas, l.mmap, l.stack.(frameMap := stackMap), l.heap.(frameMap := heapMap));
  }

  lemma OriginAreas(a: Start, l: Layout)
    requires Origin(a, l)
    ensures forall i :: 0 <= i < |l.areas| ==> Placed(a, l.areas[i]) && l.areas[i].areaType != UserHeap
    ensures forall i, j :: 0 <= i < j < |l.areas| ==> Apart(l.areas[i], l.areas[j])
  {
    hide Placed, Apart, StartOk, TrackedFrames, AllPages;
    forall i | 0 <= i < |l.areas|
      ensures Placed(a, l.areas[i]) && l.areas[i].areaType != UserHeap
    {
      AreaPlaced(a, l, i);
    }
  }

  // ---------------------------------------------------------------- fork

  /** Nothing of the parent lies where the trampolines go. */
  ghost predicate BelowTrampolines(l: Layout) {
    forall v :: v in AllPages(l) ==> v != TRAMPOLINE_VPN && v != SIGNAL_TRAMPOLINE_VPN
  }

  lemma ForkStart(refs: map<nat, nat>, mem: Memory, par: Space, l: Layout, fixed: map<nat, Pte>, ts: set<nat>,
                  refs': map<nat, nat>, mem': Memory)
    requires SpaceOk(refs, mem, par) && LayoutOk(l) && par.frames == TrackedFrames(l) && par.pages == AllPages(l)
    requires BelowTrampolines(l) && fixed.Keys == {TRAMPOLINE_VPN, SIGNAL_TRAMPOLINE_VPN}
    requires forall v :: v in fixed ==> !fixed[v].Writable() && !fixed[v].IsCow()
    requires Grew(refs, mem, {}, refs', mem', ts)
    ensures var a := Start(refs, mem, par, fixed);
            Origin(a, l) && Progress(a, Now(refs', mem', par.pt, fixed, ts, map[], {}, {}))
    ensures forall t :: t in par.tables ==> t in refs' && t in mem' && t !in ts
    ensures TablesOf(mem', par.tables) == TablesOf(mem, par.tables)
  {
    hide TrackedFrames, AllPages, LayoutOk, Pte.Writable, Pte.IsCow, Pte.Valid, Progress, TableOf;
    var a := Start(refs, mem, par, fixed);
    forall v | v in par.frames
      ensures v in par.pages && v in par.pt && par.pt[v].ppn == par.frames[v]
              && par.frames[v] in mem && par.frames[v] in refs && par.frames[v] !in par.tables
    {
      assert PageOk(refs, mem, par, v);
    }
    StartProgress(a, ts, refs', mem');
    BindingsFrame(mem, mem', par.tables);
  }

  /** Gives the child its areas and the parent's bounds. */
  method InstallAreas(child: MemorySet, l: Layout, parent: MemorySet)
    requires child != parent
    modifies child
    ensures child.Areas() == l
    ensures child.userStackStart == parent.userStackStart && child.userStackEnd == parent.userStackEnd
    ensures child.brkStart == parent.brkStart && child.brk == parent.brk
  {
    child.mapAreas := l.areas;
    child.mmapManager := l.mmap;
    child.userStackAreas := l.stack;
    child.heapAreas := l.heap;
    child.userStackStart := parent.userStackStart;
    child.userStackEnd := parent.userStackEnd;
    child.brkStart := parent.brkStart;
    child.brk := parent.brk;
  }

  /** `from_copy_on_write`. */
  method FromCopyOnWrite(ram: Ram, parent: MemorySet, trampoline: nat, sigreturn: nat) returns (o: Outcome, child: MemorySet?)
    requires parent.InOrder(ram) && BelowTrampolines(parent.Areas())
    requires trampoline < PPN_LIMIT && sigreturn < PPN_LIMIT
    // reference counts are bytes
    requires forall f :: f in ram.Refs() ==> ram.Refs()[f] + |SharedMine(parent.View(ram), f)| < 256
    modifies parent.pageTable, ram.Repr
    ensures ram.Valid()
    ensures o.Panicked? ==> ram.Exhausted()
    ensures o.Running? ==>
              && child != null && fresh(child) && fresh(child.pageTable)
              && parent.Valid(ram) && child.Valid(ram)
              && ForkedFrom(old(ram.Refs()), old(ram.mem), old(parent.View(ram)), ram.Refs(), ram.mem, parent.View(ram), child.View(ram))
              && (parent.Loaded() ==> child.Loaded())
  {
    hide TrackedFrames, AllPages, LayoutOk, Pte.Writable, Pte.IsCow, Pte.Valid, Progress, Origin, SpaceOk, Grew,
      Meaning, TablesOf, Tree, Partition, BelowTrampolines, AllDone, ForkedFrom, SharedMine, Exact, StartOk;
    ghost var refs, mem, par := ram.Refs(), ram.mem, parent.View(ram);
    o, child := NewBare(ram, trampoline, sigreturn);
    if o.Panicked? {
      return;
    }
    var l := Layout(parent.mapAreas, parent.mmapManager, parent.userStackAreas, parent.heapAreas);
    ghost var fixed := child.pageTable.Bindings(ram);
    ghost var a := Start(refs, mem, par, fixed);
    ghost var n := Now(ram.Refs(), ram.mem, par.pt, fixed, child.pageTable.slots.Keys, map[], {}, {});
    ForkStart(refs, mem, par, l, fixed, child.pageTable.slots.Keys, ram.Refs(), ram.mem);
    OriginStart(a, l);
    assert Matches(ram, parent.pageTable, child.pageTable, a, n);
    var l';
    ghost var n';
    o, l', n' := ForkContents(ram, parent.pageTable, child.pageTable, l, a, n);
    if o.Panicked? {
      return;
    }
    InstallAreas(child, l', parent);
    FinishFork(a, l, n', child.View(ram), parent.View(ram));
  }

  lemma OriginStart(a: Start, l: Layout)
    requires Origin(a, l)
    ensures StartOk(a)
  {
    hide StartOk;
  }

  lemma FinishFork(a: Start, l: Layout, n: Now, child: Space, par': Space)
    requires Origin(a, l) && Progress(a, n) && AllDone(l, n)
    requires child == Space(n.cpt, n.tables, n.frames, a.par.pages)
    requires par' == a.par.(pt := n.ppt)
    ensures ForkedFrom(a.refs, a.mem, a.par, n.refs, n.mem, par', child)
  {
    hide Progress, ForkedFrom, StartOk, LayoutOk;
    TrapsCopied(a, l, n);
    FinishProgress(a, n, child);
  }
}
