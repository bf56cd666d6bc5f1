/** The address space of a process (kernel/src/mm/memory_set.rs): lazy allocation, the breaking of
    sharing, fork, and the loading of areas, over page tables in physical memory.

    `View(ram)` is the state of the space in the transition system of `CowSystem`; every method is proved
    to perform a step of that system. */
module MemorySets {
  import opened LittleEndian
  import opened Options
  import opened Sv39
  import opened FrameAllocator
  import opened PhysicalMemory
  import opened PageTables
  import opened CowSystem
  import opened CowSteps
  import opened CowFork
  import opened CowRuns
  import opened MemoryLayout

  const USER_HEAP_SIZE: nat := 4096 * 30000

  const MMAP_BASE: nat := 0x6000_0000

  function Ceil(va: nat): nat {
    (PAGE_SIZE - 1 + va) / PAGE_SIZE
  }

  // ---------------------------------------------------------------- steps put together

  /** Taking frame `f`, filling it with `page`, and then letting the page table grow. */
  lemma TakenAndGrew(refs: map<nat, nat>, mem: Memory, ts: set<nat>, f: nat, page: Page,
                     refs': map<nat, nat>, mem': Memory, ts': set<nat>)
    requires f in mem && f !in refs
    requires forall t :: t in ts ==> t in mem && t in refs
    requires Grew(refs[f := 1], mem[f := page], ts, refs', mem', ts')
    ensures ts <= ts' && f !in ts' && (forall t :: t in ts' ==> t in mem)
    ensures Taken(refs, refs', {f} + (ts' - ts))
    ensures Kept(mem, mem', {f} + ts')
    ensures f in mem' && mem'[f] == page
  {
  }

  /** A frame was taken for page `v` and then the page table grew around the new entry. */
  lemma PageInStep(refs: map<nat, nat>, mem: Memory, sp: Space, v: nat, f: nat, flags: Flags, page: Page,
                   refs': map<nat, nat>, mem': Memory, sp': Space)
    requires v in sp.pages && v !in sp.pt && f in mem && f !in refs
    requires forall t :: t in sp.tables ==> t in mem && t in refs
    requires FreshFlags(sp.pages[v], flags)
    requires Grew(refs[f := 1], mem[f := page], sp.tables, refs', mem', sp'.tables)
    requires sp' == Space(sp.pt[v := Pte(f, flags)], sp'.tables, sp.frames[v := f], sp.pages)
    ensures Populated(refs, mem, sp, map[v := f], refs', mem', sp')
    ensures mem'[f] == page
    ensures page == ZeroPage() ==> PagedIn(refs, mem, sp, v, refs', mem', sp')
  {
    hide FreshFlags, Grew, Taken, Kept;
    TakenAndGrew(refs, mem, sp.tables, f, page, refs', mem', sp'.tables);
    var nf := map[v := f];
    assert nf.Values == {f} by { assert nf[v] == f; }
    assert sp'.frames == sp.frames + nf;
    assert Contents(mem', nf) == map[v := page];
  }

  /** `map_one`: a zeroed frame for page `vpn`, mapped with `flags`. */
  method MapOne(pt: PageTable, ram: Ram, vpn: nat, flags: Flags) returns (o: Outcome, f: nat)
    requires pt.Valid(ram) && vpn < VPN_LIMIT && vpn !in pt.Bindings(ram)
    modifies pt, ram.Repr
    ensures ram.Valid()
    ensures o.Panicked? ==> ram.Exhausted()
    ensures o.Running? ==>
              && pt.Valid(ram) && f in old(ram.mem) && f in ram.mem && f !in old(ram.Refs()) && f !in pt.slots && ram.mem[f] == ZeroPage()
              && pt.Bindings(ram) == old(pt.Bindings(ram))[vpn := Pte(f, AddFlags(flags, V))]
              && Grew(old(ram.Refs())[f := 1], old(ram.mem)[f := ZeroPage()], old(pt.slots.Keys), ram.Refs(), ram.mem, pt.slots.Keys)
    ensures forall t :: t in old(pt.slots) ==> t in old(ram.mem) && t in old(ram.Refs())
  {
    hide Meaning, TablesOf, Tree, Partition, Grew;
    ghost var refs, mem, ts := ram.Refs(), ram.mem, pt.slots.Keys;
    var got := ram.AllocFrame();
    if got == None {
      return Panicked, 0;
    }
    f := got.value;
    BindingsFrame(mem, ram.mem, ts);
    o := pt.Map(ram, vpn, f, flags);
    if o.Running? {
      TakenAndGrew(refs, mem, ts, f, ZeroPage(), ram.Refs(), ram.mem, pt.slots.Keys);
    }
  }

  /** `reset_cow`, then `set_flags` with W added. */
  method UnprotectEntry(pt: PageTable, ram: Ram, vpn: nat)
    requires pt.Valid(ram) && vpn in pt.Bindings(ram) && pt.Bindings(ram)[vpn].Valid()
    modifies pt, ram.Repr
    ensures pt.Valid(ram) && pt.slots == old(pt.slots) && ram.Refs() == old(ram.Refs()) && ram.mem.Keys == old(ram.mem.Keys)
    ensures forall f :: f in ram.mem && f !in pt.slots ==> ram.mem[f] == old(ram.mem[f])
    ensures pt.Bindings(ram) == old(pt.Bindings(ram))[vpn := Unprotect(old(pt.Bindings(ram))[vpn])]
  {
    hide AddFlags, ClearFlags, Meaning, TablesOf, Tree, Partition, Pte.Valid;
    ghost var m := pt.Bindings(ram);
    ghost var e1 := m[vpn].(flags := ClearFlags(m[vpn].flags, COW));
    pt.BindingsBound(ram);
    FlagsStayValid(m[vpn]);
    FlagsStayValid(e1);
    var _ := pt.ResetCow(ram, vpn);
    var e := pt.Translate(ram, vpn);
    var _ := pt.SetFlags(ram, vpn, AddFlags(e.value.flags, W));
  }

  /** Takes a frame and remaps page `vpn` to it, with the bytes of the former frame. */
  method CopyFrame(pt: PageTable, ram: Ram, vpn: nat, formerPpn: nat) returns (o: Outcome, f: nat)
    requires pt.Valid(ram) && vpn in pt.Bindings(ram)
    requires formerPpn in ram.mem && formerPpn !in pt.slots && formerPpn in ram.Refs()
    modifies pt, ram.Repr
    ensures ram.Valid()
    ensures o.Panicked? ==> ram.Exhausted()
    ensures o.Running? ==>
              && pt.Valid(ram) && pt.slots == old(pt.slots) && f in old(ram.mem) && f !in old(ram.Refs()) && f !in pt.slots
              && ram.Refs() == old(ram.Refs())[f := 1]
              && Kept(old(ram.mem), ram.mem, pt.slots.Keys + {f})
              && ram.mem[f] == old(ram.mem)[formerPpn]
              && pt.Bindings(ram) == old(pt.Bindings(ram))[vpn := Adopt(old(pt.Bindings(ram))[vpn], f)]
  {
    hide AddFlags, Meaning, TablesOf, Tree, Partition;
    ghost var mem := ram.mem;
    pt.BindingsBound(ram);
    assert vpn < VPN_LIMIT;
    var got := ram.AllocFrame();
    if got == None {
      return Panicked, 0;
    }
    f := got.value;
    BindingsFrame(mem, ram.mem, pt.slots.Keys);
    o := pt.RemapCow(ram, vpn, f, formerPpn);
    return o, f;
  }

  class MemorySet {
    const pageTable: PageTable
    var mapAreas: seq<VmArea>
    var mmapManager: MmapManager
    var heapAreas: VmArea
    var brkStart: nat
    var brk: nat
    var userStackAreas: VmArea
    var userStackStart: nat
    var userStackEnd: nat

    /** `new_bare`, around a page table that was just made. */
    constructor (pageTable: PageTable)
      ensures this.pageTable == pageTable
      ensures LayoutOk(Areas()) && TrackedFrames(Areas()) == map[] && AllPages(Areas()) == map[]
    {
      this.pageTable := pageTable;
      mapAreas := [];
      mmapManager := MmapManager(MMAP_BASE, MMAP_BASE, map[], map[]);
      heapAreas := VmArea(UserHeap, 0, 0, R | W | U, map[]);
      brkStart, brk := 0, 0;
      userStackAreas := VmArea(UserStack, 0, 0, R | W | U, map[]);
      userStackStart, userStackEnd := 0, 0;
    }

    ghost function Areas(): Layout
      reads this
    {
      Layout(mapAreas, mmapManager, userStackAreas, heapAreas)
    }

    ghost function View(ram: Ram): Space
      reads this, pageTable, ram
    {
      Space(pageTable.Bindings(ram), pageTable.slots.Keys, TrackedFrames(Areas()), AllPages(Areas()))
    }

    ghost predicate Valid(ram: Ram)
      reads this, pageTable, ram, ram.allocator
    {
      && pageTable.Valid(ram)
      && LayoutOk(Areas())
    }

    /** The bounds that `check_lazy` compares addresses with are those of the areas. */
    ghost predicate Loaded()
      reads this
    {
      && heapAreas.start == brkStart / PAGE_SIZE && heapAreas.end == Ceil(brkStart + USER_HEAP_SIZE)
      && userStackStart % PAGE_SIZE == 0 && userStackEnd % PAGE_SIZE == 0
      && userStackAreas.start == userStackStart / PAGE_SIZE && userStackAreas.end == userStackEnd / PAGE_SIZE
    }

    /** The space is in order with respect to the counts and bytes of the machine. */
    ghost predicate InOrder(ram: Ram)
      reads this, pageTable, ram, ram.allocator
    {
      && Valid(ram)
      && SpaceOk(ram.Refs(), ram.mem, View(ram))
      && (forall f :: f in ram.Refs() ==> ram.Refs()[f] > 0)
    }

    /** `heap_areas.lazy_map_vpn`.  Nothing checks that the page is one of the area: the areas stay in order
        if and only if it is. */
    method LazyAllocHeap(ram: Ram, vpn: nat) returns (o: Outcome)
      requires InOrder(ram) && vpn < VPN_LIMIT && vpn !in pageTable.Bindings(ram)
      modifies this`heapAreas, pageTable, ram.Repr
      ensures ram.Valid()
      ensures o.Panicked? ==> ram.Exhausted()
      ensures o.Running? ==> pageTable.Valid(ram) && (LayoutOk(Areas()) <==> old(heapAreas.Contains(vpn)))
      ensures o.Running? && old(heapAreas.Contains(vpn)) ==>
                PagedIn(old(ram.Refs()), old(ram.mem), old(View(ram)), vpn, ram.Refs(), ram.mem, View(ram))
      ensures SameBounds(old(Areas()), Areas())
    {
      hide TrackedFrames, AllPages, Populated, PagedIn, Grew, Meaning, TablesOf, Tree, Partition, Exact, LayoutOk, SpaceOk,
        FromMapPermission, FreshFlags, AreaOk;
      ghost var refs, mem, sp := ram.Refs(), ram.mem, View(ram);
      FramesAt(Areas(), vpn);
      AreaFacts(Areas(), vpn);
      AreaFlags(heapAreas);
      var f;
      o, f := MapOne(pageTable, ram, vpn, FromMapPermission(heapAreas.permission));
      if o.Running? {
        if heapAreas.Contains(vpn) {
          InsertHeap(Areas(), vpn, f);
        }
        heapAreas := WithFrame(heapAreas, vpn, f);
        if heapAreas.Contains(vpn) {
          PageInStep(refs, mem, sp, vpn, f, AddFlags(FromMapPermission(heapAreas.permission), V), ZeroPage(), ram.Refs(), ram.mem, View(ram));
        } else {
          StrayFrame(Areas(), vpn);
        }
      }
    }

    /** `user_stack_areas.lazy_map_vpn`. */
    method LazyAllocStack(ram: Ram, vpn: nat) returns (o: Outcome)
      requires InOrder(ram) && userStackAreas.Contains(vpn) && vpn !in pageTable.Bindings(ram)
      modifies this`userStackAreas, pageTable, ram.Repr
      ensures ram.Valid()
      ensures o.Panicked? ==> ram.Exhausted()
      ensures o.Running? ==> Valid(ram)
      ensures o.Running? ==> PagedIn(old(ram.Refs()), old(ram.mem), old(View(ram)), vpn, ram.Refs(), ram.mem, View(ram))
      ensures SameBounds(old(Areas()), Areas())
    {
      hide AddFlags, ClearFlags, TrackedFrames, AllPages, Populated, PagedIn, Grew, Meaning, TablesOf, Tree, Partition, Exact, LayoutOk, SpaceOk,
        FromMapPermission, FreshFlags, AreaOk;
      ghost var refs, mem, sp := ram.Refs(), ram.mem, View(ram);
      FramesAt(Areas(), vpn);
      AreaFacts(Areas(), vpn);
      AreaFlags(userStackAreas);
      var f;
      o, f := MapOne(pageTable, ram, vpn, FromMapPermission(userStackAreas.permission));
      if o.Running? {
        InsertStack(Areas(), vpn, f);
        userStackAreas := WithFrame(userStackAreas, vpn, f);
        PageInStep(refs, mem, sp, vpn, f, AddFlags(FromMapPermission(userStackAreas.permission), V), ZeroPage(), ram.Refs(), ram.mem, View(ram));
      }
    }

    /** `lazy_mmap` of an anonymous page: the frame is filled with zeros through the new mapping. */
    method LazyMmap(ram: Ram, vpn: nat) returns (o: Outcome)
      requires InOrder(ram) && mmapManager.Contains(vpn) && vpn !in pageTable.Bindings(ram)
      modifies this`mmapManager, pageTable, ram.Repr
      ensures ram.Valid()
      ensures o.Panicked? ==> ram.Exhausted()
      ensures o.Running? ==> Valid(ram)
      ensures o.Running? ==> PagedIn(old(ram.Refs()), old(ram.mem), old(View(ram)), vpn, ram.Refs(), ram.mem, View(ram))
      ensures SameBounds(old(Areas()), Areas())
    {
      hide AddFlags, ClearFlags, TrackedFrames, AllPages, Populated, PagedIn, Grew, Meaning, TablesOf, Tree, Partition, Exact, LayoutOk, SpaceOk,
        FromMapProts, FreshFlags, ProtKind;
      ghost var refs, mem, sp := ram.Refs(), ram.mem, View(ram);
      FramesAt(Areas(), vpn);
      AreaFacts(Areas(), vpn);
      var prot := mmapManager.pages[vpn].prot;
      ProtFlags(prot);
      var f;
      o, f := MapOne(pageTable, ram, vpn, AddFlags(FromMapProts(prot), U));
      if o.Running? {
        ghost var mem1 := ram.mem;
        ram.WritePage(f, ZeroPage());
        assert ram.mem == mem1;
        InsertMmap(Areas(), vpn, f);
        mmapManager := WithMmapFrame(mmapManager, vpn, f);
        PageInStep(refs, mem, sp, vpn, f, AddFlags(AddFlags(FromMapProts(prot), U), V), ZeroPage(), ram.Refs(), ram.mem, View(ram));
      }
    }

    /** `frame_map.insert(vpn, frame)` on the map of the area that contains the page; the tracker that was
        there is dropped. */
    method ReplaceTracker(ram: Ram, vpn: nat, f: nat) returns (found: bool)
      requires ram.Valid() && LayoutOk(Areas()) && vpn in TrackedFrames(Areas())
      requires var former := TrackedFrames(Areas())[vpn]; former in ram.Refs() && ram.Refs()[former] > 1
      modifies this, ram.Repr
      ensures found
      ensures ram.Valid() && ram.mem == old(ram.mem)
      ensures var former := old(TrackedFrames(Areas()))[vpn]; ram.Refs() == old(ram.Refs())[former := old(ram.Refs())[former] - 1]
      ensures LayoutOk(Areas()) && AllPages(Areas()) == old(AllPages(Areas()))
      ensures TrackedFrames(Areas()) == old(TrackedFrames(Areas()))[vpn := f]
      ensures brkStart == old(brkStart) && userStackStart == old(userStackStart) && userStackEnd == old(userStackEnd)
      ensures SameBounds(old(Areas()), Areas())
    {
      hide AddFlags, ClearFlags, TrackedFrames, AllPages, LayoutOk, Partition;
      FramesAt(Areas(), vpn);
      var i := 0;
      while i < |mapAreas|
        invariant i <= |mapAreas|
        invariant forall j :: 0 <= j < i ==> !mapAreas[j].Contains(vpn)
      {
        if vpn < mapAreas[i].end && vpn >= mapAreas[i].start {
          InsertArea(Areas(), i, vpn, f);
          ram.DropTracker(mapAreas[i].frameMap[vpn]);
          mapAreas := mapAreas[i := WithFrame(mapAreas[i], vpn, f)];
          return true;
        }
        i := i + 1;
      }
      if vpn >= mmapManager.start / PAGE_SIZE && vpn < mmapManager.top / PAGE_SIZE {
        MmapKept(Areas(), vpn, f);
        ram.DropTracker(mmapManager.frameMap[vpn]);
        mmapManager := mmapManager.(frameMap := mmapManager.frameMap[vpn := f]);
        return true;
      }
      if vpn >= userStackAreas.start && vpn < userStackAreas.end {
        InsertStack(Areas(), vpn, f);
        ram.DropTracker(userStackAreas.frameMap[vpn]);
        userStackAreas := WithFrame(userStackAreas, vpn, f);
        return true;
      }
      if vpn >= heapAreas.start && vpn < heapAreas.end {
        InsertHeap(Areas(), vpn, f);
        ram.DropTracker(heapAreas.frameMap[vpn]);
        heapAreas := WithFrame(heapAreas, vpn, f);
        return true;
      }
      return false;
    }

    /** The sole holder of a COW page gets its W bit back. */
    method MakeWritable(ram: Ram, vpn: nat)
      requires InOrder(ram) && vpn in pageTable.Bindings(ram)
      requires pageTable.Bindings(ram)[vpn].IsCow() && ram.Refs()[pageTable.Bindings(ram)[vpn].ppn] == 1
      modifies pageTable, ram.Repr
      ensures Valid(ram)
      ensures CowServed(old(ram.Refs()), old(ram.mem), old(View(ram)), vpn, ram.Refs(), ram.mem, View(ram))
    {
      hide AddFlags, ClearFlags, TrackedFrames, AllPages, Meaning, TablesOf, Tree, Partition, Fixed, Exact, LayoutOk, PageOk,
        Unprotect, Pte.Valid, Pte.Writable, Pte.IsCow, CowServed, SpaceOk;
      ghost var refs, mem, sp := ram.Refs(), ram.mem, View(ram);
      CowEntry(refs, mem, sp, vpn);
      UnprotectEntry(pageTable, ram, vpn);
      UpgradeStep(refs, mem, sp, vpn, ram.Refs(), ram.mem, View(ram));
    }

    /** One of several holders of a COW page gets a copy. */
    method CopyPage(ram: Ram, vpn: nat, formerPpn: nat) returns (o: Outcome)
      requires InOrder(ram) && vpn in pageTable.Bindings(ram)
      requires pageTable.Bindings(ram)[vpn].IsCow() && formerPpn == pageTable.Bindings(ram)[vpn].ppn
      requires formerPpn in ram.Refs() && ram.Refs()[formerPpn] != 1
      modifies this, pageTable, ram.Repr
      ensures ram.Valid()
      ensures o.Panicked? ==> ram.Exhausted()
      ensures o.Running? ==> Valid(ram)
      ensures o.Running? ==> CowServed(old(ram.Refs()), old(ram.mem), old(View(ram)), vpn, ram.Refs(), ram.mem, View(ram))
      ensures brkStart == old(brkStart) && userStackStart == old(userStackStart) && userStackEnd == old(userStackEnd)
      ensures SameBounds(old(Areas()), Areas())
    {
      hide AddFlags, ClearFlags, TrackedFrames, AllPages, Meaning, TablesOf, Tree, Partition, Fixed, Exact, LayoutOk, PageOk,
        Adopt, Pte.Valid, Pte.Writable, Pte.IsCow, CowServed, SpaceOk;
      ghost var refs, mem, sp := ram.Refs(), ram.mem, View(ram);
      CowEntry(refs, mem, sp, vpn);
      var f;
      o, f := CopyFrame(pageTable, ram, vpn, formerPpn);
      if o.Running? {
        var found := ReplaceTracker(ram, vpn, f);
        BreakStep(refs, mem, sp, vpn, f, ram.Refs(), ram.mem, View(ram));
      }
    }

    /** `cow_alloc`. */
    method CowAlloc(ram: Ram, vpn: nat, formerPpn: nat) returns (o: Outcome)
      requires InOrder(ram) && vpn in pageTable.Bindings(ram)
      requires pageTable.Bindings(ram)[vpn].IsCow() && formerPpn == pageTable.Bindings(ram)[vpn].ppn
      modifies this, pageTable, ram.Repr
      ensures ram.Valid()
      ensures o.Panicked? ==> ram.Exhausted()
      ensures o.Running? ==> Valid(ram)
      ensures o.Running? ==> CowServed(old(ram.Refs()), old(ram.mem), old(View(ram)), vpn, ram.Refs(), ram.mem, View(ram))
      ensures Loaded() == old(Loaded())
      ensures brkStart == old(brkStart) && userStackStart == old(userStackStart) && userStackEnd == old(userStackEnd)
    {
      hide AddFlags, ClearFlags, TrackedFrames, AllPages, Meaning, TablesOf, Tree, Partition, Fixed, Exact, LayoutOk, PageOk,
        Pte.Valid, Pte.Writable, Pte.IsCow, CowServed;
      CowEntry(ram.Refs(), ram.mem, View(ram), vpn);
      var times := ram.allocator.EnquireRef(formerPpn);
      if times == 1 {
        MakeWritable(ram, vpn);
        return Running;
      }
      o := CopyPage(ram, vpn, formerPpn);
    }

    /** The addresses of pages that are given frames on first touch. */
    ghost predicate IsLazy(va: nat)
      reads this
    {
      || userStackStart <= va < userStackEnd
      || brkStart <= va < brkStart + USER_HEAP_SIZE
      || mmapManager.start <= va < mmapManager.top
    }

    /** The address just past a page-aligned heap, which the inclusive bound lets through. */
    ghost predicate HeapEdge(va: nat)
      reads this
    {
      && va == brkStart + USER_HEAP_SIZE && va % PAGE_SIZE == 0
      && !(userStackStart <= va < userStackEnd)
    }

    /** `check_lazy` (kernel/src/task/task.rs): serves the page fault at `va`. */
    method CheckLazy(ram: Ram, va: nat) returns (o: Outcome, code: int)
      requires InOrder(ram) && Loaded() && va / PAGE_SIZE < VPN_LIMIT
      modifies this, pageTable, ram.Repr
      ensures ram.Valid()
      ensures o.Panicked? ==> ram.Exhausted()
      ensures Loaded() == old(Loaded())
      ensures brkStart == old(brkStart) && userStackStart == old(userStackStart) && userStackEnd == old(userStackEnd)
      // a COW page is made private
      ensures var vpn := va / PAGE_SIZE; var m := old(pageTable.Bindings(ram));
              o.Running? && vpn in m && m[vpn].IsCow() ==>
                code == 0 && Valid(ram) && CowServed(old(ram.Refs()), old(ram.mem), old(View(ram)), vpn, ram.Refs(), ram.mem, View(ram))
      // any other mapped page is a violation
      ensures var vpn := va / PAGE_SIZE; var m := old(pageTable.Bindings(ram));
              vpn in m && !m[vpn].IsCow() ==>
                o.Running? && code == -4 && Valid(ram) && ram.mem == old(ram.mem) && ram.Refs() == old(ram.Refs()) && View(ram) == old(View(ram))
      // an untouched lazy page gets a zeroed frame
      ensures var vpn := va / PAGE_SIZE;
              o.Running? && vpn !in old(pageTable.Bindings(ram)) && old(IsLazy(va) || va == brkStart + USER_HEAP_SIZE) && !old(HeapEdge(va)) ==>
                code == 0 && Valid(ram) && PagedIn(old(ram.Refs()), old(ram.mem), old(View(ram)), vpn, ram.Refs(), ram.mem, View(ram))
      // anything else is outside the address space
      ensures va / PAGE_SIZE !in old(pageTable.Bindings(ram)) && !old(IsLazy(va)) && va != old(brkStart) + USER_HEAP_SIZE ==>
                o.Running? && code == -2 && Valid(ram) && ram.mem == old(ram.mem) && ram.Refs() == old(ram.Refs()) && View(ram) == old(View(ram))
      // except that the address just past an aligned heap is served from outside the heap area
      ensures o.Running? && va / PAGE_SIZE !in old(pageTable.Bindings(ram)) && old(HeapEdge(va)) ==>
                code == 0 && !LayoutOk(Areas())
    {
      hide TrackedFrames, AllPages, PagedIn, CowServed, Meaning, TablesOf, Tree, Partition, Exact, LayoutOk, SpaceOk, Pte.IsCow, Pte.Valid;
      var vpn := va / PAGE_SIZE;
      pageTable.BindingsBound(ram);
      RangeFacts(Areas());
      var pte := pageTable.Translate(ram, vpn);
      if pte.Some? && pte.value.IsCow() {
        o := CowAlloc(ram, vpn, pte.value.ppn);
        return o, 0;
      } else if pte.Some? && pte.value.Valid() {
        return Running, -4;
      }
      if va >= userStackStart && va < userStackEnd {
        o := LazyAllocStack(ram, vpn);
        return o, 0;
      } else if va >= brkStart && va <= brkStart + USER_HEAP_SIZE {
        o := LazyAllocHeap(ram, vpn);
        return o, 0;
      } else if va >= mmapManager.start && va < mmapManager.top {
        o := LazyMmap(ram, vpn);
        return o, 0;
      }
      return Running, -2;
    }
  }

  lemma RangeFacts(l: Layout)
    requires LayoutOk(l)
    ensures l.mmap.start % PAGE_SIZE == 0 && l.mmap.top % PAGE_SIZE == 0
  {
  }

  /** A tracker outside the heap area. */
  lemma StrayFrame(l: Layout, v: nat)
    requires v in l.heap.frameMap && !l.heap.Contains(v)
    ensures !LayoutOk(l)
  {
    assert !AreaOk(l.heap);
  }

  ghost predicate SameBounds(l: Layout, l': Layout) {
    && l'.heap.start == l.heap.start && l'.heap.end == l.heap.end
    && l'.stack.start == l.stack.start && l'.stack.end == l.stack.end
  }

  lemma AreaFacts(l: Layout, v: nat)
    requires LayoutOk(l)
    ensures l.heap.areaType == UserHeap && l.stack.areaType == UserStack
    ensures l.mmap.Contains(v) || l.stack.Contains(v) || l.heap.Contains(v) ==> v < VPN_LIMIT
    ensures l.mmap.Contains(v) ==> v in l.mmap.pages
  {
  }

  lemma MappedIsValid(m: MmapManager, v: nat, f: nat)
    requires MmapOk(m) && v in m.frameMap
    ensures v in m.pages && WithMmapFrame(m, v, f) == m.(frameMap := m.frameMap[v := f])
  {
    assert m.pages[v := m.pages[v].(valid := true)] == m.pages;
  }

  /** Replacing the tracker of a mapped page of the anonymous mappings. */
  lemma MmapKept(l: Layout, v: nat, f: nat)
    requires LayoutOk(l) && l.mmap.Contains(v) && v in l.mmap.frameMap
    ensures var l' := l.(mmap := l.mmap.(frameMap := l.mmap.frameMap[v := f]));
            LayoutOk(l') && TrackedFrames(l') == TrackedFrames(l)[v := f] && AllPages(l') == AllPages(l)
  {
    hide AddFlags, ClearFlags, TrackedFrames, AllPages, MmapOk, AreaOk, Apart, Inflated, MmapManager.Contains, VmArea.Contains;
    MappedIsValid(l.mmap, v, f);
    InsertMmap(l, v, f);
  }

  /** A COW entry belongs to a tracked page. */
  lemma CowEntry(refs: map<nat, nat>, mem: Memory, sp: Space, v: nat)
    requires SpaceOk(refs, mem, sp) && v in sp.pt && sp.pt[v].IsCow()
    ensures v in sp.frames && sp.frames[v] == sp.pt[v].ppn && sp.pt[v].Valid()
    ensures sp.frames[v] in refs && sp.frames[v] in mem && sp.frames[v] !in sp.tables
    ensures forall t :: t in sp.tables ==> t in mem && t in refs
  {
    hide Pte.Writable, Pte.Valid;
    assert v in sp.frames;
    assert PageOk(refs, mem, sp, v);
  }

  lemma UpgradeStep(refs: map<nat, nat>, mem: Memory, sp: Space, v: nat, refs': map<nat, nat>, mem': Memory, sp': Space)
    requires v in sp.frames && v in sp.pt && Total(refs, sp.frames[v]) == 1
    requires refs' == refs && mem'.Keys == mem.Keys && (forall f :: f in mem && f !in sp.tables ==> mem'[f] == mem[f])
    requires sp'.tables == sp.tables && sp'.frames == sp.frames && sp'.pages == sp.pages
    requires sp'.pt == sp.pt[v := Unprotect(sp.pt[v])]
    ensures CowServed(refs, mem, sp, v, refs', mem', sp')
  {
    assert Upgraded(refs, mem, sp, v, refs', mem', sp');
  }

  lemma BreakStep(refs: map<nat, nat>, mem: Memory, sp: Space, v: nat, f: nat,
                  refs': map<nat, nat>, mem': Memory, sp': Space)
    requires v in sp.frames && v in sp.pt
    requires sp.frames[v] in mem && sp.frames[v] in refs && refs[sp.frames[v]] > 1
    requires f in mem && f !in refs && f !in sp.tables
    requires Kept(mem, mem', sp.tables + {f}) && mem'[f] == mem[sp.frames[v]]
    requires refs' == refs[f := 1][sp.frames[v] := refs[sp.frames[v]] - 1]
    requires sp' == Space(sp.pt[v := Adopt(sp.pt[v], f)], sp.tables, sp.frames[v := f], sp.pages)
    ensures CowServed(refs, mem, sp, v, refs', mem', sp')
  {
    hide Adopt, Kept;
    assert Broken(refs, mem, sp, v, f, refs', mem', sp');
  }
}
