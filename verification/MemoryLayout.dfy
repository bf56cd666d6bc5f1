/** The areas of an address space: what they map, who tracks the frames, and how they lie apart
    (kernel/src/mm/vm_area.rs, kernel/src/mm/mmap.rs and the fields of `MemorySet`).

    Rust keeps `VmArea`s and the `MmapManager` by value inside the `MemorySet`, so they are values here
    and the `MemorySet` is the object. */
module MemoryLayout {
  import opened Sv39
  import opened CowSystem
  import opened CowSteps

  datatype AreaType = UserHeap | UserStack | Elf | TrapContext

  /** A framed area; `start` and `end` are page numbers, `permission` uses the R, W, X and U bits. */
  datatype VmArea = VmArea(areaType: AreaType, start: nat, end: nat, permission: Flags, frameMap: map<nat, nat>) {
    function PageKind(): Kind {
      Kind(permission & W == W, areaType == TrapContext)
    }

    predicate Contains(v: nat) {
      start <= v < end
    }
  }

  type Prot = bv10
  const PROT_READ: Prot := 1
  const PROT_WRITE: Prot := 2
  const PROT_EXEC: Prot := 4

  /** One page of an anonymous mapping. */
  datatype MmapPage = MmapPage(valid: bool, prot: Prot)

  /** `start` and `top` are virtual addresses. */
  datatype MmapManager = MmapManager(start: nat, top: nat, pages: map<nat, MmapPage>, frameMap: map<nat, nat>) {
    predicate Contains(v: nat) {
      start / PAGE_SIZE <= v < top / PAGE_SIZE
    }
  }

  datatype Layout = Layout(areas: seq<VmArea>, mmap: MmapManager, stack: VmArea, heap: VmArea)

  // ---------------------------------------------------------------- flags

  function FromMapPermission(permission: Flags): Flags {
    var f0 := V;
    var f1 := if permission & R == R then f0 | R else f0;
    var f2 := if permission & W == W then f1 | W else f1;
    var f3 := if permission & X == X then f2 | X else f2;
    if permission & U == U then f3 | U else f3
  }

  function FromMapProts(prot: Prot): Flags {
    var f1: Flags := if prot & PROT_READ == PROT_READ then R else 0;
    var f2 := if prot & PROT_WRITE == PROT_WRITE then f1 | W else f1;
    if prot & PROT_EXEC == PROT_EXEC then f2 | X else f2
  }

  function ProtKind(prot: Prot): Kind {
    Kind(prot & PROT_WRITE == PROT_WRITE, false)
  }

  /** A page mapped for an area may be written exactly when the area may. */
  lemma AreaFlags(a: VmArea)
    requires a.areaType == TrapContext ==> a.permission & W == W
    ensures FreshFlags(a.PageKind(), AddFlags(FromMapPermission(a.permission), V))
  {
  }

  lemma ProtFlags(prot: Prot)
    ensures FreshFlags(ProtKind(prot), AddFlags(AddFlags(FromMapProts(prot), U), V))
  {
  }

  // ---------------------------------------------------------------- what an address space tracks

  ghost function AreaFrames(areas: seq<VmArea>): map<nat, nat> {
    if areas == [] then map[] else areas[0].frameMap + AreaFrames(areas[1..])
  }

  ghost function RangePages(a: VmArea): map<nat, Kind> {
    map v: nat | a.start <= v < a.end && a.Contains(v) :: a.PageKind()
  }

  ghost function AreaPages(areas: seq<VmArea>): map<nat, Kind> {
    if areas == [] then map[] else RangePages(areas[0]) + AreaPages(areas[1..])
  }

  ghost function MmapPages(m: MmapManager): map<nat, Kind> {
    map v | v in m.pages :: ProtKind(m.pages[v].prot)
  }

  ghost function TrackedFrames(l: Layout): map<nat, nat> {
    AreaFrames(l.areas) + l.mmap.frameMap + l.stack.frameMap + l.heap.frameMap
  }

  ghost function AllPages(l: Layout): map<nat, Kind> {
    AreaPages(l.areas) + MmapPages(l.mmap) + RangePages(l.stack) + RangePages(l.heap)
  }

  // ---------------------------------------------------------------- order

  ghost predicate AreaOk(a: VmArea) {
    && a.start <= a.end <= VPN_LIMIT
    && (forall v :: v in a.frameMap ==> a.Contains(v))
    && (a.areaType == TrapContext ==> a.permission & W == W)
  }

  ghost predicate Apart(a: VmArea, b: VmArea) {
    forall v :: !(a.Contains(v) && b.Contains(v))
  }

  /** Areas made by `insert_and_map` have a frame on every page. */
  ghost predicate Inflated(a: VmArea) {
    forall v :: a.Contains(v) ==> v in a.frameMap
  }

  ghost predicate MmapOk(m: MmapManager) {
    && m.start % PAGE_SIZE == 0 && m.top % PAGE_SIZE == 0
    && m.start <= m.top && m.top / PAGE_SIZE <= VPN_LIMIT
    && (forall v :: v in m.pages <==> m.Contains(v))
    && (forall v :: v in m.frameMap <==> v in m.pages && m.pages[v].valid)
  }

  /** The areas are in order, and no page belongs to two of them. */
  ghost predicate LayoutOk(l: Layout) {
    && (forall i :: 0 <= i < |l.areas| ==> AreaOk(l.areas[i]) && Inflated(l.areas[i]) && l.areas[i].areaType != UserHeap)
    && (forall i, j :: 0 <= i < j < |l.areas| ==> Apart(l.areas[i], l.areas[j]))
    && AreaOk(l.stack) && AreaOk(l.heap) && MmapOk(l.mmap)
    && l.stack.areaType == UserStack && l.heap.areaType == UserHeap
    && Apart(l.stack, l.heap)
    && (forall i :: 0 <= i < |l.areas| ==> Apart(l.areas[i], l.stack) && Apart(l.areas[i], l.heap))
    && (forall v :: l.mmap.Contains(v) ==> !l.stack.Contains(v) && !l.heap.Contains(v))
    && (forall i, v :: 0 <= i < |l.areas| && l.mmap.Contains(v) ==> !l.areas[i].Contains(v))
  }

  // ---------------------------------------------------------------- lookups

  lemma {:induction false} AreaFramesAt(areas: seq<VmArea>, i: nat, v: nat)
    requires i < |areas| && areas[i].Contains(v)
    requires forall k :: 0 <= k < |areas| ==> AreaOk(areas[k])
    requires forall j, k :: 0 <= j < k < |areas| ==> Apart(areas[j], areas[k])
    ensures v in AreaFrames(areas) <==> v in areas[i].frameMap
    ensures v in areas[i].frameMap ==> AreaFrames(areas)[v] == areas[i].frameMap[v]
    ensures v in AreaPages(areas) && AreaPages(areas)[v] == areas[i].PageKind()
  {
    if i == 0 {
      AreaFramesOutside(areas[1..], v);
    } else {
      AreaFramesAt(areas[1..], i - 1, v);
      assert Apart(areas[0], areas[i]);
    }
  }

  lemma {:induction false} AreaFramesOutside(areas: seq<VmArea>, v: nat)
    requires forall k :: 0 <= k < |areas| ==> AreaOk(areas[k]) && !areas[k].Contains(v)
    ensures v !in AreaFrames(areas) && v !in AreaPages(areas)
  {
    if areas != [] {
      AreaFramesOutside(areas[1..], v);
    }
  }

  ghost predicate InSomeArea(areas: seq<VmArea>, v: nat) {
    exists i :: 0 <= i < |areas| && areas[i].Contains(v)
  }

  /** Which area answers for page `v`. */
  lemma FramesAt(l: Layout, v: nat)
    requires LayoutOk(l)
    ensures forall i :: 0 <= i < |l.areas| && l.areas[i].Contains(v) ==>
              v in TrackedFrames(l) && v in l.areas[i].frameMap && TrackedFrames(l)[v] == l.areas[i].frameMap[v]
              && v in AllPages(l) && AllPages(l)[v] == l.areas[i].PageKind()
    ensures l.mmap.Contains(v) ==>
              (v in TrackedFrames(l) <==> v in l.mmap.frameMap) && (v in l.mmap.frameMap ==> TrackedFrames(l)[v] == l.mmap.frameMap[v])
              && v in l.mmap.pages && v in AllPages(l) && AllPages(l)[v] == ProtKind(l.mmap.pages[v].prot)
    ensures l.stack.Contains(v) ==>
              (v in TrackedFrames(l) <==> v in l.stack.frameMap) && (v in l.stack.frameMap ==> TrackedFrames(l)[v] == l.stack.frameMap[v])
              && v in AllPages(l) && AllPages(l)[v] == l.stack.PageKind()
    ensures l.heap.Contains(v) ==>
              (v in TrackedFrames(l) <==> v in l.heap.frameMap) && (v in l.heap.frameMap ==> TrackedFrames(l)[v] == l.heap.frameMap[v])
              && v in AllPages(l) && AllPages(l)[v] == l.heap.PageKind()
    ensures !InSomeArea(l.areas, v) && !l.mmap.Contains(v) && !l.stack.Contains(v) && !l.heap.Contains(v) ==>
              v !in TrackedFrames(l) && v !in AllPages(l)
  {
    hide VmArea.PageKind, ProtKind;
    if InSomeArea(l.areas, v) {
      var i :| 0 <= i < |l.areas| && l.areas[i].Contains(v);
      AreaFramesAt(l.areas, i, v);
      assert Apart(l.areas[i], l.stack) && Apart(l.areas[i], l.heap);
      forall j | 0 <= j < |l.areas| && l.areas[j].Contains(v)
        ensures j == i
      {
        assert j < i ==> Apart(l.areas[j], l.areas[i]);
        assert i < j ==> Apart(l.areas[i], l.areas[j]);
      }
    } else {
      AreaFramesOutside(l.areas, v);
    }
  }

  // ---------------------------------------------------------------- new frames

  function WithFrame(a: VmArea, v: nat, f: nat): VmArea {
    a.(frameMap := a.frameMap[v := f])
  }

  /** `l'` has the areas of `l`, and only the tracker of page `v` is new. */
  ghost predicate SameRanges(l: Layout, l': Layout) {
    && |l'.areas| == |l.areas|
    && (forall i :: 0 <= i < |l.areas| ==> SameArea(l.areas[i], l'.areas[i]))
    && SameArea(l.stack, l'.stack) && SameArea(l.heap, l'.heap)
    && l'.mmap.start == l.mmap.start && l'.mmap.top == l.mmap.top
    && l'.mmap.pages.Keys == l.mmap.pages.Keys
    && (forall v :: v in l.mmap.pages ==> l'.mmap.pages[v].prot == l.mmap.pages[v].prot)
  }

  ghost predicate SameArea(a: VmArea, b: VmArea) {
    b == a.(frameMap := b.frameMap)
  }

  lemma SameRangesApart(l: Layout, l': Layout)
    requires LayoutOk(l) && SameRanges(l, l')
    requires forall i :: 0 <= i < |l.areas| ==> l'.areas[i].frameMap.Keys == l.areas[i].frameMap.Keys
    requires forall v :: v in l'.stack.frameMap ==> l.stack.Contains(v)
    requires forall v :: v in l'.heap.frameMap ==> l.heap.Contains(v)
    requires forall v :: v in l'.mmap.frameMap <==> v in l'.mmap.pages && l'.mmap.pages[v].valid
    ensures LayoutOk(l')
  {
    forall i | 0 <= i < |l'.areas|
      ensures AreaOk(l'.areas[i]) && Inflated(l'.areas[i]) && l'.areas[i].areaType != UserHeap
      ensures Apart(l'.areas[i], l'.stack) && Apart(l'.areas[i], l'.heap)
    {
      assert SameArea(l.areas[i], l'.areas[i]);
      assert AreaOk(l.areas[i]) && Inflated(l.areas[i]);
      assert Apart(l.areas[i], l.stack) && Apart(l.areas[i], l.heap);
    }
    forall i, j | 0 <= i < j < |l'.areas|
      ensures Apart(l'.areas[i], l'.areas[j])
    {
      assert SameArea(l.areas[i], l'.areas[i]) && SameArea(l.areas[j], l'.areas[j]);
      assert Apart(l.areas[i], l.areas[j]);
    }
    forall i, v | 0 <= i < |l'.areas| && l'.mmap.Contains(v)
      ensures !l'.areas[i].Contains(v)
    {
      assert SameArea(l.areas[i], l'.areas[i]);
      assert l.mmap.Contains(v);
    }
    AreaKindKept(l.stack, l'.stack);
    AreaKindKept(l.heap, l'.heap);
    forall v
      ensures !(l'.stack.Contains(v) && l'.heap.Contains(v))
    {
      assert Apart(l.stack, l.heap);
      assert l.stack.Contains(v) == l'.stack.Contains(v);
    }
  }

  ghost function FrameIn(a: VmArea, v: nat): set<nat> {
    if v in a.frameMap then {a.frameMap[v]} else {}
  }

  lemma SameSearch(l: Layout, l': Layout, u: nat)
    requires SameRanges(l, l')
    ensures InSomeArea(l'.areas, u) == InSomeArea(l.areas, u)
  {
    forall i | 0 <= i < |l.areas|
      ensures l'.areas[i].Contains(u) == l.areas[i].Contains(u)
    {
      assert SameArea(l.areas[i], l'.areas[i]);
    }
    if InSomeArea(l.areas, u) {
      var i :| 0 <= i < |l.areas| && l.areas[i].Contains(u);
      assert l'.areas[i].Contains(u);
    }
  }

  /** The tracker of page `u`, as the area that answers for it has it. */
  lemma FramesAgree(l: Layout, l': Layout, u: nat)
    requires LayoutOk(l) && LayoutOk(l') && SameRanges(l, l')
    requires forall i :: 0 <= i < |l.areas| ==> FrameIn(l'.areas[i], u) == FrameIn(l.areas[i], u)
    requires FrameIn(l'.stack, u) == FrameIn(l.stack, u)
    requires FrameIn(l'.heap, u) == FrameIn(l.heap, u)
    requires u in l'.mmap.frameMap <==> u in l.mmap.frameMap
    requires u in l.mmap.frameMap ==> l'.mmap.frameMap[u] == l.mmap.frameMap[u]
    ensures u in TrackedFrames(l') <==> u in TrackedFrames(l)
    ensures u in TrackedFrames(l) ==> TrackedFrames(l')[u] == TrackedFrames(l)[u]
    ensures u in AllPages(l') <==> u in AllPages(l)
    ensures u in AllPages(l) ==> AllPages(l')[u] == AllPages(l)[u]
  {
    hide VmArea.PageKind, TrackedFrames, AllPages, LayoutOk;
    SameSearch(l, l', u);
    FramesAt(l, u);
    FramesAt(l', u);
    if InSomeArea(l.areas, u) {
      var i :| 0 <= i < |l.areas| && l.areas[i].Contains(u);
      assert SameArea(l.areas[i], l'.areas[i]);
      AreaKindKept(l.areas[i], l'.areas[i]);
      assert FrameIn(l'.areas[i], u) == FrameIn(l.areas[i], u);
      assert u in l'.areas[i].frameMap;
      assert l'.areas[i].frameMap[u] in FrameIn(l.areas[i], u);
    } else {
      AreaKindKept(l.stack, l'.stack);
      AreaKindKept(l.heap, l'.heap);
      if l.stack.Contains(u) {
        assert u in l'.stack.frameMap ==> l'.stack.frameMap[u] in FrameIn(l.stack, u);
      } else if l.heap.Contains(u) {
        assert u in l'.heap.frameMap ==> l'.heap.frameMap[u] in FrameIn(l.heap, u);
      }
    }
  }

  lemma AreaKindKept(a: VmArea, b: VmArea)
    requires SameArea(a, b)
    ensures b.PageKind() == a.PageKind()
    ensures forall v :: b.Contains(v) == a.Contains(v)
  {
  }

  lemma PagesKept(l: Layout, l': Layout)
    requires forall u :: u in AllPages(l') <==> u in AllPages(l)
    requires forall u :: u in AllPages(l) ==> AllPages(l')[u] == AllPages(l)[u]
    ensures AllPages(l') == AllPages(l)
  {
    hide AllPages;
  }

  lemma FramesUpdated(l: Layout, l': Layout, v: nat, f: nat)
    requires forall u :: u != v ==> (u in TrackedFrames(l') <==> u in TrackedFrames(l))
    requires forall u :: u != v && u in TrackedFrames(l) ==> TrackedFrames(l')[u] == TrackedFrames(l)[u]
    requires v in TrackedFrames(l') && TrackedFrames(l')[v] == f
    ensures TrackedFrames(l') == TrackedFrames(l)[v := f]
  {
    hide TrackedFrames;
  }

  /** Putting tracker `f` for page `v` into area `i`. */
  lemma InsertArea(l: Layout, i: nat, v: nat, f: nat)
    requires LayoutOk(l) && i < |l.areas| && l.areas[i].Contains(v)
    ensures var l' := l.(areas := l.areas[i := WithFrame(l.areas[i], v, f)]);
            LayoutOk(l') && TrackedFrames(l') == TrackedFrames(l)[v := f] && AllPages(l') == AllPages(l)
  {
    hide VmArea.PageKind, TrackedFrames, AllPages;
    var l' := l.(areas := l.areas[i := WithFrame(l.areas[i], v, f)]);
    assert l'.areas[i].frameMap.Keys == l.areas[i].frameMap.Keys by { assert Inflated(l.areas[i]); }
    assert AreaOk(l.areas[i]);
    SameRangesApart(l, l');
    forall u | u != v
      ensures u in TrackedFrames(l') <==> u in TrackedFrames(l)
      ensures u in TrackedFrames(l) ==> TrackedFrames(l')[u] == TrackedFrames(l)[u]
      ensures u in AllPages(l') <==> u in AllPages(l)
      ensures u in AllPages(l) ==> AllPages(l')[u] == AllPages(l)[u]
    {
      FramesAgree(l, l', u);
    }
    FramesAt(l, v);
    FramesAt(l', v);
    assert l'.areas[i].Contains(v);
    AreaKindKept(l.areas[i], l'.areas[i]);
    FramesUpdated(l, l', v, f);
    PagesKept(l, l');
  }

  lemma InsertStack(l: Layout, v: nat, f: nat)
    requires LayoutOk(l) && l.stack.Contains(v)
    ensures var l' := l.(stack := WithFrame(l.stack, v, f));
            LayoutOk(l') && TrackedFrames(l') == TrackedFrames(l)[v := f] && AllPages(l') == AllPages(l)
  {
    hide VmArea.PageKind, TrackedFrames, AllPages;
    var l' := l.(stack := WithFrame(l.stack, v, f));
    SameRangesApart(l, l');
    forall u | u != v
      ensures u in TrackedFrames(l') <==> u in TrackedFrames(l)
      ensures u in TrackedFrames(l) ==> TrackedFrames(l')[u] == TrackedFrames(l)[u]
      ensures u in AllPages(l') <==> u in AllPages(l)
      ensures u in AllPages(l) ==> AllPages(l')[u] == AllPages(l)[u]
    {
      FramesAgree(l, l', u);
    }
    FramesAt(l, v);
    FramesAt(l', v);
    AreaKindKept(l.stack, l'.stack);
    FramesUpdated(l, l', v, f);
    PagesKept(l, l');
  }

  lemma InsertHeap(l: Layout, v: nat, f: nat)
    requires LayoutOk(l) && l.heap.Contains(v)
    ensures var l' := l.(heap := WithFrame(l.heap, v, f));
            LayoutOk(l') && TrackedFrames(l') == TrackedFrames(l)[v := f] && AllPages(l') == AllPages(l)
  {
    hide VmArea.PageKind, TrackedFrames, AllPages;
    var l' := l.(heap := WithFrame(l.heap, v, f));
    SameRangesApart(l, l');
    forall u | u != v
      ensures u in TrackedFrames(l') <==> u in TrackedFrames(l)
      ensures u in TrackedFrames(l) ==> TrackedFrames(l')[u] == TrackedFrames(l)[u]
      ensures u in AllPages(l') <==> u in AllPages(l)
      ensures u in AllPages(l) ==> AllPages(l')[u] == AllPages(l)[u]
    {
      FramesAgree(l, l', u);
    }
    FramesAt(l, v);
    FramesAt(l', v);
    AreaKindKept(l.heap, l'.heap);
    FramesUpdated(l, l', v, f);
    PagesKept(l, l');
  }

  function WithMmapFrame(m: MmapManager, v: nat, f: nat): MmapManager
    requires v in m.pages
  {
    m.(pages := m.pages[v := m.pages[v].(valid := true)], frameMap := m.frameMap[v := f])
  }

  lemma InsertMmap(l: Layout, v: nat, f: nat)
    requires LayoutOk(l) && l.mmap.Contains(v)
    ensures v in l.mmap.pages
    ensures var l' := l.(mmap := WithMmapFrame(l.mmap, v, f));
            LayoutOk(l') && TrackedFrames(l') == TrackedFrames(l)[v := f] && AllPages(l') == AllPages(l)
  {
    hide VmArea.PageKind, TrackedFrames, AllPages;
    var l' := l.(mmap := WithMmapFrame(l.mmap, v, f));
    SameRangesApart(l, l');
    forall u | u != v
      ensures u in TrackedFrames(l') <==> u in TrackedFrames(l)
      ensures u in TrackedFrames(l) ==> TrackedFrames(l')[u] == TrackedFrames(l)[u]
      ensures u in AllPages(l') <==> u in AllPages(l)
      ensures u in AllPages(l) ==> AllPages(l')[u] == AllPages(l)[u]
    {
      FramesAgree(l, l', u);
    }
    FramesAt(l, v);
    FramesAt(l', v);
    FramesUpdated(l, l', v, f);
    PagesKept(l, l');
  }
}
