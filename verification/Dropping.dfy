/** The end of an address space: all its frame trackers are dropped. */
module Dropping {
  import opened Sequences
  import opened Sv39
  import opened FrameAllocator
  import opened PhysicalMemory
  import opened PageTables
  import opened CowSystem
  import opened CowSteps
  import opened CowFork
  import opened MemoryLayout
  import opened MemorySets

  ghost function Among(m: map<nat, nat>, f: nat): set<nat> {
    set v | v in m && m[v] == f
  }

  /** The trackers of `done` are gone. */
  ghost predicate Gone(refs: map<nat, nat>, refs': map<nat, nat>, done: map<nat, nat>) {
    && (forall f :: Total(refs', f) + |Among(done, f)| == Total(refs, f))
    && (forall f :: f in refs' ==> refs'[f] > 0)
  }

  /** Dropping one tracker. */
  function DropOne(refs: map<nat, nat>, f: nat): map<nat, nat>
    requires f in refs
  {
    if refs[f] > 1 then refs[f := refs[f] - 1] else refs - {f}
  }

  lemma AmongOne(m: map<nat, nat>, v: nat, f: nat, g: nat)
    requires v !in m
    ensures |Among(m[v := f], g)| == |Among(m, g)| + (if g == f then 1 else 0)
  {
    if g == f {
      assert Among(m[v := f], g) == Among(m, g) + {v};
    } else {
      assert Among(m[v := f], g) == Among(m, g);
    }
  }

  lemma {:induction false} AmongPart(m: map<nat, nat>, all: map<nat, nat>, f: nat)
    requires forall v :: v in m ==> v in all && all[v] == m[v]
    ensures |Among(m, f)| <= |Among(all, f)|
  {
    SubsetSize(Among(m, f), Among(all, f));
  }

  /** A tracker that is still there is counted. */
  lemma StillCounted(refs: map<nat, nat>, refs': map<nat, nat>, done: map<nat, nat>, all: map<nat, nat>, v: nat)
    requires Gone(refs, refs', done)
    requires forall u :: u in done ==> u in all && all[u] == done[u]
    requires v in all && v !in done
    requires forall f :: |Among(all, f)| <= Total(refs, f)
    ensures all[v] in refs' && refs'[all[v]] > 0
  {
    var f := all[v];
    AmongOne(done, v, f, f);
    AmongPart(done[v := f], all, f);
    assert Total(refs', f) > 0;
  }

  lemma GoneOne(refs: map<nat, nat>, refs': map<nat, nat>, done: map<nat, nat>, v: nat, f: nat)
    requires Gone(refs, refs', done) && v !in done && f in refs'
    ensures Gone(refs, DropOne(refs', f), done[v := f])
  {
    forall g
      ensures Total(DropOne(refs', f), g) + |Among(done[v := f], g)| == Total(refs, g)
    {
      AmongOne(done, v, f, g);
    }
  }

  lemma GoneNone(refs: map<nat, nat>)
    requires forall f :: f in refs ==> refs[f] > 0
    ensures Gone(refs, refs, map[])
  {
    forall f
      ensures Among(map[], f) == {}
    {
    }
  }

  ghost predicate Within(m: map<nat, nat>, all: map<nat, nat>) {
    forall v :: v in m ==> v in all && all[v] == m[v]
  }

  /** The trackers of `frameMap` but those in `left` are gone, too. */
  ghost function DoneBut(done: map<nat, nat>, frameMap: map<nat, nat>, left: set<nat>): map<nat, nat> {
    done + (frameMap - left)
  }

  lemma NextDrop(refs: map<nat, nat>, refs': map<nat, nat>, done: map<nat, nat>, frameMap: map<nat, nat>, left: set<nat>,
                 all: map<nat, nat>, v: nat)
    requires Gone(refs, refs', DoneBut(done, frameMap, left))
    requires Within(done, all) && Within(frameMap, all) && done.Keys !! frameMap.Keys
    requires forall f :: |Among(all, f)| <= Total(refs, f)
    requires v in left && v in frameMap
    ensures frameMap[v] in refs' && refs'[frameMap[v]] > 0
    ensures Gone(refs, DropOne(refs', frameMap[v]), DoneBut(done, frameMap, left - {v}))
  {
    hide Gone, Among, DropOne;
    var d := DoneBut(done, frameMap, left);
    assert v !in d;
    StillCounted(refs, refs', d, all, v);
    GoneOne(refs, refs', d, v, frameMap[v]);
    assert DoneBut(done, frameMap, left - {v}) == d[v := frameMap[v]];
  }

  /** The drop of one frame map. */
  method DropFrameMap(ram: Ram, frameMap: map<nat, nat>, ghost refs: map<nat, nat>, ghost done: map<nat, nat>, ghost all: map<nat, nat>)
    requires ram.Valid() && Gone(refs, ram.Refs(), done)
    requires Within(done, all) && Within(frameMap, all) && done.Keys !! frameMap.Keys
    requires forall f :: |Among(all, f)| <= Total(refs, f)
    modifies ram.Repr
    ensures ram.Valid() && ram.mem == old(ram.mem)
    ensures Gone(refs, ram.Refs(), done + frameMap)
  {
    hide Gone, Total, Among, Partition, Within, DoneBut;
    var left := frameMap.Keys;
    DoneButEnds(done, frameMap);
    while left != {}
      invariant left <= frameMap.Keys
      invariant ram.Valid() && ram.mem == old(ram.mem)
      invariant Gone(refs, ram.Refs(), DoneBut(done, frameMap, left))
      decreases |left|
    {
      var v :| v in left;
      NextDrop(refs, ram.Refs(), done, frameMap, left, all, v);
      ram.DropTracker(frameMap[v]);
      left := left - {v};
    }
  }

  lemma DoneButEnds(done: map<nat, nat>, frameMap: map<nat, nat>)
    ensures DoneBut(done, frameMap, frameMap.Keys) == done
    ensures DoneBut(done, frameMap, {}) == done + frameMap
  {
    assert frameMap - frameMap.Keys == map[];
    assert frameMap - {} == frameMap;
  }

  // ---------------------------------------------------------------- areas

  lemma {:induction false} AreaFramesTake(areas: seq<VmArea>, i: nat)
    requires i < |areas|
    requires forall j :: 0 <= j < |areas| ==> AreaOk(areas[j])
    requires forall j, k :: 0 <= j < k < |areas| ==> Apart(areas[j], areas[k])
    ensures AreaFrames(areas[..i + 1]) == AreaFrames(areas[..i]) + areas[i].frameMap
    ensures AreaFrames(areas[..i]).Keys !! areas[i].frameMap.Keys
  {
    hide Apart, AreaOk;
    if i == 0 {
      assert areas[..1][1..] == [];
      assert areas[..0] == [];
    } else {
      AreaFramesTake(areas[1..], i - 1) by {
        assert forall j, k :: 0 <= j < k < |areas[1..]| ==> Apart(areas[1..][j], areas[1..][k]);
      }
      assert areas[..i + 1][1..] == areas[1..][..i];
      assert areas[..i][1..] == areas[1..][..i - 1];
      AreaApart(areas[0], areas[i]);
    }
  }

  lemma AreaApart(a: VmArea, b: VmArea)
    requires AreaOk(a) && AreaOk(b) && Apart(a, b)
    ensures a.frameMap.Keys !! b.frameMap.Keys
  {
  }

  /** The frame maps of a layout are parts of what it tracks, and they do not overlap. */
  lemma RegionsWithin(l: Layout)
    requires LayoutOk(l)
    ensures forall i :: 0 <= i < |l.areas| ==> Within(l.areas[i].frameMap, TrackedFrames(l))
    ensures Within(AreaFrames(l.areas), TrackedFrames(l))
    ensures Within(l.mmap.frameMap, TrackedFrames(l)) && Within(l.stack.frameMap, TrackedFrames(l)) && Within(l.heap.frameMap, TrackedFrames(l))
    ensures l.mmap.frameMap.Keys !! AreaFrames(l.areas).Keys
    ensures l.stack.frameMap.Keys !! AreaFrames(l.areas).Keys && l.stack.frameMap.Keys !! l.mmap.frameMap.Keys
    ensures l.heap.frameMap.Keys !! AreaFrames(l.areas).Keys && l.heap.frameMap.Keys !! l.mmap.frameMap.Keys
    ensures l.heap.frameMap.Keys !! l.stack.frameMap.Keys
  {
    hide AllPages, VmArea.PageKind, ProtKind;
    forall i, v | 0 <= i < |l.areas| && v in l.areas[i].frameMap
      ensures v in TrackedFrames(l) && TrackedFrames(l)[v] == l.areas[i].frameMap[v]
    {
      assert AreaOk(l.areas[i]);
      FramesAt(l, v);
    }
    forall v | l.mmap.Contains(v) || l.stack.Contains(v) || l.heap.Contains(v)
      ensures v !in AreaFrames(l.areas)
    {
      AreaKeysOutside(l, v);
    }
    assert AreaOk(l.stack) && AreaOk(l.heap) && Apart(l.stack, l.heap);
    forall v | v in l.mmap.frameMap
      ensures l.mmap.Contains(v)
    {
      assert v in l.mmap.pages;
    }
  }

  lemma AreaKeysOutside(l: Layout, v: nat)
    requires LayoutOk(l) && (l.mmap.Contains(v) || l.stack.Contains(v) || l.heap.Contains(v))
    ensures v !in AreaFrames(l.areas)
  {
    forall i | 0 <= i < |l.areas|
      ensures AreaOk(l.areas[i]) && !l.areas[i].Contains(v)
    {
      assert Apart(l.areas[i], l.stack) && Apart(l.areas[i], l.heap);
    }
    AreaFramesOutside(l.areas, v);
  }

  lemma {:induction false} PrefixWithin(l: Layout, i: nat)
    requires LayoutOk(l) && i <= |l.areas|
    ensures Within(AreaFrames(l.areas[..i]), TrackedFrames(l))
  {
    RegionsWithin(l);
    if i > 0 {
      PrefixWithin(l, i - 1);
      AreaFramesTake(l.areas, i - 1);
    } else {
      assert l.areas[..0] == [];
    }
  }

  /** The drop of all frame maps of an address space. */
  method DropAreas(ram: Ram, l: Layout, ghost refs: map<nat, nat>)
    requires ram.Valid() && LayoutOk(l) && refs == ram.Refs()
    requires forall f :: f in refs ==> refs[f] > 0
    requires forall f :: |Among(TrackedFrames(l), f)| <= Total(refs, f)
    modifies ram.Repr
    ensures ram.Valid() && ram.mem == old(ram.mem)
    ensures Gone(refs, ram.Refs(), TrackedFrames(l))
  {
    hide Gone, Total, Among, Partition, Within, TrackedFrames, LayoutOk, AreaFrames;
    ghost var all := TrackedFrames(l);
    GoneNone(refs);
    RegionsWithin(l);
    NoAreas(l.areas);
    var i := 0;
    while i < |l.areas|
      invariant i <= |l.areas|
      invariant ram.Valid() && ram.mem == old(ram.mem)
      invariant Gone(refs, ram.Refs(), AreaFrames(l.areas[..i]))
    {
      PrefixWithin(l, i);
      TakeArea(l, i);
      DropFrameMap(ram, l.areas[i].frameMap, refs, AreaFrames(l.areas[..i]), all);
      i := i + 1;
    }
    assert l.areas[..|l.areas|] == l.areas;
    ghost var d := AreaFrames(l.areas);
    DropFrameMap(ram, l.mmap.frameMap, refs, d, all);
    WithinUnion(d, l.mmap.frameMap, all);
    d := d + l.mmap.frameMap;
    DropFrameMap(ram, l.stack.frameMap, refs, d, all);
    WithinUnion(d, l.stack.frameMap, all);
    d := d + l.stack.frameMap;
    DropFrameMap(ram, l.heap.frameMap, refs, d, all);
    AllTracked(l);
  }

  lemma NoAreas(areas: seq<VmArea>)
    ensures AreaFrames(areas[..0]) == map[]
  {
  }

  lemma TakeArea(l: Layout, i: nat)
    requires LayoutOk(l) && i < |l.areas|
    ensures AreaFrames(l.areas[..i + 1]) == AreaFrames(l.areas[..i]) + l.areas[i].frameMap
    ensures AreaFrames(l.areas[..i]).Keys !! l.areas[i].frameMap.Keys
  {
    AreaFramesTake(l.areas, i);
  }

  lemma WithinUnion(a: map<nat, nat>, b: map<nat, nat>, all: map<nat, nat>)
    requires Within(a, all) && Within(b, all)
    ensures Within(a + b, all)
    ensures (a + b).Keys == a.Keys + b.Keys
  {
  }

  lemma AllTracked(l: Layout)
    ensures TrackedFrames(l) == AreaFrames(l.areas) + l.mmap.frameMap + l.stack.frameMap + l.heap.frameMap
  {
  }

  // ---------------------------------------------------------------- table frames

  /** The first `i` table frames are gone, too. */
  ghost predicate TablesGone(refs: map<nat, nat>, refs': map<nat, nat>, frames: seq<nat>, i: nat) {
    && i <= |frames|
    && (forall f :: Total(refs', f) == Total(refs, f) - (if f in frames[..i] then 1 else 0))
    && (forall f :: f in refs' ==> refs'[f] > 0)
  }

  lemma TableGone(refs: map<nat, nat>, refs': map<nat, nat>, frames: seq<nat>, i: nat)
    requires TablesGone(refs, refs', frames, i) && i < |frames| && NoDuplicates(frames)
    requires Total(refs, frames[i]) > 0
    ensures frames[i] in refs' && refs'[frames[i]] > 0
    ensures TablesGone(refs, DropOne(refs', frames[i]), frames, i + 1)
  {
    assert frames[i] !in frames[..i];
    assert Total(refs', frames[i]) > 0;
    assert frames[..i + 1] == frames[..i] + [frames[i]];
  }

  method DropTables(ram: Ram, frames: seq<nat>)
    requires ram.Valid() && NoDuplicates(frames)
    requires forall f :: f in ram.Refs() ==> ram.Refs()[f] > 0
    requires forall f :: f in frames ==> f in ram.Refs()
    modifies ram.Repr
    ensures ram.Valid() && ram.mem == old(ram.mem)
    ensures TablesGone(old(ram.Refs()), ram.Refs(), frames, |frames|)
  {
    hide Partition, TablesGone, NoDuplicates;
    ghost var refs := ram.Refs();
    assert TablesGone(refs, refs, frames, 0) by { NoTablesGone(refs, frames); }
    var i := 0;
    while i < |frames|
      invariant i <= |frames|
      invariant ram.Valid() && ram.mem == old(ram.mem)
      invariant TablesGone(refs, ram.Refs(), frames, i)
    {
      TableGone(refs, ram.Refs(), frames, i);
      ram.DropTracker(frames[i]);
      i := i + 1;
    }
  }

  lemma NoTablesGone(refs: map<nat, nat>, frames: seq<nat>)
    requires forall f :: f in refs ==> refs[f] > 0
    ensures TablesGone(refs, refs, frames, 0)
  {
  }

  // ---------------------------------------------------------------- everything

  lemma AmongIsMine(sp: Space, f: nat)
    ensures Among(sp.frames, f) == Mine(sp, f)
  {
  }

  lemma SpaceDropped(refs: map<nat, nat>, mem: Memory, sp: Space, refs1: map<nat, nat>, frames: seq<nat>, refs2: map<nat, nat>)
    requires Gone(refs, refs1, sp.frames)
    requires TablesGone(refs1, refs2, frames, |frames|)
    requires forall t :: t in frames <==> t in sp.tables
    ensures Dropped(refs, mem, sp, refs2, mem)
  {
    assert frames[..|frames|] == frames;
    forall f
      ensures Total(refs2, f) == Total(refs, f) - Count(sp, f) + Count(EMPTY, f)
    {
      AmongIsMine(sp, f);
      EmptyCount(f);
    }
  }

  lemma TablesLeft(refs: map<nat, nat>, sp: Space, refs1: map<nat, nat>, t: nat)
    requires Gone(refs, refs1, sp.frames) && t in sp.tables && Bounded(refs, sp)
    ensures t in refs1
  {
    AmongIsMine(sp, t);
    assert Count(sp, t) <= Total(refs, t);
    assert Total(refs1, t) > 0;
  }

  /** The drop of a `MemorySet`: its frame maps and the frames of its page table. */
  method DropSpace(ram: Ram, ms: MemorySet)
    requires ms.InOrder(ram) && Bounded(ram.Refs(), ms.View(ram))
    modifies ram.Repr
    ensures ram.Valid()
    ensures Dropped(old(ram.Refs()), old(ram.mem), old(ms.View(ram)), ram.Refs(), ram.mem)
  {
    hide Partition, TablesGone, NoDuplicates, Gone, TrackedFrames, AllPages, LayoutOk, SpaceOk, Meaning, TablesOf, Tree, Bounded, Dropped;
    ghost var refs, mem, sp := ram.Refs(), ram.mem, ms.View(ram);
    MineBounded(refs, sp);
    DropAreas(ram, Layout(ms.mapAreas, ms.mmapManager, ms.userStackAreas, ms.heapAreas), refs);
    ghost var refs1 := ram.Refs();
    forall t | t in ms.pageTable.frames
      ensures t in refs1
    {
      TablesLeft(refs, sp, refs1, t);
    }
    GonePositive(refs, refs1, sp.frames);
    DropTables(ram, ms.pageTable.frames);
    SpaceDropped(refs, mem, sp, refs1, ms.pageTable.frames, ram.Refs());
  }

  lemma GonePositive(refs: map<nat, nat>, refs': map<nat, nat>, done: map<nat, nat>)
    requires Gone(refs, refs', done)
    ensures forall f :: f in refs' ==> refs'[f] > 0
  {
  }

  lemma MineBounded(refs: map<nat, nat>, sp: Space)
    requires Bounded(refs, sp)
    ensures forall f :: |Among(sp.frames, f)| <= Total(refs, f)
  {
    forall f
      ensures |Among(sp.frames, f)| <= Total(refs, f)
    {
      AmongIsMine(sp, f);
      assert Count(sp, f) <= Total(refs, f);
    }
  }
}
