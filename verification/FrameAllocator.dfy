/** The reference-counted stack allocator of physical page frames (kernel/src/mm/frame_allocator.rs).

    `StackFrameAllocator` is the object the kernel keeps behind `FRAME_ALLOCATOR`.  `Frames` is the
    value of its five fields; each method is proved against a function on that value, and the
    promises of the allocator are lemmas about those functions. */
module FrameAllocator {
  import opened Options
  import opened Sequences

  /** The fields of the allocator.  Reference counts are bytes in the source. */
  datatype Frames = Frames(base: nat, end: nat, current: nat, recycled: seq<nat>, refs: map<nat, nat>)

  /** The ways `dealloc` can panic. */
  datatype Panic = NoReference | NotAllocated

  datatype DeallocResult = Released(frames: Frames) | Refused(why: Panic)

  const REF_LIMIT: nat := 256

  // ---------------------------------------------------------------- specification

  function AfterAlloc(s: Frames): (Frames, Option<nat>) {
    if s.recycled != [] then
      var ppn := s.recycled[|s.recycled| - 1];
      (s.(recycled := s.recycled[..|s.recycled| - 1], refs := s.refs[ppn := 0]), Some(ppn))
    else if s.current == s.end then
      (s, None)
    else
      (s.(current := s.current + 1, refs := s.refs[s.current := 0]), Some(s.current))
  }

  function AfterAddRef(s: Frames, ppn: nat): Frames
    requires ppn in s.refs
  {
    s.(refs := s.refs[ppn := (s.refs[ppn] + 1) % REF_LIMIT])
  }

  function AfterDealloc(s: Frames, ppn: nat): DeallocResult {
    if ppn !in s.refs || s.refs[ppn] == 0 then Refused(NoReference)
    else if s.refs[ppn] > 1 then Released(s.(refs := s.refs[ppn := s.refs[ppn] - 1]))
    else if ppn >= s.current || ppn in s.recycled then Refused(NotAllocated)
    else Released(s.(refs := s.refs - {ppn}, recycled := s.recycled + [ppn]))
  }

  // ---------------------------------------------------------------- partition

  /** Counted frames and recycled frames are disjoint, recycled ones are listed once, and together
      they are exactly the frames handed out so far. */
  ghost predicate Partition(s: Frames) {
    && s.base <= s.current <= s.end
    && NoDuplicates(s.recycled)
    && (forall f :: s.base <= f < s.current <==> f in s.refs || f in s.recycled)
    && (forall f :: f in s.recycled ==> f !in s.refs)
    && (forall f :: f in s.refs ==> s.refs[f] < REF_LIMIT)
  }

  lemma AllocKeepsPartition(s: Frames)
    requires Partition(s)
    ensures Partition(AfterAlloc(s).0)
    // the frame handed out had no tracker, and it is the only one whose count changed
    ensures AfterAlloc(s).1.Some? ==>
              var f := AfterAlloc(s).1.value;
              f !in s.refs && s.base <= f < s.end && AfterAlloc(s).0.refs == s.refs[f := 0]
    // it fails only when every frame of the range is counted
    ensures AfterAlloc(s).1 == None <==> (forall f :: s.base <= f < s.end ==> f in s.refs)
  {
    if s.recycled != [] {
      var n := |s.recycled| - 1;
      var f := s.recycled[n];
      assert s.recycled == s.recycled[..n] + [f];
      assert f in s.recycled;
      assert forall g :: g in s.recycled <==> g in s.recycled[..n] || g == f;
    } else if s.current < s.end {
      assert s.current !in s.refs;
    }
  }

  lemma DeallocKeepsPartition(s: Frames, ppn: nat)
    requires Partition(s)
    ensures AfterDealloc(s, ppn) != Refused(NotAllocated)
    ensures AfterDealloc(s, ppn).Refused? <==> ppn !in s.refs || s.refs[ppn] == 0
    ensures AfterDealloc(s, ppn).Released? ==> Partition(AfterDealloc(s, ppn).frames)
  {
  }

  // ---------------------------------------------------------------- runs

  /** What the kernel does with trackers: create one for a fresh frame, clone a live one, drop a live one. */
  datatype Op = NewTracker | CloneTracker(ppn: nat) | DropTracker(ppn: nat)

  /** The allocator together with the multiset of live `FrameTracker`s. */
  datatype Run = Run(frames: Frames, live: multiset<nat>)

  ghost predicate Allowed(r: Run, op: Op) {
    match op
    case NewTracker => true
    case CloneTracker(f) => f in r.live
    case DropTracker(f) => f in r.live
  }

  /** One tracker operation; `NewTracker` on exhausted memory leaves everything as it is.  The `else`
      branches keep the function total and are never taken from a counted state. */
  function Perform(r: Run, op: Op): Run {
    match op
    case NewTracker =>
      var (s, got) := AfterAlloc(r.frames);
      if got.Some? && got.value in s.refs then Run(AfterAddRef(s, got.value), r.live + multiset{got.value}) else r
    case CloneTracker(f) =>
      if f in r.frames.refs then Run(AfterAddRef(r.frames, f), r.live + multiset{f}) else r
    case DropTracker(f) =>
      match AfterDealloc(r.frames, f)
      case Released(s) => Run(s, r.live - multiset{f})
      case Refused(_) => r
  }

  /** Every count is the number of live trackers of its frame. */
  ghost predicate Counted(r: Run) {
    && Partition(r.frames)
    && (forall f :: f in r.frames.refs <==> f in r.live)
    && (forall f :: f in r.frames.refs ==> r.frames.refs[f] == r.live[f])
  }

  lemma NewTrackerKeepsCounted(r: Run)
    requires Counted(r)
    ensures Counted(Perform(r, NewTracker))
  {
    AllocKeepsPartition(r.frames);
    var (s, got) := AfterAlloc(r.frames);
    if got.Some? {
      var f := got.value;
      assert f !in r.live;
      assert Perform(r, NewTracker) == Run(AfterAddRef(s, f), r.live + multiset{f});
    }
  }

  lemma DropTrackerKeepsCounted(r: Run, f: nat)
    requires Counted(r) && f in r.live
    ensures AfterDealloc(r.frames, f).Released?
    ensures Counted(Perform(r, DropTracker(f)))
  {
    DeallocKeepsPartition(r.frames, f);
    var s := AfterDealloc(r.frames, f).frames;
    assert Perform(r, DropTracker(f)) == Run(s, r.live - multiset{f});
  }

  lemma PerformKeepsCounted(r: Run, op: Op)
    requires Counted(r) && Allowed(r, op)
    requires op.CloneTracker? ==> r.live[op.ppn] < 255
    ensures Counted(Perform(r, op))
    ensures op.DropTracker? ==> AfterDealloc(r.frames, op.ppn).Released?
  {
    match op
    case NewTracker => NewTrackerKeepsCounted(r);
    case CloneTracker(f) => assert f in r.frames.refs;
    case DropTracker(f) => DropTrackerKeepsCounted(r, f);
  }

  /** The count is a byte: cloning keeps it exact if and only if fewer than 255 trackers are live. */
  lemma CloneExactIff(r: Run, f: nat)
    requires Counted(r) && f in r.live
    ensures Counted(Perform(r, CloneTracker(f))) <==> r.live[f] < 255
  {
    if r.live[f] < 255 {
      PerformKeepsCounted(r, CloneTracker(f));
    } else {
      var r' := Perform(r, CloneTracker(f));
      assert r.frames.refs[f] == 255;
      assert r'.frames.refs[f] == 0 && f in r'.live;
    }
  }

  function PerformAll(r: Run, ops: seq<Op>): Run
    decreases |ops|
  {
    if ops == [] then r else PerformAll(Perform(r, ops[0]), ops[1..])
  }

  /** Each operation names a live tracker when its turn comes, and no frame ever has 256 trackers. */
  ghost predicate AllAllowed(r: Run, ops: seq<Op>)
    decreases |ops|
  {
    ops == [] ||
    (Allowed(r, ops[0]) &&
     (ops[0].CloneTracker? ==> r.live[ops[0].ppn] < 255) &&
     AllAllowed(Perform(r, ops[0]), ops[1..]))
  }

  lemma {:induction false} RunsKeepCounted(r: Run, ops: seq<Op>)
    requires Counted(r) && AllAllowed(r, ops)
    ensures Counted(PerformAll(r, ops))
    decreases |ops|
  {
    if ops != [] {
      PerformKeepsCounted(r, ops[0]);
      RunsKeepCounted(Perform(r, ops[0]), ops[1..]);
    }
  }

  /** The allocator right after `init`. */
  lemma InitialCounted(l: nat, e: nat)
    requires l <= e
    ensures Counted(Run(Frames(l, e, l, [], map[]), multiset{}))
  {
  }

  // ---------------------------------------------------------------- the object

  class StackFrameAllocator {
    var baseNum: nat
    var end: nat
    var current: nat
    var recycled: seq<nat>
    var refcounter: map<nat, nat>

    ghost function View(): Frames
      reads this
    {
      Frames(baseNum, end, current, recycled, refcounter)
    }

    ghost predicate Valid()
      reads this
    {
      Partition(View())
    }

    constructor ()
      ensures View() == Frames(0, 0, 0, [], map[])
      ensures Valid()
    {
      baseNum, current, end := 0, 0, 0;
      recycled, refcounter := [], map[];
    }

    method Init(l: nat, r: nat)
      requires l <= r && View() == Frames(0, 0, 0, [], map[])
      modifies this
      ensures View() == Frames(l, r, l, [], map[])
      ensures Valid()
    {
      current := l;
      end := r;
      baseNum := l;
    }

    method Alloc() returns (got: Option<nat>)
      requires Valid()
      modifies this
      ensures Valid()
      ensures (View(), got) == AfterAlloc(old(View()))
    {
      AllocKeepsPartition(View());
      if |recycled| > 0 {
        var ppn := recycled[|recycled| - 1];
        recycled := recycled[..|recycled| - 1];
        refcounter := refcounter[ppn := 0];
        got := Some(ppn);
      } else if current == end {
        got := None;
      } else {
        current := current + 1;
        refcounter := refcounter[current - 1 := 0];
        got := Some(current - 1);
      }
    }

    method Dealloc(ppn: nat) returns (panic: Option<Panic>)
      requires Valid()
      modifies this
      ensures Valid()
      ensures panic != Some(NotAllocated)
      ensures panic == None <==> ppn in old(refcounter) && old(refcounter[ppn]) > 0
      ensures panic == None ==> AfterDealloc(old(View()), ppn) == Released(View())
      ensures panic != None ==> View() == old(View())
    {
      DeallocKeepsPartition(View(), ppn);
      panic := None;
      if ppn !in refcounter {
        return Some(NoReference);
      }
      var refTimes := refcounter[ppn];
      if !(refTimes > 0) {
        return Some(NoReference);
      }
      refcounter := refcounter[ppn := refTimes - 1];
      if refTimes - 1 == 0 {
        refcounter := refcounter - {ppn};
        if ppn >= current || ppn in recycled {
          return Some(NotAllocated);
        }
        recycled := recycled + [ppn];
      }
    }

    method AddRef(ppn: nat)
      requires Valid() && ppn in refcounter
      modifies this
      ensures Valid()
      ensures View() == AfterAddRef(old(View()), ppn)
    {
      refcounter := refcounter[ppn := (refcounter[ppn] + 1) % REF_LIMIT];
    }

    method EnquireRef(ppn: nat) returns (n: nat)
      requires Valid() && ppn in refcounter
      ensures n == refcounter[ppn]
    {
      n := refcounter[ppn];
    }
  }
}
