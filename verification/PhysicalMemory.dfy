/** Physical memory and the life cycle of frame trackers (`FrameTracker` new, clone and drop,
    kernel/src/mm/frame_allocator.rs).

    A tracker is a value holding a frame number; the Rust destructor becomes an explicit `Drop` where
    the tracker dies.  A kernel panic is the outcome `Panicked`, after which nothing runs. */
module PhysicalMemory {
  import opened Options
  import opened FrameAllocator
  import opened Sv39

  /** Whether the kernel goes on, or has panicked for want of a free frame. */
  datatype Outcome = Running | Panicked {
    predicate IsFailure() { Panicked? }
    function PropagateFailure(): Outcome requires Panicked? { Panicked }
  }

  class Ram {
    const allocator: StackFrameAllocator
    /** The bytes of every frame the allocator manages. */
    var mem: Memory

    ghost const Repr: set<object>

    ghost predicate Valid()
      reads this, allocator
    {
      && Repr == {this, allocator}
      && allocator.Valid()
      && allocator.end <= PPN_LIMIT
      && (forall f :: f in mem <==> allocator.baseNum <= f < allocator.end)
    }

    ghost function Refs(): map<nat, nat>
      reads allocator
    {
      allocator.refcounter
    }

    /** Every frame of the machine has a tracker. */
    ghost predicate Exhausted()
      reads this, allocator
    {
      forall f :: f in mem ==> f in allocator.refcounter
    }

    constructor (allocator: StackFrameAllocator, mem: Memory)
      requires allocator.Valid() && allocator.end <= PPN_LIMIT
      requires forall f :: f in mem <==> allocator.baseNum <= f < allocator.end
      ensures Valid() && this.allocator == allocator && this.mem == mem && fresh(this)
    {
      this.allocator := allocator;
      this.mem := mem;
      Repr := {this, allocator};
    }

    /** `alloc_frame`: a zeroed frame with one tracker. */
    method AllocFrame() returns (got: Option<nat>)
      requires Valid()
      modifies Repr
      ensures Valid() && mem.Keys == old(mem.Keys)
      ensures got == None ==> Exhausted() && Refs() == old(Refs()) && mem == old(mem)
      ensures got.Some? ==>
                && got.value in mem && got.value < PPN_LIMIT && got.value !in old(Refs())
                && Refs() == old(Refs())[got.value := 1]
                && mem == old(mem)[got.value := ZeroPage()]
    {
      ghost var before := allocator.View();
      AllocKeepsPartition(before);
      got := allocator.Alloc();
      if got.Some? {
        mem := mem[got.value := ZeroPage()];
        allocator.AddRef(got.value);
        assert Refs() == old(Refs())[got.value := 1];
      }
    }

    /** `FrameTracker::clone`, that is `from_ppn`. */
    method CloneTracker(f: nat)
      requires Valid() && f in Refs()
      modifies Repr
      ensures Valid() && mem == old(mem)
      ensures Refs() == old(Refs())[f := (old(Refs()[f]) + 1) % 256]
    {
      allocator.AddRef(f);
    }

    /** `FrameTracker::drop`. */
    method DropTracker(f: nat)
      requires Valid() && f in Refs() && Refs()[f] > 0
      modifies Repr
      ensures Valid() && mem == old(mem)
      ensures Refs() == if old(Refs()[f]) > 1 then old(Refs())[f := old(Refs()[f]) - 1] else old(Refs()) - {f}
    {
      var panic := allocator.Dealloc(f);
    }

    /** A store of one page of bytes. */
    method WritePage(f: nat, page: Page)
      requires Valid() && f in mem
      modifies this
      ensures Valid() && mem == old(mem)[f := page]
    {
      mem := mem[f := page];
    }
  }
}
