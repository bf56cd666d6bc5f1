/** User memory seen from the kernel: ranges of virtual addresses as slices of frames, and the buffers made of
    them (kernel/src/mm/mod.rs and kernel/src/mm/user_buffer.rs). */
module UserBuffers {
  import opened LittleEndian
  import opened Options
  import opened Sv39
  import opened FrameAllocator
  import opened PhysicalMemory
  import opened PageTables

  /** Bytes `from` up to `to` of a frame. */
  datatype Slice = Slice(frame: nat, from: nat, to: nat)

  ghost predicate SliceOk(mem: Memory, s: Slice) {
    s.frame in mem && s.from < s.to <= PAGE_SIZE
  }

  /** The slices are parts of frames, none is empty, and no byte is in two of them. */
  ghost predicate SlicesOk(mem: Memory, ss: seq<Slice>) {
    && (forall i :: 0 <= i < |ss| ==> SliceOk(mem, ss[i]))
    && (forall i, j :: 0 <= i < j < |ss| && ss[i].frame == ss[j].frame ==> ss[i].to <= ss[j].from || ss[j].to <= ss[i].from)
  }

  ghost function Piece(mem: Memory, s: Slice): seq<Byte>
    requires SliceOk(mem, s)
  {
    mem[s.frame][s.from..s.to]
  }

  /** The bytes of the slices, one after the other. */
  ghost function Gather(mem: Memory, ss: seq<Slice>): seq<Byte>
    requires forall i :: 0 <= i < |ss| ==> SliceOk(mem, ss[i])
    decreases |ss|
  {
    if ss == [] then [] else Gather(mem, ss[..|ss| - 1]) + Piece(mem, ss[|ss| - 1])
  }

  /** How many bytes the first `j` slices have. */
  ghost function Start(ss: seq<Slice>, j: nat): nat
    requires j <= |ss| && forall i :: 0 <= i < |ss| ==> ss[i].from < ss[i].to
  {
    if j == 0 then 0 else Start(ss, j - 1) + (ss[j - 1].to - ss[j - 1].from)
  }

  lemma {:induction false} StartMonotone(ss: seq<Slice>, i: nat, j: nat)
    requires i <= j <= |ss| && forall k :: 0 <= k < |ss| ==> ss[k].from < ss[k].to
    ensures Start(ss, i) <= Start(ss, j) && (i < j ==> Start(ss, i) + (ss[i].to - ss[i].from) <= Start(ss, j))
  {
    if i < j {
      StartMonotone(ss, i, j - 1);
    }
  }

  lemma {:induction false} StartPrefix(ss: seq<Slice>, n: nat, j: nat)
    requires j <= n <= |ss| && forall k :: 0 <= k < |ss| ==> ss[k].from < ss[k].to
    ensures Start(ss[..n], j) == Start(ss, j)
  {
    if j > 0 {
      StartPrefix(ss, n, j - 1);
    }
  }

  /** Where the bytes of slice `j` are in the whole. */
  lemma {:induction false} GatherAt(mem: Memory, ss: seq<Slice>, j: nat, i: nat)
    requires forall k :: 0 <= k < |ss| ==> SliceOk(mem, ss[k])
    requires j < |ss| && i < ss[j].to - ss[j].from
    ensures |Gather(mem, ss)| == Start(ss, |ss|) && Start(ss, j) + i < |Gather(mem, ss)|
    ensures Gather(mem, ss)[Start(ss, j) + i] == mem[ss[j].frame][ss[j].from + i]
    decreases |ss|
  {
    var init := ss[..|ss| - 1];
    GatherLength(mem, init);
    StartPrefix(ss, |init|, |init|);
    StartMonotone(ss, j, |ss| - 1);
    if j < |init| {
      GatherAt(mem, init, j, i);
      StartPrefix(ss, |init|, j);
      StartMonotone(ss, j, |init|);
    }
  }

  lemma {:induction false} GatherLength(mem: Memory, ss: seq<Slice>)
    requires forall k :: 0 <= k < |ss| ==> SliceOk(mem, ss[k])
    ensures |Gather(mem, ss)| == Start(ss, |ss|)
    decreases |ss|
  {
    if ss != [] {
      GatherLength(mem, ss[..|ss| - 1]);
      StartPrefix(ss, |ss| - 1, |ss| - 1);
    }
  }

  /** Every position of the whole lies in one slice. */
  lemma {:induction false} SliceOf(ss: seq<Slice>, k: nat) returns (j: nat, i: nat)
    requires forall l :: 0 <= l < |ss| ==> ss[l].from < ss[l].to
    requires k < Start(ss, |ss|)
    ensures j < |ss| && i < ss[j].to - ss[j].from && k == Start(ss, j) + i
    decreases |ss|
  {
    var n := |ss| - 1;
    StartPrefix(ss, n, n);
    if k >= Start(ss, n) {
      return n, k - Start(ss, n);
    }
    j, i := SliceOf(ss[..n], k);
    StartPrefix(ss, n, j);
  }

  /** Storing a byte through slice `j` changes that byte of the whole. */
  lemma GatherStore(mem: Memory, ss: seq<Slice>, j: nat, i: nat, b: Byte)
    requires SlicesOk(mem, ss) && j < |ss| && i < ss[j].to - ss[j].from
    ensures var f := ss[j].frame;
            var mem' := mem[f := mem[f][ss[j].from + i := b]];
            && SlicesOk(mem', ss)
            && Start(ss, j) + i < |Gather(mem, ss)|
            && Gather(mem', ss) == Gather(mem, ss)[Start(ss, j) + i := b]
  {
    var f := ss[j].frame;
    var mem' := mem[f := mem[f][ss[j].from + i := b]];
    GatherAt(mem, ss, j, i);
    GatherLength(mem, ss);
    GatherLength(mem', ss);
    var g, g' := Gather(mem, ss), Gather(mem', ss);
    forall k | 0 <= k < |g|
      ensures g'[k] == if k == Start(ss, j) + i then b else g[k]
    {
      var j', i' := SliceOf(ss, k);
      GatherAt(mem, ss, j', i');
      GatherAt(mem', ss, j', i');
      if j' < j {
        StartMonotone(ss, j', j);
      } else if j < j' {
        StartMonotone(ss, j, j');
      }
    }
    assert g' == g[Start(ss, j) + i := b];
  }

  function Min(a: nat, b: nat): nat {
    if a < b then a else b
  }

  /** `before` with `part` in place of the bytes from `at` on. */
  function Patched(before: seq<Byte>, at: nat, part: seq<Byte>): (r: seq<Byte>)
    requires at + |part| <= |before|
    ensures |r| == |before|
  {
    before[..at] + part + before[at + |part|..]
  }

  lemma PatchMore(before: seq<Byte>, at: nat, part: seq<Byte>, b: Byte)
    requires at + |part| < |before|
    ensures Patched(before, at, part)[at + |part| := b] == Patched(before, at, part + [b])
  {
  }

  ghost predicate InSlices(ss: seq<Slice>, f: nat, o: nat) {
    exists j :: 0 <= j < |ss| && ss[j].frame == f && ss[j].from <= o < ss[j].to
  }

  /** No byte outside the slices differs between the two memories. */
  ghost predicate OnlyWithin(mem: Memory, mem': Memory, ss: seq<Slice>) {
    && mem'.Keys == mem.Keys
    && forall f, o: nat :: f in mem && o < PAGE_SIZE && !InSlices(ss, f, o) ==> mem'[f][o] == mem[f][o]
  }

  lemma FilledWithin(mem0: Memory, mem: Memory, ss: seq<Slice>, j: nat, at: nat, part: seq<Byte>)
    requires OnlyWithin(mem0, mem, ss) && j < |ss| && SliceOk(mem, ss[j])
    requires ss[j].from <= at && at + |part| <= ss[j].to
    ensures OnlyWithin(mem0, mem[ss[j].frame := Patched(mem[ss[j].frame], at, part)], ss)
  {
    var f := ss[j].frame;
    var mem' := mem[f := Patched(mem[f], at, part)];
    forall o: nat | o < PAGE_SIZE && !InSlices(ss, f, o)
      ensures mem'[f][o] == mem[f][o]
    {
      assert !(ss[j].from <= o < ss[j].to);
    }
  }

  lemma StoredWithin(mem0: Memory, mem: Memory, ss: seq<Slice>, j: nat, i: nat, b: Byte)
    requires OnlyWithin(mem0, mem, ss) && j < |ss| && SliceOk(mem, ss[j]) && ss[j].from + i < ss[j].to
    ensures OnlyWithin(mem0, mem[ss[j].frame := mem[ss[j].frame][ss[j].from + i := b]], ss)
  {
    var f := ss[j].frame;
    FilledWithin(mem0, mem, ss, j, ss[j].from + i, [b]);
    assert mem[f][ss[j].from + i := b] == Patched(mem[f], ss[j].from + i, [b]);
  }

  lemma NothingOutside(mem: Memory, ss: seq<Slice>)
    ensures OnlyWithin(mem, mem, ss)
  {
  }

  lemma WithinTwice(mem: Memory, mem': Memory, mem'': Memory, ss: seq<Slice>)
    requires OnlyWithin(mem, mem', ss) && OnlyWithin(mem', mem'', ss)
    ensures OnlyWithin(mem, mem'', ss)
  {
  }

  class UserBuffer {
    const ram: Ram
    const buffers: seq<Slice>

    constructor (ram: Ram, buffers: seq<Slice>)
      ensures this.ram == ram && this.buffers == buffers
    {
      this.ram, this.buffers := ram, buffers;
    }

    ghost predicate Valid()
      reads this, ram, ram.allocator
    {
      ram.Valid() && SlicesOk(ram.mem, buffers)
    }

    ghost function Contents(): seq<Byte>
      requires Valid()
      reads this, ram, ram.allocator
    {
      Gather(ram.mem, buffers)
    }

    method Len() returns (total: nat)
      requires Valid()
      ensures total == |Contents()|
    {
      GatherLength(ram.mem, buffers);
      total := 0;
      var i := 0;
      while i < |buffers|
        invariant 0 <= i <= |buffers| && total == Start(buffers, i)
      {
        total := total + (buffers[i].to - buffers[i].from);
        i := i + 1;
      }
    }

    /** The byte at index `j` of one slice. */
    method Put(i: nat, j: nat, b: Byte)
      requires Valid() && i < |buffers| && j < buffers[i].to - buffers[i].from
      modifies ram
      ensures Valid() && Start(buffers, i) + j < |old(Contents())|
      ensures Contents() == old(Contents())[Start(buffers, i) + j := b]
      ensures OnlyWithin(old(ram.mem), ram.mem, buffers)
    {
      NothingOutside(ram.mem, buffers);
      StoredWithin(ram.mem, ram.mem, buffers, i, j, b);
      GatherStore(ram.mem, buffers, i, j, b);
      var f := buffers[i].frame;
      ram.WritePage(f, ram.mem[f][buffers[i].from + j := b]);
    }

    /** `write`: as much of `buff` as there is room for, from the front.  An empty `buff` panics unless there is
        no room at all: the first byte is fetched before the count is looked at. */
    method Write(buff: seq<Byte>) returns (r: Option<nat>)
      requires Valid()
      modifies ram
      ensures Valid()
      ensures r == None <==> buff == [] && old(Contents()) != []
      ensures r.Some? ==> r.value == Min(|old(Contents())|, |buff|) && Contents() == Patched(old(Contents()), 0, buff[..r.value])
      ensures OnlyWithin(old(ram.mem), ram.mem, buffers)
    {
      hide Gather, Patched, Partition, SlicesOk, OnlyWithin;
      ghost var before, mem0 := Contents(), ram.mem;
      NothingOutside(mem0, buffers);
      TotalLength(ram.mem, buffers);
      var total := Len();
      var len := Min(total, |buff|);
      var current := 0;
      NothingPatched(before, buff);
      var i := 0;
      while i < |buffers|
        invariant 0 <= i <= |buffers| && current == Start(buffers, i) && (current < len || current == 0)
        invariant OnlyWithin(mem0, ram.mem, buffers)
            invariant Valid() && current <= |buff| && current <= |before| && Contents() == Patched(before, 0, buff[..current])
      {
        StartMonotone(buffers, i, |buffers|);
        var j := 0;
        while j < buffers[i].to - buffers[i].from
          invariant 0 <= j <= buffers[i].to - buffers[i].from
          invariant current == Start(buffers, i) + j && (current < len || current == 0)
          invariant OnlyWithin(mem0, ram.mem, buffers)
            invariant Valid() && current <= |buff| && current <= |before| && Contents() == Patched(before, 0, buff[..current])
        {
          if current >= |buff| {
            return None;
          }
          PatchMore(before, 0, buff[..current], buff[current]);
          assert buff[..current] + [buff[current]] == buff[..current + 1];
          ghost var mem := ram.mem;
          Put(i, j, buff[current]);
          WithinTwice(mem0, mem, ram.mem, buffers);
          current := current + 1;
          if current == len {
            return Some(len);
          }
          j := j + 1;
        }
        i := i + 1;
      }
      return Some(len);
    }

    /** `write_at`: all of `buff`, from `offset` on.  It panics if that does not fit, and also, as `write` does,
        for an empty `buff` with bytes behind the offset. */
    method WriteAt(offset: nat, buff: seq<Byte>) returns (r: Option<nat>)
      requires Valid()
      modifies ram
      ensures Valid()
      ensures r == None <==> offset + |buff| > |old(Contents())| || (buff == [] && offset < |old(Contents())|)
      ensures r.Some? ==> r.value == |buff| && Contents() == Patched(old(Contents()), offset, buff)
      ensures OnlyWithin(old(ram.mem), ram.mem, buffers)
    {
      hide Gather, Patched, Partition, SlicesOk, OnlyWithin;
      ghost var before, mem0 := Contents(), ram.mem;
      NothingOutside(mem0, buffers);
      TotalLength(ram.mem, buffers);
      var total := Len();
      var len := |buff|;
      if offset + len > total {
        return None;
      }
      var head, current := 0, 0;
      PatchedEmpty(before, offset, buff);
      var i := 0;
      while i < |buffers|
        invariant 0 <= i <= |buffers| && head == Start(buffers, i)
        invariant current == (if head <= offset then 0 else head - offset) && (current < len || current == 0)
        invariant current > 0 || head <= offset
        invariant OnlyWithin(mem0, ram.mem, buffers)
            invariant Valid() && current <= len && Contents() == Patched(before, offset, buff[..current])
      {
        StartMonotone(buffers, i, |buffers|);
        var sblen := buffers[i].to - buffers[i].from;
        if head + sblen < offset {
          head := head + sblen;
          i := i + 1;
          continue;
        }
        var j := if head < offset then offset - head else 0;
        while j < sblen
          invariant 0 <= j <= sblen && (head < offset ==> offset - head <= j)
          invariant head + j >= offset && current == head + j - offset && (current < len || current == 0)
          invariant OnlyWithin(mem0, ram.mem, buffers)
            invariant Valid() && current <= len && Contents() == Patched(before, offset, buff[..current])
        {
          if current >= |buff| {
            return None;
          }
          PatchMore(before, offset, buff[..current], buff[current]);
          assert buff[..current] + [buff[current]] == buff[..current + 1];
          ghost var mem := ram.mem;
          Put(i, j, buff[current]);
          WithinTwice(mem0, mem, ram.mem, buffers);
          current := current + 1;
          if current == len {
            assert buff[..len] == buff;
            return Some(len);
          }
          j := j + 1;
        }
        head := head + sblen;
        i := i + 1;
      }
      return Some(0);
    }

    /** `read`: as much as fits into the array, from the front; the same panic for an empty one. */
    method Read(buf: array<Byte>) returns (r: Option<nat>)
      requires Valid()
      modifies buf
      ensures Valid() && Contents() == old(Contents())
      ensures r == None <==> buf.Length == 0 && Contents() != []
      ensures r.Some? ==> r.value == Min(|Contents()|, buf.Length) && buf[..] == Patched(old(buf[..]), 0, Contents()[..r.value])
    {
      hide Gather, Patched, Partition, SlicesOk;
      ghost var all, before := Contents(), buf[..];
      TotalLength(ram.mem, buffers);
      var total := Len();
      var len := Min(total, buf.Length);
      var current := 0;
      NothingPatched(before, all);
      var i := 0;
      while i < |buffers|
        invariant 0 <= i <= |buffers| && current == Start(buffers, i) && (current < len || current == 0)
        invariant Valid() && Contents() == all && current <= buf.Length && current <= |all|
        invariant buf[..] == Patched(before, 0, all[..current])
      {
        StartMonotone(buffers, i, |buffers|);
        var j := 0;
        while j < buffers[i].to - buffers[i].from
          invariant 0 <= j <= buffers[i].to - buffers[i].from
          invariant current == Start(buffers, i) + j && (current < len || current == 0)
          invariant Valid() && Contents() == all && current <= buf.Length && current <= |all|
          invariant buf[..] == Patched(before, 0, all[..current])
        {
          if current >= buf.Length {
            return None;
          }
          ByteOf(ram.mem, buffers, i, j);
          PatchMore(before, 0, all[..current], all[current]);
          assert all[..current] + [all[current]] == all[..current + 1];
          ghost var s := buf[..];
          buf[current] := ram.mem[buffers[i].frame][buffers[i].from + j];
          assert buf[..] == s[current := all[current]];
          current := current + 1;
          if current == len {
            return Some(len);
          }
          j := j + 1;
        }
        i := i + 1;
      }
      return Some(len);
    }
  }

  lemma TotalLength(mem: Memory, ss: seq<Slice>)
    requires SlicesOk(mem, ss)
    ensures forall i :: 0 <= i < |ss| ==> SliceOk(mem, ss[i]) && ss[i].from < ss[i].to
    ensures |Gather(mem, ss)| == Start(ss, |ss|)
  {
    GatherLength(mem, ss);
  }

  lemma ByteOf(mem: Memory, ss: seq<Slice>, j: nat, i: nat)
    requires SlicesOk(mem, ss) && j < |ss| && ss[j].from + i < ss[j].to
    requires forall k :: 0 <= k < |ss| ==> SliceOk(mem, ss[k]) && ss[k].from < ss[k].to
    ensures ss[j].frame in mem && ss[j].to <= PAGE_SIZE
    ensures Start(ss, j) + i < |Gather(mem, ss)| && Gather(mem, ss)[Start(ss, j) + i] == mem[ss[j].frame][ss[j].from + i]
  {
    assert SliceOk(mem, ss[j]);
    GatherAt(mem, ss, j, i);
  }

  lemma NothingPatched(before: seq<Byte>, buff: seq<Byte>)
    ensures Patched(before, 0, buff[..0]) == before
  {
  }

  lemma PatchedEmpty(before: seq<Byte>, at: nat, buff: seq<Byte>)
    requires at <= |before|
    ensures Patched(before, at, buff[..0]) == before
  {
  }

  /** The frame and the offset there of byte `k` of the whole. */
  ghost function PlaceAt(ss: seq<Slice>, k: nat): (nat, nat)
    requires forall l :: 0 <= l < |ss| ==> ss[l].from < ss[l].to
    requires k < Start(ss, |ss|)
    decreases |ss|
  {
    var n := |ss| - 1;
    StartPrefix(ss, n, n);
    if k >= Start(ss, n) then (ss[n].frame, ss[n].from + (k - Start(ss, n))) else PlaceAt(ss[..n], k)
  }

  lemma {:induction false} PlaceIn(ss: seq<Slice>, j: nat, i: nat)
    requires forall l :: 0 <= l < |ss| ==> ss[l].from < ss[l].to
    requires j < |ss| && i < ss[j].to - ss[j].from
    ensures Start(ss, j) + i < Start(ss, |ss|) && PlaceAt(ss, Start(ss, j) + i) == (ss[j].frame, ss[j].from + i)
    decreases |ss|
  {
    var n := |ss| - 1;
    StartMonotone(ss, j, |ss|);
    StartPrefix(ss, n, n);
    if j < n {
      StartMonotone(ss, j, n);
      StartPrefix(ss, n, j);
      PlaceIn(ss[..n], j, i);
    }
  }

  /** Reading at the place of byte `k` reads byte `k`. */
  lemma PlaceReads(mem: Memory, ss: seq<Slice>, k: nat)
    requires forall l :: 0 <= l < |ss| ==> SliceOk(mem, ss[l])
    requires forall l :: 0 <= l < |ss| ==> ss[l].from < ss[l].to
    requires k < Start(ss, |ss|)
    ensures var (f, o) := PlaceAt(ss, k);
            k < |Gather(mem, ss)| && f in mem && o < PAGE_SIZE && Gather(mem, ss)[k] == mem[f][o]
  {
    var j, i := SliceOf(ss, k);
    PlaceIn(ss, j, i);
    assert SliceOk(mem, ss[j]);
    GatherAt(mem, ss, j, i);
  }

  /** Yields the places of the bytes of a buffer one after the other. */
  class UserBufferIterator {
    const buffers: seq<Slice>
    var currentBuffer: nat
    var currentIdx: nat

    ghost predicate Valid()
      reads this
    {
      && (forall i :: 0 <= i < |buffers| ==> buffers[i].from < buffers[i].to)
      && currentBuffer <= |buffers|
      && (if currentBuffer == |buffers| then currentIdx == 0 else currentIdx < buffers[currentBuffer].to - buffers[currentBuffer].from)
    }

    /** How many places were yielded. */
    ghost function Position(): nat
      requires Valid()
      reads this
    {
      Start(buffers, currentBuffer) + currentIdx
    }

    constructor (buffers: seq<Slice>)
      requires forall i :: 0 <= i < |buffers| ==> buffers[i].from < buffers[i].to
      ensures Valid() && this.buffers == buffers && Position() == 0
    {
      this.buffers := buffers;
      currentBuffer, currentIdx := 0, 0;
    }

    /** The place of the next byte: its frame and its offset there. */
    method Next() returns (r: Option<(nat, nat)>)
      requires Valid()
      modifies this
      ensures Valid()
      ensures r == None <==> old(Position()) == Start(buffers, |buffers|)
      ensures r == None ==> Position() == old(Position())
      ensures r.Some? ==> Position() == old(Position()) + 1
      ensures r.Some? ==> old(Position()) < Start(buffers, |buffers|) && r.value == PlaceAt(buffers, old(Position()))
    {
      StartMonotone(buffers, currentBuffer, |buffers|);
      if currentBuffer >= |buffers| {
        return None;
      }
      ghost var j, i := currentBuffer, currentIdx;
      r := Some((buffers[currentBuffer].frame, buffers[currentBuffer].from + currentIdx));
      if currentIdx + 1 == buffers[currentBuffer].to - buffers[currentBuffer].from {
        currentIdx := 0;
        currentBuffer := currentBuffer + 1;
      } else {
        currentIdx := currentIdx + 1;
      }
      PlaceIn(buffers, j, i);
    }
  }

  // ---------------------------------------------------------------- ranges of virtual addresses

  /** The pages of the range are mapped to frames of the machine. */
  ghost predicate RangeMapped(mem: Memory, m: map<nat, Pte>, start: nat, len: nat) {
    forall va: nat :: start <= va < start + len ==> va / PAGE_SIZE in m && m[va / PAGE_SIZE].ppn in mem
  }

  /** The byte at a virtual address. */
  ghost function VaByte(mem: Memory, m: map<nat, Pte>, va: nat): Byte {
    if va / PAGE_SIZE in m && m[va / PAGE_SIZE].ppn in mem then mem[m[va / PAGE_SIZE].ppn][va % PAGE_SIZE] else 0
  }

  /** No frame is mapped at two pages of the range. */
  ghost predicate MappedOnce(m: map<nat, Pte>, start: nat, len: nat) {
    forall u, v :: start / PAGE_SIZE <= u < v && v * PAGE_SIZE < start + len && u in m && v in m ==> m[u].ppn != m[v].ppn
  }

  /** Slice number `i` of a range lies in the frame of its page, at the offset of its first address. */
  ghost predicate PageSlice(m: map<nat, Pte>, start: nat, v: seq<Slice>, i: nat)
    requires i < |v| && forall k :: 0 <= k < |v| ==> v[k].from < v[k].to
  {
    var va := start + Start(v, i);
    && va / PAGE_SIZE == start / PAGE_SIZE + i && va / PAGE_SIZE in m
    && v[i].frame == m[va / PAGE_SIZE].ppn && v[i].from == va % PAGE_SIZE
  }

  /** The slices are those of the addresses from `start` up to `now`, page by page. */
  ghost predicate Sliced(mem: Memory, m: map<nat, Pte>, start: nat, now: nat, v: seq<Slice>) {
    && (forall i :: 0 <= i < |v| ==> SliceOk(mem, v[i]) && v[i].from < v[i].to)
    && (forall i :: 0 <= i < |v| ==> PageSlice(m, start, v, i))
    && start + Start(v, |v|) == now
  }

  /** Put together, the slices are the bytes at the addresses. */
  lemma SlicedReads(mem: Memory, m: map<nat, Pte>, start: nat, now: nat, v: seq<Slice>)
    requires Sliced(mem, m, start, now, v)
    ensures |Gather(mem, v)| == now - start
    ensures forall k :: 0 <= k < now - start ==> Gather(mem, v)[k] == VaByte(mem, m, start + k)
  {
    GatherLength(mem, v);
    forall k | 0 <= k < now - start
      ensures Gather(mem, v)[k] == VaByte(mem, m, start + k)
    {
      var j, i := SliceOf(v, k);
      GatherAt(mem, v, j, i);
      assert PageSlice(m, start, v, j) && SliceOk(mem, v[j]);
      SamePage(start + Start(v, j), i);
    }
  }

  lemma SliceMore(mem: Memory, m: map<nat, Pte>, start: nat, now: nat, v: seq<Slice>, s: Slice, next: nat)
    requires start <= now < next && Sliced(mem, m, start, now, v)
    requires |v| == now / PAGE_SIZE - start / PAGE_SIZE && now / PAGE_SIZE in m && m[now / PAGE_SIZE].ppn in mem
    requires s == Slice(m[now / PAGE_SIZE].ppn, now % PAGE_SIZE, now % PAGE_SIZE + (next - now)) && s.to <= PAGE_SIZE
    ensures Sliced(mem, m, start, next, v + [s])
  {
    var v' := v + [s];
    assert v'[..|v|] == v;
    forall i | 0 <= i < |v'|
      ensures SliceOk(mem, v'[i]) && v'[i].from < v'[i].to
    {
      assert v'[i] == if i < |v| then v[i] else s;
    }
    forall i | 0 <= i <= |v|
      ensures Start(v', i) == Start(v, i)
    {
      StartPrefix(v', |v|, i);
    }
    forall i | 0 <= i < |v'|
      ensures PageSlice(m, start, v', i)
    {
      if i < |v| {
        assert PageSlice(m, start, v, i) && v'[i] == v[i];
      }
    }
  }

  lemma SamePage(va: nat, i: nat)
    requires va % PAGE_SIZE + i < PAGE_SIZE
    ensures (va + i) / PAGE_SIZE == va / PAGE_SIZE && (va + i) % PAGE_SIZE == va % PAGE_SIZE + i
  {
    assert va == va / PAGE_SIZE * PAGE_SIZE + va % PAGE_SIZE;
  }

  lemma PageEnd(va: nat, end: nat)
    requires va < end
    ensures var next := Min((va / PAGE_SIZE + 1) * PAGE_SIZE, end);
            && va < next <= end && va % PAGE_SIZE + (next - va) <= PAGE_SIZE
            && (if next % PAGE_SIZE == 0 then va % PAGE_SIZE + (next - va) == PAGE_SIZE && next / PAGE_SIZE == va / PAGE_SIZE + 1
                else va % PAGE_SIZE + (next - va) == next % PAGE_SIZE && next == end)
  {
    assert va == va / PAGE_SIZE * PAGE_SIZE + va % PAGE_SIZE;
    var next := Min((va / PAGE_SIZE + 1) * PAGE_SIZE, end);
    if next % PAGE_SIZE != 0 {
      SamePage(va, next - va);
    } else if next == end {
      assert next == next / PAGE_SIZE * PAGE_SIZE;
    }
  }

  /** `translated_bytes_buffer` over mapped pages. */
  method TranslatedBytesBuffer(pt: PageTable, ram: Ram, ptr: nat, len: nat) returns (v: seq<Slice>)
    requires pt.Valid(ram) && RangeMapped(ram.mem, pt.Bindings(ram), ptr, len)
    ensures Sliced(ram.mem, pt.Bindings(ram), ptr, ptr + len, v)
    ensures MappedOnce(pt.Bindings(ram), ptr, len) ==> SlicesOk(ram.mem, v)
    ensures len > 0 ==> v != []
  {
    hide Partition, Tree, Meaning, TablesOf, Sliced;
    ghost var m := pt.Bindings(ram);
    pt.BindingsBound(ram);
    NothingSliced(ram.mem, m, ptr);
    var start, end := ptr, ptr + len;
    v := [];
    while start < end
      invariant ptr <= start <= end && Sliced(ram.mem, m, ptr, start, v)
      invariant start < end ==> |v| == start / PAGE_SIZE - ptr / PAGE_SIZE
      invariant start > ptr ==> v != []
    {
      PageEnd(start, end);
      assert start / PAGE_SIZE in m && m[start / PAGE_SIZE].ppn in ram.mem;
      PageInRange(start, end);
      var vpn := start / PAGE_SIZE;
      var pte := pt.Translate(ram, vpn);
      var inPageEnd := Min((vpn + 1) * PAGE_SIZE, end);
      ghost var s := Slice(pte.value.ppn, start % PAGE_SIZE, start % PAGE_SIZE + (inPageEnd - start));
      SliceMore(ram.mem, m, ptr, start, v, s, inPageEnd);
      if inPageEnd % PAGE_SIZE == 0 {
        v := v + [Slice(pte.value.ppn, start % PAGE_SIZE, PAGE_SIZE)];
      } else {
        v := v + [Slice(pte.value.ppn, start % PAGE_SIZE, inPageEnd % PAGE_SIZE)];
      }
      start := inPageEnd;
    }
    SlicesApart(ram.mem, m, ptr, len, v);
  }

  lemma PageInRange(va: nat, end: nat)
    requires va < end
    ensures va / PAGE_SIZE <= end / PAGE_SIZE
  {
  }

  lemma NothingSliced(mem: Memory, m: map<nat, Pte>, start: nat)
    ensures Sliced(mem, m, start, start, [])
  {
  }

  lemma SlicesApart(mem: Memory, m: map<nat, Pte>, start: nat, len: nat, v: seq<Slice>)
    requires Sliced(mem, m, start, start + len, v)
    ensures MappedOnce(m, start, len) ==> SlicesOk(mem, v)
  {
    if MappedOnce(m, start, len) {
      forall i, j | 0 <= i < j < |v|
        ensures v[i].frame != v[j].frame
      {
        assert PageSlice(m, start, v, i) && PageSlice(m, start, v, j);
        StartMonotone(v, j, |v|);
        var a, b := start / PAGE_SIZE + i, start / PAGE_SIZE + j;
        assert a in m && b in m;
      }
    }
  }

  lemma GatherStep(mem: Memory, v: seq<Slice>, i: nat)
    requires i < |v| && forall k :: 0 <= k < |v| ==> SliceOk(mem, v[k])
    ensures Gather(mem, v[..i + 1]) == Gather(mem, v[..i]) + Piece(mem, v[i])
  {
    assert v[..i + 1][..i] == v[..i];
  }

  /** `copyin`: the bytes at the addresses from `src` on. */
  method CopyIn(pt: PageTable, ram: Ram, src: nat, size: nat) returns (dst: seq<Byte>)
    requires pt.Valid(ram) && size > 0 && RangeMapped(ram.mem, pt.Bindings(ram), src, size)
    ensures |dst| == size
    ensures forall k :: 0 <= k < size ==> dst[k] == VaByte(ram.mem, pt.Bindings(ram), src + k)
  {
    hide Partition, Tree, Meaning, TablesOf;
    var srcBuffer := TranslatedBytesBuffer(pt, ram, src, size);
    dst := [];
    var index := 0;
    assert srcBuffer[..0] == [];
    while true
      invariant index < |srcBuffer| && dst == Gather(ram.mem, srcBuffer[..index])
      decreases |srcBuffer| - index
    {
      var s := srcBuffer[index];
      assert SliceOk(ram.mem, s);
      GatherStep(ram.mem, srcBuffer, index);
      dst := dst + ram.mem[s.frame][s.from..s.to];
      index := index + 1;
      if |srcBuffer| == index {
        break;
      }
    }
    assert srcBuffer[..index] == srcBuffer;
    SlicedReads(ram.mem, pt.Bindings(ram), src, src + size, srcBuffer);
  }

  /** Filling slice `j`. */
  lemma GatherFill(mem: Memory, ss: seq<Slice>, j: nat, bytes: seq<Byte>)
    requires SlicesOk(mem, ss) && j < |ss| && |bytes| == ss[j].to - ss[j].from
    requires forall i :: 0 <= i < |ss| ==> SliceOk(mem, ss[i]) && ss[i].from < ss[i].to
    ensures ss[j].frame in mem && ss[j].to <= PAGE_SIZE
    ensures var f := ss[j].frame;
            var mem' := mem[f := Patched(mem[f], ss[j].from, bytes)];
            && SlicesOk(mem', ss) && Start(ss, j) + |bytes| <= |Gather(mem, ss)|
            && Gather(mem', ss) == Patched(Gather(mem, ss), Start(ss, j), bytes)
  {
    assert SliceOk(mem, ss[j]);
    var f := ss[j].frame;
    var mem' := mem[f := Patched(mem[f], ss[j].from, bytes)];
    assert SlicesOk(mem', ss) by {
      forall i | 0 <= i < |ss|
        ensures SliceOk(mem', ss[i])
      {
        assert SliceOk(mem, ss[i]);
      }
    }
    GatherLength(mem, ss);
    GatherLength(mem', ss);
    StartMonotone(ss, j, |ss|);
    var g, g' := Gather(mem, ss), Gather(mem', ss);
    var want := Patched(g, Start(ss, j), bytes);
    forall k | 0 <= k < |g|
      ensures g'[k] == want[k]
    {
      FilledByte(mem, ss, j, bytes, mem', k);
    }
    assert g' == want;
  }

  lemma FilledByte(mem: Memory, ss: seq<Slice>, j: nat, bytes: seq<Byte>, mem': Memory, k: nat)
    requires SlicesOk(mem, ss) && SlicesOk(mem', ss) && j < |ss| && |bytes| == ss[j].to - ss[j].from
    requires forall i :: 0 <= i < |ss| ==> ss[i].from < ss[i].to
    requires ss[j].frame in mem && ss[j].to <= PAGE_SIZE && mem' == mem[ss[j].frame := Patched(mem[ss[j].frame], ss[j].from, bytes)]
    requires k < |Gather(mem, ss)| && k < |Gather(mem', ss)| && k < Start(ss, |ss|)
    ensures Gather(mem', ss)[k] ==
            if Start(ss, j) <= k < Start(ss, j) + |bytes| then bytes[k - Start(ss, j)] else Gather(mem, ss)[k]
  {
    var j', i' := SliceOf(ss, k);
    GatherAt(mem, ss, j', i');
    GatherAt(mem', ss, j', i');
    if j' < j {
      StartMonotone(ss, j', j);
    } else if j < j' {
      StartMonotone(ss, j, j');
    }
  }

  /** One slice, outside the page tables. */
  method Fill(pt: PageTable, ram: Ram, s: Slice, part: seq<Byte>)
    requires pt.Valid(ram) && SliceOk(ram.mem, s) && |part| == s.to - s.from && s.frame !in pt.slots
    modifies ram
    ensures pt.Valid(ram) && pt.Bindings(ram) == old(pt.Bindings(ram))
    ensures ram.mem == old(ram.mem)[s.frame := Patched(old(ram.mem)[s.frame], s.from, part)]
  {
    hide Partition, Tree, Meaning, TablesOf, Patched;
    ghost var mem := ram.mem;
    ram.WritePage(s.frame, Patched(ram.mem[s.frame], s.from, part));
    BindingsFrame(mem, ram.mem, pt.slots.Keys);
  }

  /** `copyout`: the bytes of `src` are stored at the addresses from `dst` on. */
  method CopyOut(pt: PageTable, ram: Ram, dst: nat, src: seq<Byte>)
    requires pt.Valid(ram) && src != [] && RangeMapped(ram.mem, pt.Bindings(ram), dst, |src|) && MappedOnce(pt.Bindings(ram), dst, |src|)
    requires forall va: nat :: dst <= va < dst + |src| ==> va / PAGE_SIZE in pt.Bindings(ram) && pt.Bindings(ram)[va / PAGE_SIZE].ppn !in pt.slots
    modifies ram
    ensures pt.Valid(ram) && pt.Bindings(ram) == old(pt.Bindings(ram)) && ram.mem.Keys == old(ram.mem.Keys)
    ensures forall k :: 0 <= k < |src| ==> VaByte(ram.mem, pt.Bindings(ram), dst + k) == src[k]
    ensures forall f, o: nat :: f in ram.mem && o < PAGE_SIZE && !Touched(pt.Bindings(ram), dst, |src|, f, o) ==>
              ram.mem[f][o] == old(ram.mem)[f][o]
  {
    hide Partition, Tree, Meaning, TablesOf, Gather, Patched, SlicesOk, Sliced, RangeMapped, MappedOnce, OnlyWithin;
    ghost var mem0 := ram.mem;
    ghost var m := pt.Bindings(ram);
    var dstBuffer := TranslatedBytesBuffer(pt, ram, dst, |src|);
    SlicedReads(ram.mem, m, dst, dst + |src|, dstBuffer);
    TotalLength(ram.mem, dstBuffer);
    FramesOfRange(ram.mem, m, dst, dst + |src|, dstBuffer, pt.slots.Keys);
    ghost var before := Gather(ram.mem, dstBuffer);
    NothingPatched(before, src);
    NothingOutside(mem0, dstBuffer);
    var index, startByte := 0, 0;
    while true
      invariant OnlyWithin(mem0, ram.mem, dstBuffer)
      invariant 0 <= index < |dstBuffer| && startByte == Start(dstBuffer, index)
      invariant pt.Valid(ram) && pt.Bindings(ram) == m && ram.mem.Keys == old(ram.mem.Keys)
      invariant SlicesOk(ram.mem, dstBuffer) && startByte <= |src| == |before|
      invariant forall i :: 0 <= i < |dstBuffer| ==> SliceOk(ram.mem, dstBuffer[i])
      invariant Gather(ram.mem, dstBuffer) == Patched(before, 0, src[..startByte])
      decreases |dstBuffer| - index
    {
      var s := dstBuffer[index];
      var n := s.to - s.from;
      StartMonotone(dstBuffer, index, |dstBuffer|);
      var part := src[startByte..startByte + n];
      GatherFill(ram.mem, dstBuffer, index, part);
      FilledWithin(mem0, ram.mem, dstBuffer, index, s.from, part);
      PatchedTwice(before, src, startByte, n);
      Fill(pt, ram, s, part);
      index := index + 1;
      startByte := startByte + n;
      if |dstBuffer| == index {
        break;
      }
    }
    assert src[..startByte] == src;
    WholePatched(before, src);
    SlicesTouched(mem0, ram.mem, m, dst, |src|, dstBuffer);
    SlicedKept(old(ram.mem), ram.mem, m, dst, dst + |src|, dstBuffer);
    SlicedReads(ram.mem, m, dst, dst + |src|, dstBuffer);
  }

  /** Byte `o` of frame `f` is seen at an address of the range. */
  ghost predicate Touched(m: map<nat, Pte>, start: nat, len: nat, f: nat, o: nat) {
    exists va: nat :: start <= va < start + len && va % PAGE_SIZE == o && va / PAGE_SIZE in m && m[va / PAGE_SIZE].ppn == f
  }

  lemma SlicesTouched(mem: Memory, mem': Memory, m: map<nat, Pte>, start: nat, len: nat, v: seq<Slice>)
    requires Sliced(mem, m, start, start + len, v) && OnlyWithin(mem, mem', v)
    ensures forall f, o: nat :: f in mem && o < PAGE_SIZE && !Touched(m, start, len, f, o) ==> mem'[f][o] == mem[f][o]
  {
    forall f, o: nat | f in mem && o < PAGE_SIZE && InSlices(v, f, o)
      ensures Touched(m, start, len, f, o)
    {
      var j :| 0 <= j < |v| && v[j].frame == f && v[j].from <= o < v[j].to;
      StartMonotone(v, j, |v|);
      assert PageSlice(m, start, v, j) && SliceOk(mem, v[j]);
      var va := start + Start(v, j);
      SamePage(va, o - v[j].from);
      assert (va + (o - v[j].from)) % PAGE_SIZE == o;
    }
  }

  lemma FramesOfRange(mem: Memory, m: map<nat, Pte>, start: nat, now: nat, v: seq<Slice>, ts: set<nat>)
    requires Sliced(mem, m, start, now, v)
    requires forall va: nat :: start <= va < now ==> va / PAGE_SIZE in m && m[va / PAGE_SIZE].ppn !in ts
    ensures forall i :: 0 <= i < |v| ==> v[i].frame !in ts
  {
    forall i | 0 <= i < |v|
      ensures v[i].frame !in ts
    {
      StartMonotone(v, i, |v|);
      assert PageSlice(m, start, v, i);
    }
  }

  lemma PatchedTwice(before: seq<Byte>, src: seq<Byte>, at: nat, n: nat)
    requires at + n <= |src| == |before|
    ensures Patched(Patched(before, 0, src[..at]), at, src[at..at + n]) == Patched(before, 0, src[..at + n])
  {
  }

  lemma WholePatched(before: seq<Byte>, src: seq<Byte>)
    requires |src| == |before|
    ensures Patched(before, 0, src) == src
  {
  }

  lemma SlicedKept(mem: Memory, mem': Memory, m: map<nat, Pte>, start: nat, now: nat, v: seq<Slice>)
    requires Sliced(mem, m, start, now, v) && mem'.Keys == mem.Keys
    ensures Sliced(mem', m, start, now, v)
  {
    forall i | 0 <= i < |v|
      ensures SliceOk(mem', v[i])
    {
      assert SliceOk(mem, v[i]);
    }
  }
}
