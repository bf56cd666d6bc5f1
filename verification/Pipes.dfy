/** The ring buffer of a pipe, and the readers and writers that share it (kernel/src/fs/pipe.rs).

    A reader or writer holds the lock of the buffer for one turn of its loop and yields between turns, so a
    run is any sequence of turns. */
module Pipes {
  import opened LittleEndian

  const RING_BUFFER_SIZE: nat := 4096

  datatype RingBufferStatus = Full | Empty | Normal

  /** How a turn ends: the call returns, the thread gives way, or the loop goes round at once. */
  datatype TurnEnd = Return | Yield | Again

  function Min(a: nat, b: nat): nat {
    if a < b then a else b
  }

  /** The slot of the `i`th byte of a buffer that starts at `head`. */
  function Slot(head: nat, i: nat): (r: nat)
    requires head < RING_BUFFER_SIZE && i <= RING_BUFFER_SIZE
    ensures r == if head + i < RING_BUFFER_SIZE then head + i else head + i - RING_BUFFER_SIZE
  {
    (head + i) % RING_BUFFER_SIZE
  }

  class PipeRingBuffer {
    const arr: array<Byte>
    var head: nat
    var tail: nat
    var status: RingBufferStatus

    ghost predicate Valid()
      reads this
    {
      && arr.Length == RING_BUFFER_SIZE && head < RING_BUFFER_SIZE && tail < RING_BUFFER_SIZE
      && (status == Normal <==> head != tail)
    }

    /** How many bytes wait in the buffer. */
    ghost function Count(): nat
      requires Valid()
      reads this
    {
      if status.Empty? then 0 else if tail > head then tail - head else tail + RING_BUFFER_SIZE - head
    }

    /** `s` is what waits in the buffer, oldest first. */
    ghost predicate Holds(s: seq<Byte>)
      requires Valid()
      reads this, arr
    {
      |s| == Count() && forall i :: 0 <= i < |s| ==> s[i] == arr[Slot(head, i)]
    }

    constructor ()
      ensures Valid() && Holds([]) && fresh(arr)
    {
      arr := new Byte[RING_BUFFER_SIZE](_ => 0);
      head, tail, status := 0, 0, Empty;
    }

    method WriteByte(byte: Byte, ghost s: seq<Byte>)
      requires Valid() && Holds(s) && |s| < RING_BUFFER_SIZE
      modifies this, arr
      ensures Valid() && Holds(s + [byte])
    {
      assert tail == Slot(head, |s|);
      status := Normal;
      arr[tail] := byte;
      tail := (tail + 1) % RING_BUFFER_SIZE;
      if tail == head {
        status := Full;
      }
    }

    method ReadByte(ghost s: seq<Byte>) returns (c: Byte)
      requires Valid() && Holds(s) && s != []
      modifies this
      ensures Valid() && c == s[0] && Holds(s[1..])
    {
      status := Normal;
      c := arr[head];
      head := (head + 1) % RING_BUFFER_SIZE;
      if head == tail {
        status := Empty;
      }
    }

    method AvailableRead() returns (n: nat)
      requires Valid()
      ensures n == Count()
    {
      if status == Empty {
        n := 0;
      } else if tail > head {
        n := tail - head;
      } else {
        n := tail + RING_BUFFER_SIZE - head;
      }
    }

    method AvailableWrite() returns (n: nat)
      requires Valid()
      ensures n == RING_BUFFER_SIZE - Count()
    {
      if status == Full {
        n := 0;
      } else {
        var r := AvailableRead();
        n := RING_BUFFER_SIZE - r;
      }
    }

    /** One turn of `read_to_ubuf`, for a user buffer with room for `room` bytes. */
    method ReadTurn(room: nat, allWriteEndsClosed: bool, ghost s: seq<Byte>) returns (bytes: seq<Byte>, end: TurnEnd)
      requires Valid() && Holds(s)
      modifies this
      ensures Valid() && (bytes, end) == ReadOutcome(s, room, allWriteEndsClosed) && Holds(s[|bytes|..])
    {
      var loopRead := AvailableRead();
      bytes := [];
      if loopRead == 0 {
        return bytes, if allWriteEndsClosed then Return else Yield;
      }
      var i := 0;
      assert s[0..] == s;
      while i < loopRead
        invariant 0 <= i <= loopRead == |s| && i == |bytes| <= room
        invariant Valid() && bytes == s[..i] && Holds(s[i..])
      {
        if |bytes| == room {
          return bytes, Return;
        }
        assert s[i..][1..] == s[i + 1..];
        var byte := ReadByte(s[i..]);
        bytes := bytes + [byte];
        i := i + 1;
      }
      return bytes, Return;
    }

    /** One turn of `write_from_ubuf`, with `data` still to be written. */
    method WriteTurn(data: seq<Byte>, ghost s: seq<Byte>) returns (n: nat, end: TurnEnd)
      requires Valid() && Holds(s)
      modifies this, arr
      ensures Valid() && (n, end) == WriteOutcome(s, data) && Holds(s + data[..n])
    {
      var loopWrite := AvailableWrite();
      n := 0;
      assert s + data[..0] == s;
      if loopWrite == 0 {
        return 0, Yield;
      }
      var i := 0;
      while i < loopWrite
        invariant 0 <= i <= loopWrite == RING_BUFFER_SIZE - |s| && i == n <= |data|
        invariant Valid() && Holds(s + data[..n])
      {
        if n == |data| {
          return n, Return;
        }
        WriteByte(data[n], s + data[..n]);
        assert s + data[..n] + [data[n]] == s + data[..n + 1];
        n := n + 1;
        i := i + 1;
      }
      return n, Again;
    }
  }

  /** What a reader takes in one turn: as much as it has room for; nothing only from an empty buffer. */
  function ReadOutcome(ring: seq<Byte>, room: nat, closed: bool): (seq<Byte>, TurnEnd) {
    if ring == [] then ([], if closed then Return else Yield) else (ring[..Min(room, |ring|)], Return)
  }

  /** What a writer adds in one turn: what fits.  It only returns once it finds its data written and room left. */
  function WriteOutcome(ring: seq<Byte>, data: seq<Byte>): (r: (nat, TurnEnd))
    ensures r.0 <= |data|
  {
    var room := if |ring| <= RING_BUFFER_SIZE then RING_BUFFER_SIZE - |ring| else 0;
    (Min(|data|, room), if room == 0 then Yield else if |data| < room then Return else Again)
  }

  // ---------------------------------------------------------------- readers and writers together

  datatype Reader = Reader(room: nat, got: seq<Byte>, returned: bool)
  datatype Writer = Writer(data: seq<Byte>, sent: nat, returned: bool)

  /** The pipe and its users, with all bytes that were accepted and delivered so far. */
  datatype System = System(ring: seq<Byte>, readers: seq<Reader>, writers: seq<Writer>, closed: bool,
                           accepted: seq<Byte>, delivered: seq<Byte>)

  /** One turn, or the arrival of a call, or the end of the last write end.  `alive` is false when a thread
      that gives way is told to stop. */
  datatype Event =
    | ReadCall(room: nat)
    | WriteCall(data: seq<Byte>)
    | ReaderTurn(r: nat, alive: bool)
    | WriterTurn(w: nat, alive: bool)
    | Close

  /** A write call holds its write end open. */
  ghost predicate Possible(s: System, e: Event) {
    match e
    case ReadCall(room) => true
    case WriteCall(data) => !s.closed
    case ReaderTurn(r, alive) => r < |s.readers| && !s.readers[r].returned
    case WriterTurn(w, alive) => w < |s.writers| && !s.writers[w].returned
    case Close => forall w :: 0 <= w < |s.writers| ==> s.writers[w].returned
  }

  ghost function After(s: System, e: Event): System
    requires Possible(s, e) && WritersOk(s)
  {
    match e
    case ReadCall(room) => s.(readers := s.readers + [Reader(room, [], false)])
    case WriteCall(data) => s.(writers := s.writers + [Writer(data, 0, false)])
    case ReaderTurn(r, alive) =>
      var reader := s.readers[r];
      var (bytes, end) := ReadOutcome(s.ring, reader.room - |reader.got|, s.closed);
      s.(ring := s.ring[|bytes|..], delivered := s.delivered + bytes,
         readers := s.readers[r := reader.(got := reader.got + bytes, returned := end == Return || (end == Yield && !alive))])
    case WriterTurn(w, alive) =>
      var writer := s.writers[w];
      var (n, end) := WriteOutcome(s.ring, writer.data[writer.sent..]);
      var bytes := writer.data[writer.sent..writer.sent + n];
      s.(ring := s.ring + bytes, accepted := s.accepted + bytes,
         writers := s.writers[w := writer.(sent := writer.sent + n, returned := end == Return || (end == Yield && !alive))])
    case Close => s.(closed := true)
  }

  ghost predicate WritersOk(s: System) {
    && (forall w :: 0 <= w < |s.writers| ==> s.writers[w].sent <= |s.writers[w].data|)
    && (forall r :: 0 <= r < |s.readers| ==> |s.readers[r].got| <= s.readers[r].room)
  }

  /** What was delivered, followed by what waits, is what was accepted, in order; the buffer never overflows,
      and once the write ends are closed nobody writes. */
  ghost predicate Fifo(s: System) {
    && WritersOk(s)
    && s.accepted == s.delivered + s.ring
    && |s.ring| <= RING_BUFFER_SIZE
    && (s.closed ==> forall w :: 0 <= w < |s.writers| ==> s.writers[w].returned)
  }

  lemma ReaderKeepsFifo(s: System, r: nat, alive: bool)
    requires Fifo(s) && Possible(s, ReaderTurn(r, alive))
    ensures Fifo(After(s, ReaderTurn(r, alive)))
  {
    var bytes := ReadOutcome(s.ring, s.readers[r].room - |s.readers[r].got|, s.closed).0;
    assert s.ring == bytes + s.ring[|bytes|..];
    assert s.delivered + s.ring == s.delivered + bytes + s.ring[|bytes|..];
  }

  lemma WriterKeepsFifo(s: System, w: nat, alive: bool)
    requires Fifo(s) && Possible(s, WriterTurn(w, alive))
    ensures Fifo(After(s, WriterTurn(w, alive)))
  {
    var writer := s.writers[w];
    var n := WriteOutcome(s.ring, writer.data[writer.sent..]).0;
    var bytes := writer.data[writer.sent..writer.sent + n];
    assert s.delivered + s.ring + bytes == s.delivered + (s.ring + bytes);
  }

  lemma TurnKeepsFifo(s: System, e: Event)
    requires Fifo(s) && Possible(s, e)
    ensures Fifo(After(s, e))
  {
    match e
    case ReaderTurn(r, alive) => ReaderKeepsFifo(s, r, alive);
    case WriterTurn(w, alive) => WriterKeepsFifo(s, w, alive);
    case ReadCall(room) => assert Fifo(After(s, e));
    case WriteCall(data) => assert Fifo(After(s, e));
    case Close => assert Fifo(After(s, e));
  }

  ghost predicate IsRun(states: seq<System>, es: seq<Event>) {
    && |states| == |es| + 1
    && (forall i :: 0 <= i < |es| ==> Possible(states[i], es[i]) && WritersOk(states[i]) && states[i + 1] == After(states[i], es[i]))
  }

  /** First in, first out, over every interleaving of readers and writers. */
  lemma {:induction false} RunsKeepFifo(states: seq<System>, es: seq<Event>)
    requires IsRun(states, es) && Fifo(states[0])
    ensures Fifo(states[|es|])
    decreases |es|
  {
    hide Fifo, After, Possible;
    if es != [] {
      TurnKeepsFifo(states[0], es[0]);
      RunsKeepFifo(states[1..], es[1..]);
    }
  }

  /** The pipe as it is made. */
  function Start(): System {
    System([], [], [], false, [], [])
  }

  ghost predicate RunFromStart(states: seq<System>, es: seq<Event>) {
    IsRun(states, es) && states[0] == Start()
  }

  /** A read call takes its bytes in the turn it returns in. */
  ghost predicate NothingYet(s: System) {
    forall r :: 0 <= r < |s.readers| && !s.readers[r].returned ==> s.readers[r].got == []
  }

  lemma TurnKeepsNothingYet(s: System, e: Event)
    requires Fifo(s) && NothingYet(s) && Possible(s, e)
    ensures NothingYet(After(s, e))
  {
  }

  lemma StartInOrder()
    ensures Fifo(Start()) && NothingYet(Start())
  {
  }

  /** Where a run from the start has come to. */
  lemma {:induction false} Reached(states: seq<System>, es: seq<Event>)
    requires RunFromStart(states, es)
    ensures Fifo(states[|es|]) && NothingYet(states[|es|])
    decreases |es|
  {
    hide Fifo, NothingYet, After, Possible;
    if es == [] {
      StartInOrder();
    } else {
      var n := |es| - 1;
      Reached(states[..n + 1], es[..n]);
      TurnKeepsFifo(states[n], es[n]);
      TurnKeepsNothingYet(states[n], es[n]);
    }
  }

  /** A read call with room returns without a byte in a turn of a run exactly if all bytes accepted so far are
      delivered and no writer is left, or the thread was told to stop while it gave way. */
  lemma ReadsNothingIff(states: seq<System>, es: seq<Event>, i: nat, r: nat, alive: bool)
    requires RunFromStart(states, es) && i < |es| && es[i] == ReaderTurn(r, alive) && states[i].readers[r].room > 0
    ensures states[i + 1].readers[r].returned && states[i + 1].readers[r].got == []
       <==> states[i].accepted == states[i].delivered && (states[i].closed || !alive)
  {
    Reached(states[..i + 1], es[..i]);
    var s := states[i];
    assert s.accepted == s.delivered ==> s.ring == [] by {
      assert |s.delivered + s.ring| == |s.delivered| + |s.ring|;
    }
  }

  /** What a read call gets is the next stretch of the stream: as much as waits, up to its room. */
  lemma ReadTakes(states: seq<System>, es: seq<Event>, i: nat, r: nat, alive: bool)
    requires RunFromStart(states, es) && i < |es| && es[i] == ReaderTurn(r, alive)
    ensures var (s, got) := (states[i], states[i + 1].readers[r].got);
            && |s.delivered| <= |s.accepted|
            && |got| == Min(s.readers[r].room, |s.accepted| - |s.delivered|)
            && got == s.accepted[|s.delivered|..|s.delivered| + |got|]
            && states[i + 1].delivered == s.delivered + got
  {
    Reached(states[..i + 1], es[..i]);
    var s := states[i];
    assert s.ring == s.accepted[|s.delivered|..];
  }

  /** All bytes are delivered and no writer is left. */
  ghost predicate AtEnd(s: System) {
    s.closed && s.ring == [] && s.accepted == s.delivered
  }

  lemma TurnStaysAtEnd(s: System, e: Event)
    requires Fifo(s) && AtEnd(s) && Possible(s, e)
    ensures AtEnd(After(s, e)) && After(s, e).accepted == s.accepted
  {
  }

  /** The `i`th turn is one in which the thread of reader `r` found nothing and was told to stop. */
  ghost predicate ReaderStopped(states: seq<System>, es: seq<Event>, r: nat, i: nat) {
    i < |es| && i < |states| && es[i] == ReaderTurn(r, false) && states[i].accepted == states[i].delivered
  }

  /** A read call with room that has returned without a byte: the stream is at its end and stays there, or the
      thread was told to stop. */
  lemma {:induction false} ReadsNothing(states: seq<System>, es: seq<Event>, r: nat)
    requires RunFromStart(states, es) && r < |states[|es|].readers|
    requires var reader := states[|es|].readers[r]; reader.returned && reader.got == [] && reader.room > 0
    ensures AtEnd(states[|es|]) || exists i :: ReaderStopped(states, es, r, i)
    decreases |es|
  {
    hide Fifo, WritersOk, NothingYet;
    if es != [] {
      var n := |es| - 1;
      var before, turns := states[..n + 1], es[..n];
      Reached(before, turns);
      if r < |states[n].readers| && states[n].readers[r].returned {
        ReadsNothing(before, turns, r);
        if AtEnd(states[n]) {
          TurnStaysAtEnd(states[n], es[n]);
        } else {
          var i :| ReaderStopped(before, turns, r, i);
          assert ReaderStopped(states, es, r, i);
        }
      } else {
        ReturnedNow(states[n], es[n], r);
        ReadsNothingIff(states, es, n, r, es[n].alive);
        if states[n].closed {
          NothingLeft(states[n], r, es[n].alive);
        } else {
          assert ReaderStopped(states, es, r, n);
        }
      }
    }
  }

  lemma ReturnedNow(s: System, e: Event, r: nat)
    requires Possible(s, e) && WritersOk(s) && r < |After(s, e).readers| && After(s, e).readers[r].returned
    requires !(r < |s.readers| && s.readers[r].returned)
    ensures e.ReaderTurn? && e.r == r && After(s, e).readers[r].room == s.readers[r].room
  {
  }

  lemma NothingLeft(s: System, r: nat, alive: bool)
    requires Fifo(s) && Possible(s, ReaderTurn(r, alive)) && s.closed && s.accepted == s.delivered
    ensures AtEnd(After(s, ReaderTurn(r, alive)))
  {
    assert |s.delivered + s.ring| == |s.delivered| + |s.ring|;
  }

  /** What the turns of writer `w` have put into the stream. */
  ghost function Written(states: seq<System>, es: seq<Event>, w: nat): seq<Byte>
    requires IsRun(states, es)
    decreases |es|
  {
    if es == [] then [] else
      var n := |es| - 1;
      Written(states[..n + 1], es[..n], w) + (if es[n].WriterTurn? && es[n].w == w then PutIn(states[n], es[n]) else [])
  }

  /** The bytes that a turn adds to those accepted. */
  ghost function PutIn(s: System, e: Event): seq<Byte>
    requires Possible(s, e) && WritersOk(s)
  {
    if |s.accepted| <= |After(s, e).accepted| then After(s, e).accepted[|s.accepted|..] else []
  }

  /** The `i`th turn is one in which the thread of writer `w` found the buffer full and was told to stop. */
  ghost predicate WriterStopped(states: seq<System>, es: seq<Event>, w: nat, i: nat) {
    i < |es| && i < |states| && es[i] == WriterTurn(w, false)
    && |states[i].accepted| == |states[i].delivered| + RING_BUFFER_SIZE
  }

  /** The bytes of a write call enter the stream in their order, whoever writes in between; and a call that has
      returned has handed over all of them, or its thread was told to stop. */
  lemma {:induction false} WritesAll(states: seq<System>, es: seq<Event>, w: nat)
    requires RunFromStart(states, es) && w < |states[|es|].writers|
    ensures var writer := states[|es|].writers[w];
            && writer.sent <= |writer.data| && Written(states, es, w) == writer.data[..writer.sent]
            && (writer.returned ==> writer.sent == |writer.data| || exists i :: WriterStopped(states, es, w, i))
    decreases |es|
  {
    hide Fifo, WritersOk, NothingYet, Possible;
    if es != [] {
      var n := |es| - 1;
      var before, turns := states[..n + 1], es[..n];
      Reached(before, turns);
      WriterTurnIs(states[n], es[n], w);
      if w < |states[n].writers| {
        WritesAll(before, turns, w);
        forall i | WriterStopped(before, turns, w, i)
          ensures WriterStopped(states, es, w, i)
        {
        }
        if es[n] == WriterTurn(w, false) && |states[n].accepted| == |states[n].delivered| + RING_BUFFER_SIZE {
          assert WriterStopped(states, es, w, n);
        }
      } else {
        NotYetWritten(before, turns, w);
      }
    }
  }

  lemma WriterTurnIs(s: System, e: Event, w: nat)
    requires Fifo(s) && Possible(s, e)
    requires w < |After(s, e).writers|
    ensures w < |s.writers| ==>
              var (now, was) := (After(s, e).writers[w], s.writers[w]);
              && now.data == was.data && was.sent <= now.sent <= |now.data|
              && was.data[..was.sent] + (if e.WriterTurn? && e.w == w then PutIn(s, e) else []) == now.data[..now.sent]
              && (now.returned ==> was.returned || now.sent == |now.data|
                                   || (e == WriterTurn(w, false) && |s.accepted| == |s.delivered| + RING_BUFFER_SIZE))
    ensures w >= |s.writers| ==> !e.WriterTurn? && After(s, e).writers[w].sent == 0 && !After(s, e).writers[w].returned
  {
    assert |s.delivered + s.ring| == |s.delivered| + |s.ring|;
    if w < |s.writers| && e.WriterTurn? && e.w == w {
      var writer := s.writers[w];
      var n := WriteOutcome(s.ring, writer.data[writer.sent..]).0;
      var bytes := writer.data[writer.sent..writer.sent + n];
      assert (s.accepted + bytes)[|s.accepted|..] == bytes;
      assert writer.data[..writer.sent] + bytes == writer.data[..writer.sent + n];
    }
  }

  /** No turn of a call that has not come. */
  lemma {:induction false} NotYetWritten(states: seq<System>, es: seq<Event>, w: nat)
    requires IsRun(states, es) && w >= |states[|es|].writers|
    ensures Written(states, es, w) == []
    decreases |es|
  {
    hide WritersOk;
    if es != [] {
      var n := |es| - 1;
      NotYetWritten(states[..n + 1], es[..n], w);
    }
  }

  /** A write call waits for a reader even when its last byte just filled the buffer: in a run it returns exactly
      when what it has left is less than the room between the bytes accepted and those delivered. */
  lemma WriteReturnsIff(states: seq<System>, es: seq<Event>, i: nat, w: nat)
    requires RunFromStart(states, es) && i < |es| && es[i] == WriterTurn(w, true)
    ensures states[i + 1].writers[w].returned <==>
            |states[i].writers[w].data| - states[i].writers[w].sent + |states[i].accepted| - |states[i].delivered| < RING_BUFFER_SIZE
  {
    Reached(states[..i + 1], es[..i]);
    assert |states[i].delivered + states[i].ring| == |states[i].delivered| + |states[i].ring|;
  }
}
