/** The relay buffer of `handleBurst` (daemon.go:172-188): a channel of
    capacity 64 between the burst's audio and the backend, fed by a goroutine
    that, when the buffer is full, takes out the oldest pending chunk and then
    puts the new one in. Model: a ring of 64 slots with a head index and a
    count; the reader is the `Take` operation. */
module Relay {
  import opened Common

  /** `make(chan []byte, 64)` (daemon.go:173). */
  const Capacity: nat := 64

  /** Slot of the `i`-th pending chunk when the oldest sits at `head`. */
  function Slot(head: nat, i: nat): (k: nat)
    requires head < Capacity && i < Capacity
    ensures k < Capacity
    ensures k == if head + i < Capacity then head + i else head + i - Capacity
  {
    (head + i) % Capacity
  }

  lemma SlotShift(head: nat, i: nat)
    requires head < Capacity && i + 1 < Capacity
    ensures Slot(Slot(head, 1), i) == Slot(head, i + 1)
  {
  }

  /** One more chunk offered: the most recent `Capacity` of the chunks seen
      so far absorb it. */
  lemma RelayAllStep(start: seq<Chunk>, chunks: seq<Chunk>, i: nat)
    requires i < |chunks|
    ensures LastN(start + chunks[..i + 1], Capacity)
            == LastN(LastN(start + chunks[..i], Capacity) + [chunks[i]], Capacity)
  {
    var seen := start + chunks[..i];
    assert start + chunks[..i + 1] == seen + [chunks[i]];
    LastNAppend(seen, chunks[i], Capacity);
  }

  /** One more chunk is dropped exactly when `Capacity` were already kept. */
  lemma DropCountStep(n: nat)
    ensures Max(0, n + 1 - Capacity) == Max(0, n - Capacity) + (if Min(n, Capacity) == Capacity then 1 else 0)
  {
  }

  class RelayBuffer {
    const slots: array<Chunk>
    var head: nat
    var count: nat
    /** The pending chunks, oldest first. */
    ghost var contents: seq<Chunk>

    ghost predicate Valid()
      reads this, slots
    {
      && slots.Length == Capacity
      && head < Capacity
      && count <= Capacity
      && |contents| == count
      && forall i :: 0 <= i < count ==> slots[Slot(head, i)] == contents[i]
    }

    constructor()
      ensures Valid() && contents == [] && fresh(slots)
    {
      slots := new Chunk[Capacity](_ => []);
      head := 0;
      count := 0;
      contents := [];
    }

    /** Removes the oldest pending chunk, if any: the reader's receive, or the
        writer's drop when the buffer is full. */
    method Take() returns (r: Option<Chunk>)
      requires Valid()
      modifies this
      ensures Valid()
      ensures old(contents) == [] ==> r == None && contents == []
      ensures old(contents) != [] ==> r == Some(old(contents)[0]) && contents == old(contents)[1..]
    {
      if count == 0 {
        return None;
      }
      r := Some(slots[head]);
      forall i | 0 <= i < count - 1
        ensures slots[Slot(Slot(head, 1), i)] == contents[1..][i]
      {
        SlotShift(head, i);
      }
      head := Slot(head, 1);
      count := count - 1;
      contents := contents[1..];
    }

    /** One chunk arriving from the burst (daemon.go:177-186): appended when
        there is room, otherwise exactly one oldest chunk is dropped first. */
    method Offer(c: Chunk) returns (dropped: bool)
      requires Valid()
      modifies this, slots
      ensures Valid()
      ensures dropped <==> |old(contents)| == Capacity
      ensures contents == (if dropped then old(contents)[1..] else old(contents)) + [c]
      ensures contents == LastN(old(contents) + [c], Capacity)
    {
      dropped := false;
      if count == Capacity {
        var _ := Take();
        dropped := true;
      }
      slots[Slot(head, count)] := c;
      count := count + 1;
      contents := contents + [c];
      DropOldestKeepsRecent(old(contents), c);
    }

    /** The writer goroutine run to the end of the burst with no reader: every
        chunk offered in turn. */
    method RelayAll(chunks: seq<Chunk>) returns (drops: nat)
      requires Valid()
      modifies this, slots
      ensures Valid()
      ensures contents == LastN(old(contents) + chunks, Capacity)
      ensures drops == Max(0, |old(contents)| + |chunks| - Capacity)
    {
      drops := 0;
      ghost var start := contents;
      var i := 0;
      while i < |chunks|
        invariant 0 <= i <= |chunks| && Valid()
        invariant contents == LastN(start + chunks[..i], Capacity)
        invariant drops == Max(0, |start| + i - Capacity)
      {
        RelayAllStep(start, chunks, i);
        DropCountStep(|start| + i);
        var d := Offer(chunks[i]);
        if d {
          drops := drops + 1;
        }
        i := i + 1;
      }
      assert chunks[..i] == chunks;
    }
  }

  /** Dropping the oldest of a full buffer before appending keeps exactly the
      most recent `Capacity` chunks. */
  lemma DropOldestKeepsRecent(q: seq<Chunk>, c: Chunk)
    requires |q| <= Capacity
    ensures (if |q| == Capacity then q[1..] else q) + [c] == LastN(q + [c], Capacity)
  {
  }

  /** What happens at the buffer: a chunk arrives from the burst, or the
      backend reads one. */
  datatype Event = Arrive(chunk: Chunk) | Read

  /** The chunks that arrived, in order. */
  function Arrivals(events: seq<Event>): seq<Chunk>
  {
    if events == [] then []
    else Arrivals(events[..|events| - 1])
         + (match events[|events| - 1] case Arrive(c) => [c] case Read => [])
  }

  /** The chunks the backend received, and the chunks still pending, after a
      sequence of events; a read on an empty buffer receives nothing (the
      backend would block until the next arrival). */
  function Relay(events: seq<Event>): (r: (seq<Chunk>, seq<Chunk>))
    ensures |r.1| <= Capacity
  {
    if events == [] then ([], [])
    else
      var (got, q) := Relay(events[..|events| - 1]);
      match events[|events| - 1]
      case Arrive(c) => (got, if |q| == Capacity then q[1..] + [c] else q + [c])
      case Read => if q == [] then (got, q) else (got + [q[0]], q[1..])
  }

  /** One more event, as `Relay` sees it. */
  lemma RelayStep(events: seq<Event>, i: nat)
    requires i < |events|
    ensures var (got, q) := Relay(events[..i]);
            Relay(events[..i + 1])
            == match events[i]
               case Arrive(c) => (got, if |q| == Capacity then q[1..] + [c] else q + [c])
               case Read => if q == [] then (got, q) else (got + [q[0]], q[1..])
  {
    assert events[..i + 1][..i] == events[..i];
  }

  /** One burst's buffer (daemon.go:172-188), created empty, with the events
      played on it in order: an arrival is the writer's `Offer`, a read the
      backend's `Take`. What the backend received and what is still pending
      are exactly those of `Relay`. */
  method RelayEvents(events: seq<Event>) returns (buf: RelayBuffer, received: seq<Chunk>)
    ensures buf.Valid()
    ensures received == Relay(events).0 && buf.contents == Relay(events).1
  {
    buf := new RelayBuffer();
    received := [];
    var i := 0;
    while i < |events|
      invariant 0 <= i <= |events| && buf.Valid() && fresh(buf.slots)
      invariant received == Relay(events[..i]).0 && buf.contents == Relay(events[..i]).1
    {
      RelayStep(events, i);
      match events[i] {
        case Arrive(c) =>
          var _ := buf.Offer(c);
        case Read =>
          var r := buf.Take();
          if r.Some? {
            received := received + [r.value];
          }
      }
      i := i + 1;
    }
    assert events[..i] == events;
  }

  /** The pending chunks are always the most recent arrivals. */
  lemma {:induction false} PendingAreRecentArrivals(events: seq<Event>)
    ensures |Relay(events).1| <= |Arrivals(events)|
    ensures Relay(events).1 == Arrivals(events)[|Arrivals(events)| - |Relay(events).1|..]
    decreases |events|
  {
    if events != [] {
      var init := events[..|events| - 1];
      PendingAreRecentArrivals(init);
      var (got, q) := Relay(init);
      var a := Arrivals(init);
      match events[|events| - 1]
      case Arrive(c) =>
        assert events == init + [Arrive(c)];
        assert Relay(events).1 == if |q| == Capacity then q[1..] + [c] else q + [c];
        assert Arrivals(events) == a + [c];
        SuffixSnoc(q, a, c, |q| == Capacity);
      case Read =>
        assert events == init + [Read];
        assert Relay(events).1 == if q == [] then q else q[1..];
        assert Arrivals(events) == a;
    }
  }

  /** A suffix of the arrivals, with the new arrival appended and possibly its
      oldest element dropped, is a suffix of the arrivals that follow. */
  lemma SuffixSnoc(q: seq<Chunk>, a: seq<Chunk>, c: Chunk, drop: bool)
    requires |q| <= |a| && q == a[|a| - |q|..]
    requires drop ==> q != []
    ensures var q' := if drop then q[1..] + [c] else q + [c];
            |q'| <= |a| + 1 && q' == (a + [c])[|a| + 1 - |q'|..]
  {
    if drop {
      assert q[1..] + [c] == (a + [c])[|a| + 1 - |q|..];
    } else {
      assert q + [c] == (a + [c])[|a| - |q|..];
    }
  }

  /** The relay only loses chunks and never reorders them: what the backend
      received, followed by what is still pending, is a sub-sequence of what
      arrived. */
  lemma {:induction false} RelayKeepsOrder(events: seq<Event>)
    ensures IsSubseq(Relay(events).0 + Relay(events).1, Arrivals(events))
    decreases |events|
  {
    if events != [] {
      var init := events[..|events| - 1];
      RelayKeepsOrder(init);
      var (got, q) := Relay(init);
      var a := Arrivals(init);
      match events[|events| - 1]
      case Arrive(c) =>
        assert Arrivals(events) == a + [c];
        if |q| == Capacity {
          DropFromFullKeepsOrder(got, q, a, c);
        } else {
          assert got + (q + [c]) == got + q + [c];
          SubseqSnoc(got + q, a, c);
        }
      case Read =>
        assert Arrivals(events) == a;
        if q != [] {
          assert got + [q[0]] + q[1..] == got + q;
        }
    }
  }

  lemma DropFromFullKeepsOrder(got: seq<Chunk>, q: seq<Chunk>, a: seq<Chunk>, c: Chunk)
    requires |q| > 0 && IsSubseq(got + q, a)
    ensures IsSubseq(got + (q[1..] + [c]), a + [c])
  {
    assert got + (q[1..] + [c]) == (got + q[1..]) + [c];
    SubseqDropMiddle(got, q, 1);
    SubseqTrans(got + q[1..], got + q, a);
    SubseqSnoc(got + q[1..], a, c);
  }

  /** With no reader, the buffer retains the most recent 64 chunks in arrival
      order. */
  lemma {:induction false} NoReaderRetainsRecent(events: seq<Event>)
    requires forall i :: 0 <= i < |events| ==> events[i].Arrive?
    ensures Relay(events).0 == []
    ensures Relay(events).1 == LastN(Arrivals(events), Capacity)
    decreases |events|
  {
    if events != [] {
      var init := events[..|events| - 1];
      NoReaderRetainsRecent(init);
      var c := events[|events| - 1].chunk;
      assert Arrivals(events) == Arrivals(init) + [c];
      DropOldestKeepsRecent(Relay(init).1, c);
      LastNAppend(Arrivals(init), c, Capacity);
    }
  }
}
