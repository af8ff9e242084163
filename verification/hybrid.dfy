/** The hybrid buffer's own loops, each run without interference. */
module Hybrids {
  import opened Options
  import opened Events
  import opened Decimal
  import opened OverflowFormat
  import opened DiskQueues

  function Lift(es: seq<Event>): (os: seq<Option<Event>>)
    ensures |os| == |es| && forall i :: 0 <= i < |es| ==> os[i] == Some(es[i])
  {
    seq(|es|, i requires 0 <= i < |es| => Some(es[i]))
  }

  function AsSeq(lost: Option<Event>): seq<Option<Event>> {
    if lost.Some? then [lost] else []
  }

  lemma MoveOne(ch: seq<Event>, next: Option<Event>, rest: seq<Option<Event>>)
    requires next.Some?
    ensures Lift(ch) + ([next] + rest) == Lift(ch + [next.value]) + rest
    ensures Lift(ch) + ([next] + rest) == Lift(ch) + AsSeq(next) + rest
  {
  }

  class HybridBuffer {
    const size: nat
    const dq: DiskQueue
    var ch: seq<Event>
    var quit: bool
    var closed: bool

    ghost predicate Valid()
      reads this, dq
    {
      |ch| <= size && dq.Valid()
    }

    /** Everything that is buffered, in the order in which it will leave. */
    ghost function Pending(): seq<Option<Event>>
      requires Valid()
      reads this, dq
    {
      Lift(ch) + dq.Contents()
    }

    constructor (size: nat, dq: DiskQueue)
      requires dq.Valid()
      ensures Valid() && this.size == size && this.dq == dq && ch == [] && !quit && !closed
    {
      this.size, this.dq := size, dq;
      ch, quit, closed := [], false, false;
    }

    /** With nobody else at work a push appends, whichever way the event takes. */
    method Push(event: Event, io: IoOutcome) returns (r: Result<()>)
      requires Valid() && !closed
      requires dq.codec.marshal(event).Some? ==>
        dq.writeOffset + LENGTH_SIZE + |dq.codec.marshal(event).value| < INT64_LIMIT
      modifies this`ch, dq
      ensures Valid()
      ensures Pending() == old(Pending()) + (if r.Ok? then [Some(event)] else [])
      ensures r.Ok? <==> (old(dq.Contents()) == [] && |old(ch)| < size) || (io.IoOk? && dq.codec.marshal(event).Some?)
      ensures ch == old(ch) + (if old(dq.Contents()) == [] && |old(ch)| < size then [event] else [])
    {
      if dq.count <= 0 {
        if |ch| < size {
          ch := ch + [event];
          assert Lift(ch) == Lift(old(ch)) + [Some(event)];
          return Ok(());
        }
      }
      assert ch + [] == ch;
      r := dq.Enqueue(event, io);
    }

    /** The next event from disk, for both loops below: they stop alike on an error and on an empty queue. */
    method NextFromDisk() returns (next: Option<Event>)
      requires Valid()
      modifies dq
      ensures Valid()
      ensures old(dq.Contents()) == AsSeq(next) + dq.Contents()
      ensures next.None? ==> dq.Contents() == [] || dq.Contents()[0].None?
    {
      hide DiskQueue.Valid, DiskQueue.Contents, DiskQueue.Reopenable, LoadOffset;
      var r := dq.Dequeue();
      next := if r.Ok? then r.value else None;
    }

    /**
     * Moves events from disk to the channel until the disk is empty, the channel is full or the head
     * cannot be read. When quit is closed the select may pick that arm instead of the send, and then
     * the event in hand is lost. `quitWins(k)` is the choice made for the k-th event.
     */
    method PumpBatch(quitWins: nat -> bool) returns (lost: Option<Event>)
      requires Valid()
      modifies this`ch, dq
      ensures Valid() && old(ch) <= ch
      ensures old(Pending()) == Lift(ch) + AsSeq(lost) + dq.Contents()
      ensures lost.Some? ==> quit && |ch| < size
      ensures lost.None? ==> dq.Contents() == [] || dq.Contents()[0].None? || |ch| >= size
    {
      hide Lift, DiskQueue.Valid, DiskQueue.Contents, DiskQueue.InBounds;
      var k := 0;
      while true
        invariant Valid() && old(ch) <= ch
        invariant Pending() == old(Pending())
        decreases |dq.Contents()|
      {
        if dq.count <= 0 {
          return None;
        }
        if |ch| >= size {
          return None;
        }
        var next := NextFromDisk();
        if next.None? {
          return None;
        }
        MoveOne(ch, next, dq.Contents());
        if quit && quitWins(k) {
          return next;
        }
        ch := ch + [next.value];
        k := k + 1;
      }
    }

    /**
     * The last drain: the channel takes what fits. If more is left, one event has already been dequeued
     * and is lost; it is neither in the channel nor left on disk.
     */
    method DrainOverflow() returns (lost: Option<Event>)
      requires Valid()
      modifies this`ch, dq
      ensures Valid() && old(ch) <= ch
      ensures old(Pending()) == Lift(ch) + AsSeq(lost) + dq.Contents()
      ensures lost.Some? ==> |ch| == size
      ensures lost.None? ==> dq.Contents() == [] || dq.Contents()[0].None?
    {
      hide Lift, DiskQueue.Valid, DiskQueue.Contents, DiskQueue.InBounds;
      while true
        invariant Valid() && old(ch) <= ch
        invariant Pending() == old(Pending())
        decreases |dq.Contents()|
      {
        var next := NextFromDisk();
        if next.None? {
          return None;
        }
        MoveOne(ch, next, dq.Contents());
        if |ch| >= size {
          return next;
        }
        ch := ch + [next.value];
      }
    }

    /**
     * Close with the pump idle. When the disk queue is readable, an event is lost exactly when not
     * everything fits in the channel, and then it is the first one that does not fit.
     */
    method Close() returns (lost: Option<Event>)
      requires Valid() && !quit && !closed
      requires forall i :: 0 <= i < |dq.Contents()| ==> dq.Contents()[i].Some?
      modifies this, dq
      ensures Valid() && quit && closed
      ensures var pending := old(Pending());
        && lost == (if |pending| > size then pending[size] else None)
        && Lift(ch) == (if |pending| > size then pending[..size] else pending)
        && dq.Contents() == (if |pending| > size then pending[size + 1..] else [])
    {
      quit := true;
      lost := DrainOverflow();
      closed := true;
      ghost var pending := old(Pending());
      ghost var rest := dq.Contents();
      assert forall i :: 0 <= i < |rest| ==> rest[i] == pending[|ch| + |AsSeq(lost)| + i];
      if lost.None? {
        assert pending == Lift(ch) + rest;
      } else {
        assert pending[..size] == Lift(ch);
        assert pending[size] == lost;
        assert pending[size + 1..] == rest;
      }
    }

    function Len(): nat
      reads this, dq
    {
      |ch| + (if dq.count < 0 then 0 else dq.count)
    }

    lemma LenIsPending()
      requires Valid()
      ensures Len() == |Pending()|
    {
    }
  }
}
