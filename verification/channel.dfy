/** The in-memory buffer: a bounded channel. */
module Channels {
  import opened Options
  import opened Events

  class ChannelBuffer {
    const size: nat
    var queue: seq<Event>
    var closed: bool

    ghost predicate Valid()
      reads this
    {
      |queue| <= size
    }

    constructor (size: nat)
      ensures Valid() && queue == [] && !closed && this.size == size
    {
      this.size := size;
      queue, closed := [], false;
    }

    /** Never blocks: a full channel is an error. Sending on a closed channel panics. */
    method Push(event: Event) returns (r: Result<()>)
      requires Valid() && !closed
      modifies this`queue
      ensures Valid()
      ensures r == if |old(queue)| < size then Ok(()) else Err(BufferFull)
      ensures queue == old(queue) + (if r.Ok? then [event] else [])
    {
      if |queue| < size {
        queue := queue + [event];
        return Ok(());
      }
      return Err(BufferFull);
    }

    /** Closing twice is harmless. */
    method Close()
      modifies this`closed
      ensures closed
    {
      closed := true;
    }

    function Len(): nat
      reads this
    {
      |queue|
    }
  }
}
