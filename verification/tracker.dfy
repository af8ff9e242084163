/** The map that hands sequence numbers from callers of Push to the workers. */
module Tracker {
  import opened Options

  class SeqTracker {
    var data: map<string, nat>

    constructor ()
      ensures data == map[]
    {
      data := map[];
    }

    method Store(eventId: string, seqNo: nat)
      modifies this
      ensures data == old(data)[eventId := seqNo]
    {
      data := data[eventId := seqNo];
    }

    method LoadAndDelete(eventId: string) returns (r: Option<nat>)
      modifies this
      ensures r == if eventId in old(data) then Some(old(data)[eventId]) else None
      ensures data == old(data) - {eventId}
    {
      if eventId in data {
        r := Some(data[eventId]);
        data := data - {eventId};
      } else {
        r := None;
      }
    }

    function Len(): nat
      reads this
    {
      |data|
    }
  }
}
