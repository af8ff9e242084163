/** The ingested message and its wire codec. */
module Events {
  import opened Options
  import opened BigEndian

  datatype Event = Event(eventId: string, source: string, payload: string, timestamp: int, tenantId: string)

  /**
   * The protobuf library, as a pair of functions: `marshal` may reject a message and `unmarshal`
   * may reject bytes. All that the pipeline relies on is stated in `Sound`.
   */
  datatype Codec = Codec(marshal: Event -> Option<seq<byte>>, unmarshal: seq<byte> -> Option<Event>) {
    /** What `marshal` accepts fits a 32-bit length field and is read back by `unmarshal`. */
    ghost predicate Sound() {
      forall e: Event :: marshal(e).Some? ==>
        && |marshal(e).value| < U32
        && unmarshal(marshal(e).value) == Some(e)
    }
  }
}
