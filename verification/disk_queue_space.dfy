/** The space that the disk queue's file takes. */
module DiskQueueSpace {
  import opened Options
  import opened BigEndian
  import opened Events
  import opened PrefixCode
  import opened Decimal
  import opened OverflowFormat
  import opened DiskQueues

  /** Bytes in front of the read offset, and those that failed enqueues left behind the write offset. */
  function Dead(e: Extent): int {
    e.read + (e.size - e.write)
  }

  /** The file is within its live frames and the compaction threshold exactly when its dead bytes are. */
  lemma SpaceBoundIff(q: DiskQueue)
    requires q.Valid()
    ensures |q.file| <= |Encode(FRAMES, Parse(FRAMES, q.Live()))| + 0x400_0000
      <==> Dead(q.Extents()) <= COMPACT_THRESHOLD
  {
    FramesLawful();
    EncodeParsed(FRAMES, q.Live());
  }

  // ---- Over runs -----------------------------------------------------------------------------------

  /** A dequeue moves past at least its length field. */
  predicate CanRun(e: Extent, ops: seq<SpaceOp>) {
    ops == [] ||
      var front, last := ops[..|ops| - 1], ops[|ops| - 1];
      CanRun(e, front) && (last.Taken? ==> Run(e, front).read < last.next)
  }

  function Run(e: Extent, ops: seq<SpaceOp>): Extent {
    if ops == [] then e else ExtentAfter(Run(e, ops[..|ops| - 1]), ops[|ops| - 1])
  }

  predicate HasTaken(ops: seq<SpaceOp>) {
    exists i :: 0 <= i < |ops| && ops[i].Taken?
  }

  /** No frame of an enqueue whose fsync failed is longer than `most`. */
  predicate FailuresWithin(ops: seq<SpaceOp>, most: nat) {
    forall i :: 0 <= i < |ops| && ops[i].LeftBehind? ==> ops[i].length <= most
  }

  /**
   * Over every run of operations the bytes behind the write offset stay within the longest frame whose fsync
   * failed, and the bytes in front of the read offset are within the threshold from the first dequeue on,
   * or from the start if they were so then. Without failures this is the compaction threshold itself.
   */
  lemma {:induction false} DeadBytesBounded(e: Extent, ops: seq<SpaceOp>, most: nat)
    requires 0 <= e.read <= e.write <= e.size && CanRun(e, ops)
    requires e.size - e.write <= most && FailuresWithin(ops, most)
    ensures var end := Run(e, ops);
      && 0 <= end.read <= end.write <= end.size
      && end.size - end.write <= most
      && (if HasTaken(ops) then end.read <= COMPACT_THRESHOLD else end.read == e.read)
      && (HasTaken(ops) || e.read <= COMPACT_THRESHOLD ==> Dead(end) <= COMPACT_THRESHOLD + most)
  {
    if ops != [] {
      var front, last := ops[..|ops| - 1], ops[|ops| - 1];
      DeadBytesBounded(e, front, most);
      assert HasTaken(ops) <==> HasTaken(front) || last.Taken? by {
        if HasTaken(front) {
          var i :| 0 <= i < |front| && front[i].Taken?;
          assert ops[i].Taken?;
        }
      }
    }
  }

  /**
   * What that means for a queue: after any run, its file is no longer than its live frames, the compaction
   * threshold and the longest frame whose fsync failed, if a dequeue succeeded or it was so at the start.
   */
  lemma SpaceAfterRun(q: DiskQueue, start: Extent, ops: seq<SpaceOp>, most: nat)
    requires q.Valid() && q.Extents() == Run(start, ops)
    requires 0 <= start.read <= start.write <= start.size && CanRun(start, ops)
    requires start.size - start.write <= most && FailuresWithin(ops, most)
    requires HasTaken(ops) || start.read <= COMPACT_THRESHOLD
    ensures |q.file| <= |Encode(FRAMES, Parse(FRAMES, q.Live()))| + 0x400_0000 + most
  {
    DeadBytesBounded(start, ops, most);
    FramesLawful();
    EncodeParsed(FRAMES, q.Live());
  }

  // ---- Where the threshold alone is not enough -----------------------------------------------------------

  /** A failed fsync leaves a long frame; a shorter one that succeeds does not cover it. */
  method LeftoverBreaksBound(q: DiskQueue, big: Event, small: Event) returns (r: Result<()>)
    requires q.Valid() && q.readOffset == COMPACT_THRESHOLD && |q.file| == q.writeOffset
    requires q.codec.marshal(big).Some? && q.codec.marshal(small).Some?
    requires |q.codec.marshal(small).value| < |q.codec.marshal(big).value|
    requires q.writeOffset + LENGTH_SIZE + |q.codec.marshal(big).value| < INT64_LIMIT
    modifies q`file, q`writeOffset, q`count
    ensures r.Ok? && q.Valid()
    ensures |q.file| > |Encode(FRAMES, Parse(FRAMES, q.Live()))| + COMPACT_THRESHOLD
  {
    hide DiskQueue.Valid, DiskQueue.Contents, Parse, Remainder, Encode, LoadOffset;
    var _ := q.Enqueue(big, IoSyncFailed);
    r := q.Enqueue(small, IoOk);
    SpaceBoundIff(q);
  }

  /** Opened from an offset that was saved before a compaction which a crash prevented, and not dequeued yet. */
  method OpenedAboveThreshold(codec: Codec, data: seq<byte>, event: Event) returns (q: DiskQueue, r: Result<()>)
    requires codec.Sound() && codec.marshal(event).Some?
    requires COMPACT_THRESHOLD < |data| && |data| + LENGTH_SIZE + |codec.marshal(event).value| < INT64_LIMIT
    requires Remainder(FRAMES, data[COMPACT_THRESHOLD + 1..]) == []
    ensures fresh(q) && r.Ok? && q.Valid()
    ensures |q.file| > |Encode(FRAMES, Parse(FRAMES, q.Live()))| + COMPACT_THRESHOLD
  {
    hide Parse, Remainder, Encode, LoadOffset, FormatInt;
    LoadPersisted(COMPACT_THRESHOLD + 1);
    q := new DiskQueue(codec, data, Some(FormatInt(COMPACT_THRESHOLD + 1)));
    assert q.Live() == data[COMPACT_THRESHOLD + 1..];
    r := q.Enqueue(event, IoOk);
    SpaceBoundIff(q);
  }
}
