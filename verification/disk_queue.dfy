/** The disk-backed queue behind the hybrid buffer. The data file is modelled by its contents. */
module DiskQueues {
  import opened Options
  import opened BigEndian
  import opened Events
  import opened PrefixCode
  import opened Decimal
  import opened OverflowFormat

  const COMPACT_THRESHOLD: nat := 64 * 1024 * 1024

  function WriteAt(file: seq<byte>, offset: nat, data: seq<byte>): (after: seq<byte>)
    requires offset <= |file|
    ensures |after| == if offset + |data| > |file| then offset + |data| else |file|
    ensures after[..offset] == file[..offset] && after[offset..offset + |data|] == data
    ensures after[offset + |data|..] == if offset + |data| < |file| then file[offset + |data|..] else []
  {
    file[..offset] + data + (if offset + |data| < |file| then file[offset + |data|..] else [])
  }

  /** Where reading starts, given the offset on disk and the size of the file. */
  function Clamp(loaded: int, size: nat): (offset: int)
    ensures offset <= size && (loaded >= 0 ==> offset >= 0)
  {
    if loaded > size then size else loaded
  }

  /** The payloads as the reader will see them: None is one that cannot be unmarshalled. */
  function Decoded(codec: Codec, payloads: seq<seq<byte>>): (es: seq<Option<Event>>)
    ensures |es| == |payloads|
    ensures forall i :: 0 <= i < |es| ==> es[i] == codec.unmarshal(payloads[i])
  {
    seq(|payloads|, i requires 0 <= i < |payloads| => codec.unmarshal(payloads[i]))
  }

  /** Where reading and writing stand in the file, and how long it is. */
  datatype Extent = Extent(read: int, write: nat, size: nat)

  /** An enqueue, one whose fsync failed, and a dequeue of the frame that ends at `next`. */
  datatype SpaceOp = Appended(length: nat) | LeftBehind(length: nat) | Taken(next: nat)

  function Max(a: nat, b: nat): nat {
    if a > b then a else b
  }

  function ExtentAfter(e: Extent, op: SpaceOp): Extent {
    match op
    case Appended(n) => e.(write := e.write + n, size := Max(e.size, e.write + n))
    case LeftBehind(n) => e.(size := Max(e.size, e.write + n))
    case Taken(next) =>
      if next >= e.write then Extent(0, 0, 0)
      else if next > COMPACT_THRESHOLD then Extent(0, e.write - next, e.write - next)
      else e.(read := next)
  }

  datatype HeadResult = Nothing | Unreadable(error: Error) | Head(event: Event, next: nat)

  /** FIFO removal: the head goes, unless it cannot be unmarshalled and so stays where it is. */
  function DequeueSpec(queue: seq<Option<Event>>): (Result<Option<Event>>, seq<Option<Event>>) {
    if queue == [] then (Ok(None), [])
    else if queue[0].None? then (Err(UnmarshalFailed), queue)
    else (Ok(queue[0]), queue[1..])
  }

  lemma WriteAtEnd(file: seq<byte>, from: nat, to: nat, frame: seq<byte>)
    requires from <= to <= |file|
    ensures WriteAt(file, to, frame)[from..to] == file[from..to]
    ensures WriteAt(file, to, frame)[from..to + |frame|] == file[from..to] + frame
  {
  }

  lemma DecodedAppend(codec: Codec, payloads: seq<seq<byte>>, payload: seq<byte>)
    ensures Decoded(codec, payloads + [payload]) == Decoded(codec, payloads) + [codec.unmarshal(payload)]
  {
  }

  /** A frame written behind a run of whole frames, before and after the offset moves past it. */
  lemma EnqueueFrame(codec: Codec, file: seq<byte>, from: nat, to: nat, payload: seq<byte>)
    requires from <= to <= |file| && Remainder(FRAMES, file[from..to]) == [] && FitsFrame(payload)
    ensures var after, end := WriteAt(file, to, EncodeFrame(payload)), to + |EncodeFrame(payload)|;
      && after[from..to] == file[from..to]
      && Remainder(FRAMES, after[from..end]) == []
      && Decoded(codec, Parse(FRAMES, after[from..end]))
        == Decoded(codec, Parse(FRAMES, file[from..to])) + [codec.unmarshal(payload)]
  {
    WriteAtEnd(file, from, to, EncodeFrame(payload));
    FrameAppended(file[from..to], payload);
    DecodedAppend(codec, Parse(FRAMES, file[from..to]), payload);
  }

  /** The first frame of a run of whole frames, as the reader finds it. */
  lemma HeadFrame(file: seq<byte>, from: nat, to: nat)
    requires from < to <= |file| && Remainder(FRAMES, file[from..to]) == []
    ensures from + LENGTH_SIZE <= to
    ensures var length := GetUint(file[from..from + LENGTH_SIZE]);
      var next := from + LENGTH_SIZE + length;
      && next <= to
      && Parse(FRAMES, file[from..to]) == [file[from + LENGTH_SIZE..next]] + Parse(FRAMES, file[next..to])
      && Remainder(FRAMES, file[next..to]) == []
  {
    var live := file[from..to];
    assert DecodeFrame(live).Some?;
    assert live[..LENGTH_SIZE] == file[from..from + LENGTH_SIZE];
    var next := from + LENGTH_SIZE + GetUint(live[..LENGTH_SIZE]);
    assert live[LENGTH_SIZE..][..next - from - LENGTH_SIZE] == file[from + LENGTH_SIZE..next];
    assert live[LENGTH_SIZE..][next - from - LENGTH_SIZE..] == file[next..to];
  }

  /** The same, for the abstract queue: its head and what is left behind it. */
  lemma HeadEvent(codec: Codec, file: seq<byte>, from: nat, to: nat)
    requires from < to <= |file| && Remainder(FRAMES, file[from..to]) == []
    ensures from + LENGTH_SIZE <= to
    ensures var next := from + LENGTH_SIZE + GetUint(file[from..from + LENGTH_SIZE]);
      && next <= to
      && Decoded(codec, Parse(FRAMES, file[from..to]))
        == [codec.unmarshal(file[from + LENGTH_SIZE..next])] + Decoded(codec, Parse(FRAMES, file[next..to]))
      && Remainder(FRAMES, file[next..to]) == []
  {
    HeadFrame(file, from, to);
  }

  /** The queue is empty exactly when the reader has reached the end. */
  lemma NotLast(codec: Codec, file: seq<byte>, from: nat, to: nat)
    requires from <= to <= |file| && Remainder(FRAMES, file[from..to]) == []
    ensures Decoded(codec, Parse(FRAMES, file[from..to])) == [] <==> from == to
    ensures Decoded(codec, Parse(FRAMES, [])) == [] && Remainder(FRAMES, []) == []
  {
    if from < to {
      HeadFrame(file, from, to);
    }
  }

  class DiskQueue {
    const codec: Codec
    var file: seq<byte>
    var offsetFile: Option<string>
    var readOffset: int
    var writeOffset: nat
    var count: int

    ghost predicate InBounds()
      reads this
    {
      0 <= readOffset <= writeOffset <= |file|
    }

    /** The bytes still to be read. */
    function Live(): (bytes: seq<byte>)
      requires InBounds()
      reads this
      ensures |bytes| == writeOffset - readOffset
    {
      file[readOffset..writeOffset]
    }

    function Extents(): Extent
      reads this
    {
      Extent(readOffset, writeOffset, |file|)
    }

    /** The abstract queue. */
    ghost function Contents(): seq<Option<Event>>
      requires InBounds()
      reads this
    {
      Decoded(codec, Parse(FRAMES, Live()))
    }

    /** The live bytes are exactly the frames of the abstract queue, and `count` is its length. */
    ghost predicate Valid()
      reads this
      ensures Valid() ==> InBounds() && count == |Contents()|
    {
      && codec.Sound()
      && InBounds()
      && writeOffset < INT64_LIMIT
      && Remainder(FRAMES, Live()) == []
      && count == |Contents()|
    }

    /** The offset on disk is the one in memory and no bytes lie beyond the last frame. */
    ghost predicate Reopenable()
      reads this
    {
      LoadOffset(offsetFile) == readOffset && |file| == writeOffset
    }

    constructor (codec: Codec, data: seq<byte>, offset: Option<string>)
      ensures this.codec == codec && file == data && offsetFile == offset
      ensures writeOffset == |data|
      ensures readOffset == Clamp(LoadOffset(offset), |data|)
      ensures offset.None? ==> readOffset == 0
      ensures readOffset >= 0 ==>
        && InBounds()
        && count == |Contents()| + (if |Remainder(FRAMES, Live())| >= LENGTH_SIZE then 1 else 0)
      ensures readOffset < 0 ==> count == 0
    {
      this.codec := codec;
      file := data;
      offsetFile := offset;
      writeOffset := |data|;
      var loaded := LoadOffset(offset);
      readOffset := loaded;
      if loaded > |data| {
        readOffset := |data|;
      }
      new;
      count := ScanCount();
      if readOffset >= 0 {
        ScanCountsFrames(Live());
      }
    }

    method ScanCount() returns (n: nat)
      requires readOffset <= writeOffset == |file|
      ensures readOffset >= 0 ==> n == Scan(Live())
      ensures readOffset < 0 ==> n == 0
    {
      n := 0;
      var pos := readOffset;
      while pos < writeOffset
        invariant readOffset >= 0 ==> pos >= 0
        invariant readOffset >= 0 ==> n + (if pos < writeOffset then Scan(file[pos..]) else 0) == Scan(file[readOffset..])
        invariant readOffset < 0 ==> n == 0 && pos == readOffset
        decreases writeOffset - pos
      {
        if pos < 0 || pos + LENGTH_SIZE > |file| {
          break;
        }
        var entryLen := GetUint(file[pos..pos + LENGTH_SIZE]);
        assert file[pos..][..LENGTH_SIZE] == file[pos..pos + LENGTH_SIZE];
        if pos + LENGTH_SIZE + entryLen < |file| {
          assert file[pos..][LENGTH_SIZE + entryLen..] == file[pos + LENGTH_SIZE + entryLen..];
        }
        pos := pos + LENGTH_SIZE + entryLen;
        n := n + 1;
      }
      if readOffset >= 0 {
        assert file[readOffset..] == file[readOffset..writeOffset];
      }
    }

    /** A failed sync leaves the frame in the file, behind the bytes that belong to the queue. */
    method Enqueue(event: Event, io: IoOutcome) returns (r: Result<()>)
      requires writeOffset <= |file|
      requires codec.marshal(event).Some? ==>
        writeOffset + LENGTH_SIZE + |codec.marshal(event).value| < INT64_LIMIT
      modifies this`file, this`writeOffset, this`count
      ensures r == (if codec.marshal(event).None? then Err(MarshalFailed)
        else match io case IoOk => Ok(()) case IoWriteFailed => Err(WriteFailed) case IoSyncFailed => Err(SyncFailed))
      ensures codec.marshal(event).None? || io.IoWriteFailed? ==> unchanged(this)
      ensures codec.marshal(event).Some? && !io.IoWriteFailed? ==>
        && file == WriteAt(old(file), old(writeOffset), EncodeFrame(codec.marshal(event).value))
        && writeOffset == old(writeOffset) + (if io.IoOk? then LENGTH_SIZE + |codec.marshal(event).value| else 0)
        && count == old(count) + (if io.IoOk? then 1 else 0)
        && var n := LENGTH_SIZE + |codec.marshal(event).value|;
          Extents() == ExtentAfter(old(Extents()), if io.IoOk? then Appended(n) else LeftBehind(n))
      ensures old(Valid()) ==> Valid() && Contents() == old(Contents()) + (if r.Ok? then [Some(event)] else [])
      ensures old(Reopenable()) && !io.IoSyncFailed? ==> Reopenable()
    {
      hide Parse, Remainder, Decoded, LoadOffset, WriteAt, EncodeFrame;
      var data := codec.marshal(event);
      if data.None? {
        return Err(MarshalFailed);
      }
      if io.IoWriteFailed? {
        return Err(WriteFailed);
      }
      var frame := EncodeFrame(data.value);
      if Valid() {
        EnqueueFrame(codec, file, readOffset, writeOffset, data.value);
      }
      file := WriteAt(file, writeOffset, frame);
      if io.IoSyncFailed? {
        return Err(SyncFailed);
      }
      writeOffset := writeOffset + |frame|;
      count := count + 1;
      return Ok(());
    }

    /**
     * The head of the queue, or None when it is empty. A payload that does not unmarshal stays, and
     * a negative offset loaded from disk makes every call fail.
     */
    method Dequeue() returns (r: Result<Option<Event>>)
      requires readOffset <= writeOffset <= |file|
      modifies this`file, this`offsetFile, this`readOffset, this`writeOffset, this`count
      ensures readOffset <= writeOffset <= |file|
      ensures r.Err? || r.value.None? ==> unchanged(this)
      ensures old(readOffset) < 0 ==> r == Err(ReadFailed)
      ensures old(Valid()) ==> Valid() && (r, Contents()) == DequeueSpec(old(Contents()))
      ensures r.Ok? && r.value.Some? ==> readOffset <= COMPACT_THRESHOLD
      ensures r.Ok? && r.value.Some? ==>
        exists next :: old(readOffset) < next && Extents() == ExtentAfter(old(Extents()), Taken(next))
      ensures old(readOffset) <= COMPACT_THRESHOLD ==> readOffset <= COMPACT_THRESHOLD
      ensures old(Valid()) && r.Ok? && r.value.Some? ==> LoadOffset(offsetFile) == readOffset
      ensures old(Valid()) && r.Ok? && r.value.Some? && Contents() == [] ==> file == []
      ensures old(Valid() && Reopenable()) ==> Reopenable()
    {
      var head := ReadHead();
      match head {
        case Nothing => return Ok(None);
        case Unreadable(error) => return Err(error);
        case Head(event, next) =>
          if Valid() {
            NotLast(codec, file, next, writeOffset);
          }
          hide Parse, Remainder, Decoded, LoadOffset;
          Advance(next);
          return Ok(Some(event));
      }
    }

    /** Reads the frame at the read offset without moving past it. */
    method ReadHead() returns (head: HeadResult)
      requires readOffset <= writeOffset <= |file|
      ensures head.Head? ==> 0 <= readOffset < head.next <= |file|
      ensures readOffset < 0 ==> head == Unreadable(ReadFailed)
      ensures Valid() ==>
        match head
        case Nothing => Contents() == []
        case Unreadable(error) => error == UnmarshalFailed && Contents() != [] && Contents()[0].None?
        case Head(event, next) =>
          && next <= writeOffset
          && Contents() == [Some(event)] + Decoded(codec, Parse(FRAMES, file[next..writeOffset]))
          && Remainder(FRAMES, file[next..writeOffset]) == []
    {
      hide Parse, Remainder, Decoded, LoadOffset, GetUint, Codec.Sound;
      if Valid() {
        NotLast(codec, file, readOffset, writeOffset);
      }
      if readOffset >= writeOffset {
        return Nothing;
      }
      if Valid() {
        HeadEvent(codec, file, readOffset, writeOffset);
      }
      if readOffset < 0 || readOffset + LENGTH_SIZE > |file| {
        return Unreadable(ReadFailed);
      }
      var entryLen := GetUint(file[readOffset..readOffset + LENGTH_SIZE]);
      var next := readOffset + LENGTH_SIZE + entryLen;
      if next > |file| {
        return Unreadable(ReadFailed);
      }
      var event := codec.unmarshal(file[readOffset + LENGTH_SIZE..next]);
      if event.None? {
        return Unreadable(UnmarshalFailed);
      }
      return Head(event.value, next);
    }

    /** Moves past one frame, persists the offset and compacts when that is due. */
    method Advance(next: nat)
      requires InBounds() && readOffset < next <= |file|
      modifies this`file, this`offsetFile, this`readOffset, this`writeOffset, this`count
      ensures InBounds() && readOffset <= COMPACT_THRESHOLD
      ensures Live() == if next < old(writeOffset) then old(file[next..writeOffset]) else []
      ensures readOffset == if next < old(writeOffset) && next <= COMPACT_THRESHOLD then next else 0
      ensures next < old(writeOffset) && next <= COMPACT_THRESHOLD ==> file == old(file) && writeOffset == old(writeOffset)
      ensures count == old(count) - 1 && writeOffset <= old(writeOffset)
      ensures Extents() == ExtentAfter(old(Extents()), Taken(next))
      ensures next >= old(writeOffset) ==> file == []
      ensures |old(file)| == old(writeOffset) ==> |file| == writeOffset
      ensures readOffset < INT64_LIMIT ==> LoadOffset(offsetFile) == readOffset
    {
      readOffset := next;
      count := count - 1;
      PersistOffset();
      if readOffset >= writeOffset {
        Compact();
      } else if readOffset > COMPACT_THRESHOLD {
        Compact();
      }
      if readOffset < INT64_LIMIT {
        LoadPersisted(readOffset);
      }
    }

    method PersistOffset()
      modifies this`offsetFile
      ensures offsetFile == Some(FormatInt(readOffset))
    {
      offsetFile := Some(FormatInt(readOffset));
    }

    /** Moves the live bytes to the front of the file; the abstract queue does not change. */
    method Compact()
      requires 0 <= readOffset && writeOffset <= |file|
      modifies this`file, this`offsetFile, this`readOffset, this`writeOffset
      ensures readOffset == 0 && offsetFile == Some(FormatInt(0))
      ensures file == if old(readOffset < writeOffset) then old(file[readOffset..writeOffset]) else []
      ensures writeOffset == |file|
    {
      var remaining := writeOffset - readOffset;
      if remaining <= 0 {
        file := [];
        readOffset, writeOffset := 0, 0;
        PersistOffset();
        return;
      }
      var buf := file[readOffset..writeOffset];
      file := WriteAt(file, 0, buf);
      file := file[..remaining];
      assert file == buf;
      readOffset, writeOffset := 0, remaining;
      PersistOffset();
    }
  }
}
