/** The byte format of the write-ahead log and of its acknowledgement file. */
module WalFormat {
  import opened Options
  import opened BigEndian
  import opened PrefixCode

  datatype Record = Record(seqNo: nat, payload: seq<byte>)

  const HEADER_SIZE: nat := 12

  /** Both header fields are wide enough for the record. */
  predicate Fits(r: Record) {
    r.seqNo < U64 && |r.payload| < U32
  }

  function EncodeRecord(r: Record): (bs: seq<byte>)
    ensures |bs| == HEADER_SIZE + |r.payload|
  {
    PutUint(8, r.seqNo) + PutUint(4, |r.payload|) + r.payload
  }

  /** Outcome of reading one record from a reader that still holds `input`. */
  datatype ReadResult = Eof | UnexpectedEof | Read(rec: Record, rest: seq<byte>)

  /** io.ReadFull reports Eof when it gets no byte at all and UnexpectedEof when it gets too few. */
  function ReadRecord(input: seq<byte>): (r: ReadResult)
    ensures r.Read? ==> |r.rest| + HEADER_SIZE + |r.rec.payload| == |input|
  {
    if |input| == 0 then Eof
    else if |input| < HEADER_SIZE then UnexpectedEof
    else
      var seqNo := GetUint(input[..8]);
      var length := GetUint(input[8..12]);
      var body := input[12..];
      if length > 0 && |body| == 0 then Eof
      else if |body| < length then UnexpectedEof
      else Read(Record(seqNo, body[..length]), body[length..])
  }

  function DecodeRecord(input: seq<byte>): Option<(Record, seq<byte>)> {
    match ReadRecord(input)
    case Read(rec, rest) => Some((rec, rest))
    case _ => None
  }

  const LOG: Format<Record> := Format(EncodeRecord, DecodeRecord, Fits)

  /** The log file's bytes, and what a read loop makes of any bytes. */
  function EncodeLog(rs: seq<Record>): seq<byte> { Encode(LOG, rs) }
  function ParseLog(input: seq<byte>): seq<Record> { Parse(LOG, input) }

  /** A log that ends on a record boundary. */
  predicate Aligned(input: seq<byte>) {
    Remainder(LOG, input) == []
  }

  /** A written record is read back exactly when both header fields are wide enough for it. */
  lemma ReadBackIffFits(r: Record, tail: seq<byte>)
    ensures ReadRecord(EncodeRecord(r) + tail) == Read(r, tail) <==> Fits(r)
  {
    var input := EncodeRecord(r) + tail;
    assert input[..8] == PutUint(8, r.seqNo);
    assert input[8..12] == PutUint(4, |r.payload|);
    assert input[12..] == r.payload + tail;
    GetPut(8, r.seqNo);
    GetPut(4, |r.payload|);
    Pow256Widths();
    if Fits(r) {
      assert (r.payload + tail)[..|r.payload|] == r.payload;
      assert (r.payload + tail)[|r.payload|..] == tail;
    }
  }

  /** The bytes of a record: number, length and payload, both fields with the most significant byte first. */
  lemma RecordBytes(r: Record)
    ensures forall i :: 0 <= i < 8 ==> EncodeRecord(r)[i] == r.seqNo / Pow256(7 - i) % 256
    ensures forall i :: 8 <= i < 12 ==> EncodeRecord(r)[i] == |r.payload| / Pow256(11 - i) % 256
    ensures EncodeRecord(r)[12..] == r.payload
  {
    hide Pow256, PutUint;
    forall i | 0 <= i < 8 ensures EncodeRecord(r)[i] == r.seqNo / Pow256(7 - i) % 256 {
      PutByte(8, r.seqNo, i);
    }
    forall i | 8 <= i < 12 ensures EncodeRecord(r)[i] == |r.payload| / Pow256(11 - i) % 256 {
      PutByte(4, |r.payload|, i - 8);
    }
  }

  /** What was read, written again, gives the bytes that were read. */
  lemma RewriteRead(input: seq<byte>)
    requires ReadRecord(input).Read?
    ensures Fits(ReadRecord(input).rec)
    ensures EncodeRecord(ReadRecord(input).rec) + ReadRecord(input).rest == input
  {
    var Read(rec, rest) := ReadRecord(input);
    PutGet(input[..8]);
    PutGet(input[8..12]);
    Pow256Widths();
    assert EncodeRecord(rec) == input[..8] + input[8..12] + rec.payload;
    assert input == input[..8] + input[8..12] + input[12..];
  }

  lemma LogLawful()
    ensures Lawful(LOG)
  {
    forall r, tail | Fits(r) ensures DecodeRecord(EncodeRecord(r) + tail) == Some((r, tail)) {
      ReadBackIffFits(r, tail);
    }
    forall input | DecodeRecord(input).Some?
      ensures Fits(DecodeRecord(input).value.0)
      ensures EncodeRecord(DecodeRecord(input).value.0) + DecodeRecord(input).value.1 == input
    {
      RewriteRead(input);
    }
  }

  lemma LogWhole(rs: seq<Record>)
    requires forall i :: 0 <= i < |rs| ==> Fits(rs[i])
    ensures ParseLog(EncodeLog(rs)) == rs && Aligned(EncodeLog(rs))
  {
    LogLawful();
    ParseWhole(LOG, rs);
  }

  lemma LogAppend(input: seq<byte>, r: Record)
    requires Aligned(input) && Fits(r)
    ensures ParseLog(input + EncodeRecord(r)) == ParseLog(input) + [r]
    ensures Aligned(input + EncodeRecord(r))
  {
    LogLawful();
    AppendWhole(LOG, input, r);
  }

  /**
   * NewFileWAL opens the log for appending without cutting off a torn tail. Whatever number the next
   * record gets, appending it is safe for every payload exactly when the log ends on a record boundary;
   * otherwise a payload of a single byte is lost.
   */
  lemma AppendSafeIffAligned(input: seq<byte>, n: nat)
    requires n < U64
    ensures (forall payload: seq<byte> | |payload| < U32 :: Survives(LOG, input, Record(n, payload))) <==> Aligned(input)
  {
    hide Parse, Remainder, EncodeRecord;
    if Aligned(input) {
      forall payload: seq<byte> | |payload| < U32
        ensures Survives(LOG, input, Record(n, payload)) {
        LogAppend(input, Record(n, payload));
      }
    } else {
      var b := OneByteLost(input, n);
    }
  }

  /** The next record is lost or misread behind a torn tail, if its payload is a certain single byte. */
  lemma OneByteLost(input: seq<byte>, n: nat) returns (b: byte)
    requires n < U64 && !Aligned(input)
    ensures !Survives(LOG, input, Record(n, [b]))
  {
    hide Survives, Remainder;
    b := 0;
    if Survives(LOG, input, Record(n, [b])) {
      b := 1;
      if Survives(LOG, input, Record(n, [b])) {
        assert [] + [0 as byte] == [0] && [] + [1 as byte] == [1];
        LastByteDecides(input, n, [], 0, 1);
      }
    }
  }

  /**
   * Of the records with one number whose payloads differ in the last byte only, at most one of the 256
   * survives behind a torn tail.
   */
  lemma LastByteDecides(input: seq<byte>, n: nat, front: seq<byte>, b: byte, c: byte)
    requires n < U64 && |front| + 1 < U32 && !Aligned(input)
    requires Survives(LOG, input, Record(n, front + [b])) && Survives(LOG, input, Record(n, front + [c]))
    ensures b == c
  {
    hide Survives;
    LogLawful();
    var x, y := Record(n, front + [b]), Record(n, front + [c]);
    var h := PutUint(8, n) + PutUint(4, |front| + 1) + front;
    assert EncodeRecord(x) == h + [b] && EncodeRecord(y) == h + [c];
    OneSurvivor(LOG, input, x, y);
    assert (h + [b])[|h|] == b && (h + [c])[|h|] == c;
  }

  // ---- The acknowledgement file -------------------------------------------------------------

  const ACK_SIZE: nat := 8

  predicate FitsAck(n: nat) { n < U64 }

  function EncodeAck(n: nat): (bs: seq<byte>)
    ensures |bs| == ACK_SIZE
  {
    PutUint(ACK_SIZE, n)
  }

  lemma AckBytesOf(n: nat)
    ensures forall i :: 0 <= i < 8 ==> EncodeAck(n)[i] == n / Pow256(7 - i) % 256
  {
    forall i | 0 <= i < 8 ensures EncodeAck(n)[i] == n / Pow256(7 - i) % 256 {
      PutByte(8, n, i);
    }
  }

  function DecodeAck(input: seq<byte>): Option<(nat, seq<byte>)> {
    if |input| < ACK_SIZE then None else Some((GetUint(input[..ACK_SIZE]), input[ACK_SIZE..]))
  }

  const ACKS: Format<nat> := Format(EncodeAck, DecodeAck, FitsAck)

  function EncodeAcks(ns: seq<nat>): seq<byte> { Encode(ACKS, ns) }
  function ParseAcks(input: seq<byte>): seq<nat> { Parse(ACKS, input) }

  lemma AcksLawful()
    ensures Lawful(ACKS)
  {
    Pow256Widths();
    forall n: nat, tail | FitsAck(n) ensures DecodeAck(EncodeAck(n) + tail) == Some((n, tail)) {
      GetPut(ACK_SIZE, n);
      assert (EncodeAck(n) + tail)[..ACK_SIZE] == EncodeAck(n);
      assert (EncodeAck(n) + tail)[ACK_SIZE..] == tail;
    }
    forall input | DecodeAck(input).Some?
      ensures FitsAck(DecodeAck(input).value.0)
      ensures EncodeAck(DecodeAck(input).value.0) + DecodeAck(input).value.1 == input
    {
      PutGet(input[..ACK_SIZE]);
      assert input == input[..ACK_SIZE] + input[ACK_SIZE..];
    }
  }

  lemma {:induction false} AckRemainder(input: seq<byte>)
    ensures |Remainder(ACKS, input)| == |input| % ACK_SIZE
    decreases |input|
  {
    if |input| >= ACK_SIZE {
      AckRemainder(input[ACK_SIZE..]);
    }
  }

  lemma AcksAppend(input: seq<byte>, n: nat)
    requires |input| % ACK_SIZE == 0 && n < U64
    ensures ParseAcks(input + EncodeAck(n)) == ParseAcks(input) + [n]
  {
    AcksLawful();
    AckRemainder(input);
    AppendWhole(ACKS, input, n);
  }

  /**
   * Whichever numbers below a limit may be acknowledged next, appending is safe for all of them exactly
   * on an 8-byte boundary; otherwise number 1 is lost.
   */
  lemma AckAppendSafeIffAligned(input: seq<byte>, limit: nat)
    requires 1 < limit <= U64
    ensures (forall n: nat | 1 <= n < limit :: Survives(ACKS, input, n)) <==> |input| % ACK_SIZE == 0
  {
    if |input| % ACK_SIZE == 0 {
      forall n: nat | 1 <= n < limit ensures Survives(ACKS, input, n) {
        AcksAppend(input, n);
      }
    } else {
      FirstAckLost(input);
    }
  }

  lemma FirstAckLost(input: seq<byte>)
    requires |input| % ACK_SIZE != 0
    ensures !Survives(ACKS, input, 1)
  {
    hide Survives, Remainder;
    AcksLawful();
    AckRemainder(input);
    SmallNumber();
    if Survives(ACKS, input, 1) {
      SurvivorRepeats(ACKS, input, 1);
      OneNeverRepeats(|Remainder(ACKS, input)|);
    }
  }

  lemma OneNeverRepeats(p: nat)
    requires 0 < p < ACK_SIZE
    ensures EncodeAck(1)[ACK_SIZE - 1] != EncodeAck(1)[ACK_SIZE - 1 - p]
  {
    SmallNumber();
  }

  lemma SmallNumber()
    ensures EncodeAck(1) == [0, 0, 0, 0, 0, 0, 0, 1]
  {
    assert PutUint(3, 0) == [0, 0, 0];
    assert PutUint(7, 0) == [0, 0, 0, 0, 0, 0, 0];
  }
}
