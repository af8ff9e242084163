/** The byte format of the overflow file: frames of a 4-byte length and a payload. */
module OverflowFormat {
  import opened Options
  import opened BigEndian
  import opened PrefixCode

  const LENGTH_SIZE: nat := 4

  predicate FitsFrame(payload: seq<byte>) { |payload| < U32 }

  function EncodeFrame(payload: seq<byte>): (bs: seq<byte>)
    ensures |bs| == LENGTH_SIZE + |payload|
  {
    PutUint(LENGTH_SIZE, |payload|) + payload
  }

  function DecodeFrame(input: seq<byte>): Option<(seq<byte>, seq<byte>)> {
    if |input| < LENGTH_SIZE then None
    else
      var length := GetUint(input[..LENGTH_SIZE]);
      var body := input[LENGTH_SIZE..];
      if |body| < length then None else Some((body[..length], body[length..]))
  }

  const FRAMES: Format<seq<byte>> := Format(EncodeFrame, DecodeFrame, FitsFrame)

  /** The bytes of a frame: the length with the most significant byte first, then the payload. */
  lemma FrameBytes(payload: seq<byte>)
    ensures forall i :: 0 <= i < 4 ==> EncodeFrame(payload)[i] == |payload| / Pow256(3 - i) % 256
    ensures EncodeFrame(payload)[4..] == payload
  {
    forall i | 0 <= i < 4 ensures EncodeFrame(payload)[i] == |payload| / Pow256(3 - i) % 256 {
      PutByte(4, |payload|, i);
    }
  }

  lemma FramesLawful()
    ensures Lawful(FRAMES)
  {
    Pow256Widths();
    forall payload: seq<byte>, tail | FitsFrame(payload)
      ensures DecodeFrame(EncodeFrame(payload) + tail) == Some((payload, tail))
    {
      DecodeEncodedFrame(payload, tail);
    }
    forall input | DecodeFrame(input).Some?
      ensures FitsFrame(DecodeFrame(input).value.0)
      ensures EncodeFrame(DecodeFrame(input).value.0) + DecodeFrame(input).value.1 == input
    {
      EncodeDecodedFrame(input);
    }
  }

  lemma DecodeEncodedFrame(payload: seq<byte>, tail: seq<byte>)
    requires FitsFrame(payload)
    ensures DecodeFrame(EncodeFrame(payload) + tail) == Some((payload, tail))
  {
    Pow256Widths();
    GetPut(LENGTH_SIZE, |payload|);
    var input := EncodeFrame(payload) + tail;
    assert input[..LENGTH_SIZE] == PutUint(LENGTH_SIZE, |payload|);
    assert input[LENGTH_SIZE..] == payload + tail;
    assert (payload + tail)[..|payload|] == payload;
    assert (payload + tail)[|payload|..] == tail;
  }

  lemma EncodeDecodedFrame(input: seq<byte>)
    requires DecodeFrame(input).Some?
    ensures FitsFrame(DecodeFrame(input).value.0)
    ensures EncodeFrame(DecodeFrame(input).value.0) + DecodeFrame(input).value.1 == input
  {
    hide GetUint, PutUint, Pow256;
    Pow256Widths();
    var (payload, rest) := DecodeFrame(input).value;
    PutGet(input[..LENGTH_SIZE]);
    assert EncodeFrame(payload) == input[..LENGTH_SIZE] + payload;
    assert input == input[..LENGTH_SIZE] + input[LENGTH_SIZE..];
    assert input[LENGTH_SIZE..] == payload + rest;
  }

  lemma FrameAppended(input: seq<byte>, payload: seq<byte>)
    requires Remainder(FRAMES, input) == [] && FitsFrame(payload)
    ensures Parse(FRAMES, input + EncodeFrame(payload)) == Parse(FRAMES, input) + [payload]
    ensures Remainder(FRAMES, input + EncodeFrame(payload)) == []
  {
    FramesLawful();
    AppendWhole(FRAMES, input, payload);
  }

  /**
   * newDiskQueue does not cut off a torn frame. Enqueueing at the end of the file is safe for every
   * payload up to any size of at least one byte exactly when the file ends on a frame boundary.
   */
  lemma EnqueueSafeIffWhole(input: seq<byte>, limit: nat)
    requires 1 < limit <= U32
    ensures (forall payload: seq<byte> | |payload| < limit :: Survives(FRAMES, input, payload))
      <==> Remainder(FRAMES, input) == []
  {
    if Remainder(FRAMES, input) == [] {
      forall payload: seq<byte> | |payload| < limit ensures Survives(FRAMES, input, payload) {
        FrameAppended(input, payload);
      }
    } else if Survives(FRAMES, input, [0]) && Survives(FRAMES, input, [1]) {
      assert [] + [0 as byte] == [0] && [] + [1 as byte] == [1];
      LastByteDecides(input, [], 0, 1);
    }
  }

  /** Of the payloads that differ in the last byte only, at most one of the 256 survives behind a torn frame. */
  lemma LastByteDecides(input: seq<byte>, front: seq<byte>, b: byte, c: byte)
    requires |front| + 1 < U32 && Remainder(FRAMES, input) != []
    requires Survives(FRAMES, input, front + [b]) && Survives(FRAMES, input, front + [c])
    ensures b == c
  {
    hide Survives;
    FramesLawful();
    var h := PutUint(LENGTH_SIZE, |front| + 1) + front;
    assert EncodeFrame(front + [b]) == h + [b] && EncodeFrame(front + [c]) == h + [c];
    OneSurvivor(FRAMES, input, front + [b], front + [c]);
    assert (h + [b])[|h|] == b && (h + [c])[|h|] == c;
  }

  /** Frames behind a run of whole frames are read after it. */
  lemma FramesBehind(whole: seq<byte>, more: seq<byte>)
    requires Remainder(FRAMES, whole) == []
    ensures Parse(FRAMES, whole + more) == Parse(FRAMES, whole) + Parse(FRAMES, more)
    ensures Remainder(FRAMES, whole + more) == Remainder(FRAMES, more)
  {
    hide Lawful, Parse, Remainder;
    FramesLawful();
    EncodeParsed(FRAMES, whole);
    var frames := Parse(FRAMES, whole);
    assert Encode(FRAMES, frames) + [] == Encode(FRAMES, frames);
    ParseEncoded(FRAMES, frames, more);
  }

  lemma NoFrameIff(input: seq<byte>)
    ensures Parse(FRAMES, input) == [] <==> DecodeFrame(input).None?
    ensures Parse(FRAMES, input) != [] <==> DecodeFrame(input).Some?
  {
  }

  /** Bytes read like a run of whole frames exactly when they start with that run and no frame follows it. */
  lemma ReadsLikeIff(whole: seq<byte>, seen: seq<byte>)
    requires Remainder(FRAMES, whole) == []
    ensures Parse(FRAMES, seen) == Parse(FRAMES, whole) <==>
      whole <= seen && DecodeFrame(seen[|whole|..]).None?
  {
    hide Parse, Remainder, DecodeFrame;
    if Parse(FRAMES, seen) == Parse(FRAMES, whole) {
      SameFramesSameStart(whole, seen);
    }
    if whole <= seen {
      var rest := seen[|whole|..];
      assert seen == whole + rest;
      FramesBehind(whole, rest);
      NoFrameIff(rest);
    }
  }

  lemma SameFramesSameStart(whole: seq<byte>, seen: seq<byte>)
    requires Remainder(FRAMES, whole) == [] && Parse(FRAMES, seen) == Parse(FRAMES, whole)
    ensures whole <= seen
  {
    hide Parse, Remainder, Encode, Lawful;
    FramesLawful();
    EncodeParsed(FRAMES, whole);
    EncodeParsed(FRAMES, seen);
    assert whole == Encode(FRAMES, Parse(FRAMES, whole)) + [];
    assert seen == Encode(FRAMES, Parse(FRAMES, whole)) + Remainder(FRAMES, seen);
  }

  /** What scanCount counts: it looks at lengths only and may step past the end. */
  function Scan(input: seq<byte>): nat
    decreases |input|
  {
    if |input| < LENGTH_SIZE then 0
    else
      var next := LENGTH_SIZE + GetUint(input[..LENGTH_SIZE]);
      if next >= |input| then 1 else 1 + Scan(input[next..])
  }

  /**
   * On any bytes the scan finds the whole frames, and one more when a torn frame still shows its
   * length field. So the count is right exactly when fewer than four stray bytes follow.
   */
  lemma {:induction false} ScanCountsFrames(input: seq<byte>)
    ensures Scan(input) == |Parse(FRAMES, input)| + (if |Remainder(FRAMES, input)| >= LENGTH_SIZE then 1 else 0)
    decreases |input|
  {
    if |input| >= LENGTH_SIZE {
      var next := LENGTH_SIZE + GetUint(input[..LENGTH_SIZE]);
      if next <= |input| {
        assert input[LENGTH_SIZE..][next - LENGTH_SIZE..] == input[next..];
        ScanCountsFrames(input[next..]);
      }
    }
  }
}
