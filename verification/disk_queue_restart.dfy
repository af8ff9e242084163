/** The disk queue across restarts and crashes, and the space it takes. */
module DiskQueueRestart {
  import opened Options
  import opened BigEndian
  import opened Events
  import opened PrefixCode
  import opened Decimal
  import opened OverflowFormat
  import opened DiskQueues

  // ---- Closing and opening again ------------------------------------------------------------------

  /**
   * Closing and opening again brings back the queue and, behind it, whatever frames lie past the write
   * offset: those of enqueues that were reported as failed because their fsync failed. Contents and count
   * are restored exactly when there are no such frames, and in particular if no fsync ever failed.
   */
  method Reopen(q: DiskQueue) returns (q': DiskQueue)
    requires q.Valid() && LoadOffset(q.offsetFile) == q.readOffset
    ensures fresh(q') && q'.InBounds() && q'.readOffset == q.readOffset
    ensures q'.Contents() == q.Contents() + Decoded(q.codec, Parse(FRAMES, q.file[q.writeOffset..]))
    ensures q'.Contents() == q.Contents() <==> DecodeFrame(q.file[q.writeOffset..]).None?
    ensures q'.count == q.count <==> |q.file| - q.writeOffset < LENGTH_SIZE
    ensures q.Reopenable() ==> q'.Valid() && q'.Reopenable()
  {
    hide Parse, Remainder, Decoded, LoadOffset, DecodeFrame, Scan;
    q' := new DiskQueue(q.codec, q.file, q.offsetFile);
    assert q'.Live() == q.file[q.readOffset..];
    ReopenAfterFailedSyncIff(q.file, q.readOffset, q.writeOffset);
    DecodedConcat(q.codec, Parse(FRAMES, q.Live()), Parse(FRAMES, q.file[q.writeOffset..]));
    ScanCountsFrames(q'.Live());
    if q.Reopenable() {
      assert q'.Live() == q.Live();
    }
  }

  lemma DecodedConcat(codec: Codec, ps: seq<seq<byte>>, more: seq<seq<byte>>)
    ensures Decoded(codec, ps + more) == Decoded(codec, ps) + Decoded(codec, more)
  {
  }

  /**
   * What is read from a file whose queue ends at `w` but which goes on behind it: the queue and the
   * frames behind it. So the queue is restored exactly when no whole frame starts at `w`, and the count
   * exactly when fewer than four bytes lie behind it.
   */
  lemma ReopenAfterFailedSyncIff(file: seq<byte>, from: nat, w: nat)
    requires from <= w <= |file| && Remainder(FRAMES, file[from..w]) == []
    ensures Parse(FRAMES, file[from..]) == Parse(FRAMES, file[from..w]) + Parse(FRAMES, file[w..])
    ensures Remainder(FRAMES, file[from..]) == Remainder(FRAMES, file[w..])
    ensures Parse(FRAMES, file[from..]) == Parse(FRAMES, file[from..w]) <==> DecodeFrame(file[w..]).None?
    ensures Scan(file[from..]) == |Parse(FRAMES, file[from..w])| <==> |file| - w < LENGTH_SIZE
  {
    assert file[from..] == file[from..w] + file[w..];
    NoFrameIff(file[w..]);
    assert Scan(file[w..]) == 0 <==> |file[w..]| < LENGTH_SIZE;
    hide Parse, Remainder, Scan;
    FramesBehind(file[from..w], file[w..]);
    ScanCountsFrames(file[from..]);
    ScanCountsFrames(file[w..]);
  }

  /** The case that arises: after a failed fsync, a restart brings back the event that was reported as failed. */
  lemma FailedSyncComesBack(file: seq<byte>, from: nat, payload: seq<byte>)
    requires from <= |file| && Remainder(FRAMES, file[from..]) == [] && FitsFrame(payload)
    ensures Parse(FRAMES, WriteAt(file, |file|, EncodeFrame(payload))[from..]) == Parse(FRAMES, file[from..]) + [payload]
  {
    hide Parse, Remainder, EncodeFrame;
    FrameAppended(file[from..], payload);
    assert WriteAt(file, |file|, EncodeFrame(payload))[from..] == file[from..] + EncodeFrame(payload);
  }

  // ---- Stale offsets --------------------------------------------------------------------------------

  /**
   * Which offsets on disk are good enough, with the queue between `from` and `w`: those from which, once
   * clamped, the file starts with the bytes of the queue and has no whole frame behind them. With nothing
   * behind `w`, that is the true offset and any earlier one from which the file reads the same.
   */
  lemma ReopenRestoresIff(file: seq<byte>, from: nat, w: nat, loaded: nat)
    requires from <= w <= |file| && Remainder(FRAMES, file[from..w]) == []
    ensures var at := Clamp(loaded, |file|);
      var end := at + (w - from);
      Parse(FRAMES, file[at..]) == Parse(FRAMES, file[from..w]) <==>
        end <= |file| && file[at..end] == file[from..w] && DecodeFrame(file[end..]).None?
  {
    hide Parse, Remainder;
    var at := Clamp(loaded, |file|);
    var live, seen := file[from..w], file[at..];
    ReadsLikeIff(live, seen);
    if at + |live| <= |file| {
      assert seen[..|live|] == file[at..at + |live|];
      assert seen[|live|..] == file[at + |live|..];
    }
  }

  /** An offset saved some frames ago, as after a crash before it was saved again, brings those frames back. */
  lemma EarlierOffsetReplays(file: seq<byte>, earlier: nat, from: nat)
    requires earlier <= from <= |file| && Remainder(FRAMES, file[earlier..from]) == []
    ensures Parse(FRAMES, file[earlier..]) == Parse(FRAMES, file[earlier..from]) + Parse(FRAMES, file[from..])
  {
    assert file[earlier..] == file[earlier..from] + file[from..];
    FramesBehind(file[earlier..from], file[from..]);
  }

  /** A crash between truncating an emptied file and persisting offset 0 still opens as empty. */
  method TruncateCrashOpensEmpty(codec: Codec, offset: Option<string>) returns (q: DiskQueue)
    ensures fresh(q) && q.count == 0
    ensures LoadOffset(offset) >= 0 ==> q.InBounds() && q.readOffset == 0 && q.Contents() == []
    ensures LoadOffset(offset) >= 0 && codec.Sound() ==> q.Valid()
  {
    q := new DiskQueue(codec, [], offset);
    NotLast(codec, [], 0, 0);
  }

  /**
   * But the stale offset is still on disk: Enqueue does not rewrite it, so a second restart before
   * the next Dequeue does not restore what was queued in between.
   */
  lemma StaleOffsetLosesLaterEvents(payloads: seq<seq<byte>>, loaded: nat)
    requires payloads != [] && loaded > 0
    requires forall i :: 0 <= i < |payloads| ==> FitsFrame(payloads[i])
    ensures var file := Encode(FRAMES, payloads);
      && Parse(FRAMES, file) == payloads
      && Parse(FRAMES, file[Clamp(loaded, |file|)..]) != payloads
  {
    FramesLawful();
    var file := Encode(FRAMES, payloads);
    ParseWhole(FRAMES, payloads);
    assert file[0..] == file[0..|file|] == file;
    ReopenRestoresIff(file, 0, |file|, loaded);
  }

  // ---- Crashes during compaction ----------------------------------------------------------------------

  /** The file after a crash in which compaction had moved only the first `k` live bytes to the front. */
  function MovedPart(file: seq<byte>, from: nat, k: nat): (after: seq<byte>)
    requires from + k <= |file|
    ensures |after| == |file|
  {
    WriteAt(file, 0, file[from..from + k])
  }

  /**
   * A crash during the move, or after it and before the truncation, with the queue between `from` and `w`.
   * Read from the offset that is still on disk, the queue survives exactly when the part that was moved fits
   * in front of that offset, or happens to repeat the bytes that it overwrites, and no frame of a failed
   * enqueue lies behind `w`.
   */
  lemma MoveCrashSafeIff(file: seq<byte>, from: nat, w: nat, k: nat)
    requires from + k <= w <= |file| && Remainder(FRAMES, file[from..w]) == []
    ensures var live := file[from..w];
      Parse(FRAMES, MovedPart(file, from, k)[from..]) == Parse(FRAMES, live) <==>
        (k <= from || live[..k - from] == live[from..k]) && DecodeFrame(file[w..]).None?
  {
    hide Parse, Remainder, MovedPart, DecodeFrame;
    var live, after := file[from..w], MovedPart(file, from, k)[from..];
    AfterMove(file, from, w, k);
    ReadsLikeIff(live, after);
  }

  lemma MovedTail(file: seq<byte>, from: nat, k: nat)
    requires from + k <= |file|
    ensures k <= from ==> MovedPart(file, from, k)[from..] == file[from..]
    ensures k > from ==> MovedPart(file, from, k)[from..] == file[from + from..from + k] + file[k..]
  {
    assert MovedPart(file, from, k) == file[from..from + k] + file[k..];
  }

  /** The bytes read after the move: those of the queue with the moved part over its front, then the others. */
  lemma AfterMove(file: seq<byte>, from: nat, w: nat, k: nat)
    requires from + k <= w <= |file|
    ensures var live, after := file[from..w], MovedPart(file, from, k)[from..];
      && |after| == |live| + |file[w..]| && after[|live|..] == file[w..]
      && (live <= after <==> k <= from || live[..k - from] == live[from..k])
  {
    hide MovedPart;
    var live, after := file[from..w], MovedPart(file, from, k)[from..];
    MovedTail(file, from, k);
    if k <= from {
      assert after == live + file[w..];
    } else {
      Slices(file, from, w, k);
      FrontReplaced(live, live[from..k], file[w..]);
      ConcatAssoc(live[from..k], live[k - from..], file[w..]);
    }
  }

  lemma Slices(file: seq<byte>, from: nat, w: nat, k: nat)
    requires from <= k && from + k <= w <= |file|
    ensures file[from + from..from + k] == file[from..w][from..k]
    ensures file[k..] == file[from..w][k - from..] + file[w..]
  {
    SliceOfSlice(file, from, w, from, k);
    SliceOfSlice(file, from, w, k - from, w - from);
    assert file[from..w][k - from..w - from] == file[from..w][k - from..];
    assert file[k..] == file[k..w] + file[w..];
  }

  lemma SliceOfSlice(s: seq<byte>, a: nat, b: nat, i: nat, j: nat)
    requires a <= b <= |s| && i <= j <= b - a
    ensures s[a..b][i..j] == s[a + i..a + j]
  {
    var whole, part := s[a..b], s[a..b][i..j];
    assert |part| == |s[a + i..a + j]|;
    forall t | 0 <= t < j - i ensures part[t] == s[a + i..a + j][t] {
      assert part[t] == whole[i + t] == s[a + i + t];
    }
  }

  lemma FrontReplaced(live: seq<byte>, front: seq<byte>, rest: seq<byte>)
    requires |front| <= |live|
    ensures var after := front + live[|front|..] + rest;
      after[|live|..] == rest && (live <= after <==> live[..|front|] == front)
  {
    var after := front + live[|front|..] + rest;
    assert after[..|front|] == front;
    assert after[..|live|] == front + live[|front|..];
    if live <= after {
      assert live[..|front|] == after[..|live|][..|front|];
    }
    if live[..|front|] == front {
      assert live == live[..|front|] + live[|front|..];
    }
  }

  predicate SameSize(payloads: seq<seq<byte>>, size: nat) {
    forall i :: 0 <= i < |payloads| ==> |payloads[i]| == size
  }

  lemma {:induction false} EncodedSize(payloads: seq<seq<byte>>, size: nat)
    requires SameSize(payloads, size)
    ensures |Encode(FRAMES, payloads)| == |payloads| * (LENGTH_SIZE + size)
  {
    if payloads != [] {
      EncodedSize(payloads[1..], size);
      assert |payloads| * (LENGTH_SIZE + size) == (|payloads| - 1) * (LENGTH_SIZE + size) + (LENGTH_SIZE + size);
    }
  }

  /**
   * What that means for ordinary queues, however small their events: of distinct events of one size, with
   * `dead` read and `live` not yet, a crash between move and truncation keeps the queue exactly when no
   * more events are live than dead.
   */
  lemma DistinctEventsSurviveIff(dead: seq<seq<byte>>, live: seq<seq<byte>>, size: nat)
    requires size < U32 && SameSize(dead, size) && SameSize(live, size) && dead != []
    requires forall i, j :: 0 <= i < j < |live| ==> live[i] != live[j]
    ensures var file, from := Encode(FRAMES, dead) + Encode(FRAMES, live), |Encode(FRAMES, dead)|;
      Parse(FRAMES, MovedPart(file, from, |file| - from)[from..]) == live <==> |live| <= |dead|
  {
    FramesLawful();
    hide Parse, Remainder, Encode, Lawful, MovedPart, SameSize;
    var bytes, from := Encode(FRAMES, live), |Encode(FRAMES, dead)|;
    var file, k := Encode(FRAMES, dead) + bytes, |bytes|;
    assert file[from..] == file[from..|file|] == bytes && file[|file|..] == [];
    ParseWhole(FRAMES, live) by { FitIfSameSize(live, size); }
    MoveCrashSafeIff(file, from, |file|, k);
    LengthOrder(dead, live, size);
    if |live| > |dead| {
      assert bytes[from..k] == bytes[from..];
      Shifted(live, |dead|, size);
    }
  }

  lemma FitIfSameSize(payloads: seq<seq<byte>>, size: nat)
    requires SameSize(payloads, size) && size < U32
    ensures AllFit(FRAMES, payloads)
  {
  }

  /** Runs of frames of one size compare in bytes as they do in number. */
  lemma LengthOrder(dead: seq<seq<byte>>, live: seq<seq<byte>>, size: nat)
    requires SameSize(dead, size) && SameSize(live, size)
    ensures |live| <= |dead| ==> |Encode(FRAMES, live)| <= |Encode(FRAMES, dead)|
    ensures |live| > |dead| ==> |Encode(FRAMES, live[..|dead|])| == |Encode(FRAMES, dead)| < |Encode(FRAMES, live)|
  {
    hide Encode;
    EncodedSize(dead, size);
    EncodedSize(live, size);
    if |live| <= |dead| {
      MulOrder(|live|, |dead|, LENGTH_SIZE + size);
    } else {
      EncodedSize(live[..|dead|], size);
      MulOrder(|dead|, |live|, LENGTH_SIZE + size);
    }
  }

  lemma MulOrder(a: nat, b: nat, s: nat)
    ensures a <= b ==> a * s <= b * s
    ensures a < b && s > 0 ==> a * s < b * s
  {
    if a <= b {
      assert b * s == a * s + (b - a) * s;
    }
  }

  /** A run of distinct frames of one size does not repeat itself `d` frames later. */
  lemma Shifted(live: seq<seq<byte>>, d: nat, size: nat)
    requires size < U32 && SameSize(live, size) && 0 < d < |live| && live[0] != live[d]
    ensures var bytes, shift := Encode(FRAMES, live), |Encode(FRAMES, live[..d])|;
      shift <= |bytes| && bytes[..|bytes| - shift] != bytes[shift..]
  {
    var n := |live|;
    var front, back, bytes, shift := live[..n - d], live[d..], Encode(FRAMES, live), |Encode(FRAMES, live[..d])|;
    hide Parse, Remainder, Encode, Lawful, SameSize, AllFit;
    FramesLawful();
    assert SameSize(front, size) && SameSize(back, size) by { Parts(live, d, size); }
    FitIfSameSize(front, size);
    FitIfSameSize(back, size);
    assert live == live[..d] + back && live == front + live[n - d..];
    EncodeAppend(FRAMES, live[..d], back);
    EncodeAppend(FRAMES, front, live[n - d..]);
    SameLength(front, back, size);
    assert bytes[shift..] == Encode(FRAMES, back);
    assert bytes[..|bytes| - shift] == Encode(FRAMES, front);
    ParseWhole(FRAMES, back);
    ParseWhole(FRAMES, front);
    assert back[0] == live[d] && front[0] == live[0];
  }

  lemma Parts(live: seq<seq<byte>>, d: nat, size: nat)
    requires SameSize(live, size) && d <= |live|
    ensures SameSize(live[..|live| - d], size) && SameSize(live[d..], size)
  {
  }

  lemma SameLength(ps: seq<seq<byte>>, qs: seq<seq<byte>>, size: nat)
    requires SameSize(ps, size) && SameSize(qs, size) && |ps| == |qs|
    ensures |Encode(FRAMES, ps)| == |Encode(FRAMES, qs)|
  {
    EncodedSize(ps, size);
    EncodedSize(qs, size);
  }

  /** A crash after the truncation and before the offset is persisted always loses events. */
  lemma CompactionCrashLoses(live: seq<byte>, from: nat)
    requires from > 0 && live != [] && Remainder(FRAMES, live) == []
    ensures Parse(FRAMES, live[Clamp(from, |live|)..]) != Parse(FRAMES, live)
  {
    assert live[0..] == live[0..|live|] == live;
    ReopenRestoresIff(live, 0, |live|, from);
  }
}
