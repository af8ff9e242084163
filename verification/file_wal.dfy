/** The write-ahead log object. The two open files are modelled by their contents. */
module FileWal {
  import opened Options
  import opened BigEndian
  import opened Events
  import opened PrefixCode
  import opened WalFormat
  import opened WalSpec

  /** One turn of a read loop. */
  lemma ParseStep(rest: seq<byte>)
    ensures ParseLog(rest) == match ReadRecord(rest)
      case Read(rec, rest') => [rec] + ParseLog(rest')
      case _ => []
  {
  }

  class FileWAL {
    var walFile: seq<byte>
    var ackFile: seq<byte>
    var seqNo: nat
    var acked: set<nat>

    /** The records a read loop finds in the log file. */
    function Log(): seq<Record>
      reads this
    {
      ParseLog(walFile)
    }

    /** The record-level view that the sequence-number results speak about. */
    function View(): Wal
      reads this
    {
      Wal(Log(), acked, seqNo)
    }

    /**
     * Both files end on a boundary, acknowledgements on file are known in memory, and numbers are
     * fresh. A torn file opened by the constructor does not satisfy this.
     */
    ghost predicate Valid()
      reads this
    {
      && Aligned(walFile)
      && |ackFile| % ACK_SIZE == 0
      && SetOf(ParseAcks(ackFile)) <= acked
      && Fresh(View())
    }

    constructor (wal: seq<byte>, ack: seq<byte>)
      ensures walFile == wal && ackFile == ack
      ensures acked == SetOf(ParseAcks(ack))
      ensures seqNo == MaxSeq(ParseLog(wal))
      ensures Aligned(wal) && |ack| % ACK_SIZE == 0 && Fresh(Wal(ParseLog(wal), SetOf(ParseAcks(ack)), MaxSeq(ParseLog(wal))))
        ==> Valid()
    {
      walFile, ackFile, seqNo, acked := wal, ack, 0, {};
      new;
      LoadAcked();
      LoadMaxSeq();
    }

    method LoadAcked()
      modifies this`acked
      ensures acked == old(acked) + SetOf(ParseAcks(ackFile))
    {
      var rest := ackFile;
      while |rest| >= ACK_SIZE
        invariant acked + SetOf(ParseAcks(rest)) == old(acked) + SetOf(ParseAcks(ackFile))
        decreases |rest|
      {
        acked := acked + {GetUint(rest[..ACK_SIZE])};
        rest := rest[ACK_SIZE..];
      }
    }

    method LoadMaxSeq()
      modifies this`seqNo
      ensures seqNo == if old(seqNo) > MaxSeq(Log()) then old(seqNo) else MaxSeq(Log())
    {
      var rest := walFile;
      var next := ReadRecord(rest);
      while next.Read?
        invariant next == ReadRecord(rest)
        invariant (if seqNo > MaxSeq(ParseLog(rest)) then seqNo else MaxSeq(ParseLog(rest)))
               == (if old(seqNo) > MaxSeq(Log()) then old(seqNo) else MaxSeq(Log()))
        decreases |rest|
      {
        ParseStep(rest);
        if next.rec.seqNo > seqNo {
          seqNo := next.rec.seqNo;
        }
        rest := next.rest;
        next := ReadRecord(rest);
      }
    }

    /** The number is used up even when the write fails; it wraps like any uint64. */
    method Append(codec: Codec, event: Event, io: IoOutcome) returns (r: Result<nat>)
      modifies this`walFile, this`seqNo
      ensures codec.marshal(event).None? ==>
        r == Err(MarshalFailed) && walFile == old(walFile) && seqNo == old(seqNo)
      ensures codec.marshal(event).Some? ==>
        && seqNo == NextSeq(old(seqNo))
        && r == (match io case IoOk => Ok(seqNo) case IoWriteFailed => Err(WriteFailed) case IoSyncFailed => Err(SyncFailed))
        && walFile == old(walFile)
          + (if io.IoWriteFailed? then [] else EncodeRecord(Record(seqNo, codec.marshal(event).value)))
      ensures old(Valid()) && codec.marshal(event).None? ==> Valid() && View() == old(View())
      ensures old(Valid()) && codec.marshal(event).Some? && Enabled(old(View()), AppendOp(codec.marshal(event).value)) ==>
        Valid() && View() == Apply(old(View()),
          if io.IoWriteFailed? then FailedAppendOp else AppendOp(codec.marshal(event).value))
    {
      hide Aligned, ParseLog, ParseAcks, SetOf, EncodeRecord, Seqs, Increasing, Fits;
      var data := codec.marshal(event);
      if data.None? {
        return Err(MarshalFailed);
      }
      if Valid() && Enabled(View(), AppendOp(data.value)) {
        AppendIsAppendOp(View(), walFile, data.value);
        ApplyKeepsFresh(View(), AppendOp(data.value));
        ApplyKeepsFresh(View(), FailedAppendOp);
      }
      seqNo := NextSeq(seqNo);
      if io.IoWriteFailed? {
        return Err(WriteFailed);
      }
      walFile := walFile + EncodeRecord(Record(seqNo, data.value));
      if io.IoSyncFailed? {
        return Err(SyncFailed);
      }
      return Ok(seqNo);
    }

    /** A failed write still marks the number in memory. */
    method Acknowledge(n: nat, io: IoOutcome) returns (r: Result<()>)
      requires n < U64
      modifies this`acked, this`ackFile
      ensures acked == old(acked) + {n}
      ensures ackFile == old(ackFile) + (if io.IoOk? then EncodeAck(n) else [])
      ensures r.Ok? <==> io.IoOk?
      ensures old(Valid()) && Enabled(old(View()), AckOp(n)) ==> Valid() && View() == Apply(old(View()), AckOp(n))
    {
      if Valid() && Enabled(View(), AckOp(n)) {
        ApplyKeepsFresh(View(), AckOp(n));
        AckKeepsFileWhole(ackFile, n);
      }
      acked := acked + {n};
      if !io.IoOk? {
        return Err(WriteFailed);
      }
      ackFile := ackFile + EncodeAck(n);
      return Ok(());
    }

    method Recover(codec: Codec) returns (entries: seq<Entry>)
      ensures entries == Entries(codec, acked, Log())
    {
      entries := [];
      var rest := walFile;
      ghost var seen := [];
      hide ParseLog;
      assert seen + ParseLog(rest) == Log();
      while true
        invariant seen + ParseLog(rest) == Log()
        invariant entries == Entries(codec, acked, seen)
        decreases |rest|
      {
        ParseStep(rest);
        var next := ReadRecord(rest);
        if !next.Read? {
          assert seen + [] == seen;
          break;
        }
        ghost var before := seen;
        assert before + ([next.rec] + ParseLog(next.rest)) == before + [next.rec] + ParseLog(next.rest);
        rest := next.rest;
        seen := seen + [next.rec];
        assert seen[..|seen| - 1] == before;
        if next.rec.seqNo in acked {
          continue;
        }
        var event := codec.unmarshal(next.rec.payload);
        if event.None? {
          continue;
        }
        entries := entries + [Entry(next.rec.seqNo, event.value)];
      }
    }

    /** Rewrites the log without its acknowledged records, then empties the ack file. */
    method Checkpoint()
      modifies this`walFile, this`ackFile, this`acked
      ensures walFile == EncodeLog(Unacked(old(acked), old(Log())))
      ensures ackFile == [] && acked == {}
      ensures Disk(walFile, ackFile) == CheckpointImage(old(Disk(walFile, ackFile)), old(acked), AfterBoth, 0)
      ensures old(Valid()) ==> Valid() && View() == Apply(old(View()), CheckpointOp)
    {
      if Valid() {
        CheckpointIsCheckpointOp(View());
        ApplyKeepsFresh(View(), CheckpointOp);
      }
      var kept := ReadUnacked();
      var tmpFile := [];
      for i := 0 to |kept|
        invariant tmpFile == EncodeLog(kept[..i])
      {
        EncodeSnoc(LOG, kept[..i], kept[i]);
        assert kept[..i + 1] == kept[..i] + [kept[i]];
        tmpFile := tmpFile + EncodeRecord(kept[i]);
      }
      assert kept[..|kept|] == kept;
      walFile := tmpFile;
      ackFile := [];
      acked := {};
    }

    method ReadUnacked() returns (kept: seq<Record>)
      ensures kept == Unacked(acked, Log())
    {
      kept := [];
      var rest := walFile;
      ghost var seen := [];
      hide ParseLog;
      assert seen + ParseLog(rest) == Log();
      while true
        invariant seen + ParseLog(rest) == Log()
        invariant kept == Unacked(acked, seen)
        decreases |rest|
      {
        ParseStep(rest);
        var next := ReadRecord(rest);
        if !next.Read? {
          assert seen + [] == seen;
          break;
        }
        ghost var before := seen;
        assert before + ([next.rec] + ParseLog(next.rest)) == before + [next.rec] + ParseLog(next.rest);
        rest := next.rest;
        seen := seen + [next.rec];
        assert seen[..|seen| - 1] == before;
        if next.rec.seqNo !in acked {
          kept := kept + [next.rec];
        }
      }
    }
  }

  /** What a process that starts on these files recovers. */
  method RecoverAfterRestart(codec: Codec, d: Disk) returns (entries: seq<Entry>)
    ensures entries == RecoverFrom(codec, d)
  {
    var wal := new FileWAL(d.walFile, d.ackFile);
    entries := wal.Recover(codec);
  }

  /** A restart on the files, with the first `k` bytes of the ack file left, is the record-level reopening. */
  method Reopen(wal: FileWAL, k: nat) returns (w: FileWAL)
    requires wal.Valid() && k <= |wal.ackFile| && k % ACK_SIZE == 0
    ensures fresh(w) && w.Valid() && w.walFile == wal.walFile && w.ackFile == wal.ackFile[..k]
    ensures w.View() == Apply(wal.View(), ReopenOp(SetOf(ParseAcks(wal.ackFile[..k]))))
  {
    AckPrefix(wal.ackFile, k);
    assert SetOf(ParseAcks(wal.ackFile[..k])) <= wal.acked;
    ApplyKeepsFresh(wal.View(), ReopenOp(SetOf(ParseAcks(wal.ackFile[..k]))));
    hide ParseLog, ParseAcks, SetOf, Aligned, MaxSeq;
    w := new FileWAL(wal.walFile, wal.ackFile[..k]);
  }

  /** A restart on what a checkpoint leaves between its two disk effects is the record-level one. */
  method ReopenInCheckpoint(wal: FileWAL) returns (w: FileWAL)
    requires wal.Valid() && SetOf(ParseAcks(wal.ackFile)) == wal.acked
    ensures w.View() == ReopenMidCheckpoint(wal.View())
  {
    var image := CheckpointImage(Disk(wal.walFile, wal.ackFile), wal.acked, BeforeAckTruncation, |wal.ackFile|);
    CheckpointIsCheckpointOp(wal.View());
    assert wal.ackFile[..|wal.ackFile|] == wal.ackFile;
    w := new FileWAL(image.walFile, image.ackFile);
  }

  // ---- What the operations do to the record-level view --------------------------------------

  /** Every operation keeps the files whole and is the record-level step of the same name. */
  lemma AppendIsAppendOp(before: Wal, walFile: seq<byte>, payload: seq<byte>)
    requires Aligned(walFile) && before.log == ParseLog(walFile)
    requires Fresh(before) && Enabled(before, AppendOp(payload))
    ensures var n := NextSeq(before.seqNo);
      var file := walFile + EncodeRecord(Record(n, payload));
      && Aligned(file)
      && Wal(ParseLog(file), before.acked, n) == Apply(before, AppendOp(payload))
  {
    LogAppend(walFile, Record(NextSeq(before.seqNo), payload));
  }

  lemma CheckpointIsCheckpointOp(before: Wal)
    requires Fresh(before)
    ensures var file := EncodeLog(Unacked(before.acked, before.log));
      && Aligned(file)
      && Wal(ParseLog(file), {}, before.seqNo) == Apply(before, CheckpointOp)
  {
    var kept := Unacked(before.acked, before.log);
    forall i | 0 <= i < |kept| ensures Fits(kept[i]) {
      UnackedMember(before.acked, before.log, kept[i]);
    }
    LogWhole(kept);
  }

  lemma AckKeepsFileWhole(ackFile: seq<byte>, n: nat)
    requires |ackFile| % ACK_SIZE == 0 && n < U64
    ensures |ackFile + EncodeAck(n)| % ACK_SIZE == 0
    ensures SetOf(ParseAcks(ackFile + EncodeAck(n))) == SetOf(ParseAcks(ackFile)) + {n}
  {
    AcksAppend(ackFile, n);
  }
}
