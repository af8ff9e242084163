/**
 * What the write-ahead log means: which entries recovery returns, what a checkpoint may change,
 * and why a new sequence number is never one that was used before.
 */
module WalSpec {
  import opened Options
  import opened BigEndian
  import opened Events
  import opened PrefixCode
  import opened WalFormat

  datatype Entry = Entry(seqNo: nat, event: Event)

  function SetOf(ns: seq<nat>): set<nat> {
    set n | n in ns
  }

  function Seqs(rs: seq<Record>): set<nat> {
    set i | 0 <= i < |rs| :: rs[i].seqNo
  }

  /** The recoverable entries of a list of records, given the acknowledged numbers. */
  function Entries(codec: Codec, acked: set<nat>, rs: seq<Record>): seq<Entry> {
    if rs == [] then [] else
      var front := Entries(codec, acked, rs[..|rs| - 1]);
      var r := rs[|rs| - 1];
      var event := codec.unmarshal(r.payload);
      if r.seqNo in acked || event.None? then front else front + [Entry(r.seqNo, event.value)]
  }

  /** The records a checkpoint keeps. */
  function Unacked(acked: set<nat>, rs: seq<Record>): seq<Record> {
    if rs == [] then [] else
      var front := Unacked(acked, rs[..|rs| - 1]);
      if rs[|rs| - 1].seqNo in acked then front else front + [rs[|rs| - 1]]
  }

  function FilterEntries(acked: set<nat>, es: seq<Entry>): seq<Entry> {
    if es == [] then [] else
      var front := FilterEntries(acked, es[..|es| - 1]);
      if es[|es| - 1].seqNo in acked then front else front + [es[|es| - 1]]
  }

  function MaxSeq(rs: seq<Record>): nat {
    if rs == [] then 0
    else if rs[0].seqNo > MaxSeq(rs[1..]) then rs[0].seqNo else MaxSeq(rs[1..])
  }

  lemma {:induction false} MaxSeqBounds(rs: seq<Record>)
    ensures forall i :: 0 <= i < |rs| ==> rs[i].seqNo <= MaxSeq(rs)
    ensures rs != [] ==> MaxSeq(rs) in Seqs(rs)
  {
    if rs != [] {
      MaxSeqBounds(rs[1..]);
      forall i | 0 <= i < |rs| ensures rs[i].seqNo <= MaxSeq(rs) {
        assert i > 0 ==> rs[i] == rs[1..][i - 1];
      }
      if MaxSeq(rs) == rs[0].seqNo {
        assert rs[0].seqNo in Seqs(rs);
      } else {
        assert MaxSeq(rs[1..]) in Seqs(rs[1..]);
        var i :| 0 <= i < |rs[1..]| && rs[1..][i].seqNo == MaxSeq(rs[1..]);
        assert rs[i + 1].seqNo == MaxSeq(rs);
      }
    }
  }

  // ---- Recovery ----------------------------------------------------------------------------

  /** An entry is recovered exactly when some unacknowledged record decodes to it. */
  lemma {:induction false} EntriesMember(codec: Codec, acked: set<nat>, rs: seq<Record>, e: Entry)
    ensures e in Entries(codec, acked, rs) <==>
      exists i :: 0 <= i < |rs| && rs[i].seqNo == e.seqNo && e.seqNo !in acked
        && codec.unmarshal(rs[i].payload) == Some(e.event)
  {
    if rs != [] {
      var front, last := rs[..|rs| - 1], rs[|rs| - 1];
      EntriesMember(codec, acked, front, e);
      if e in Entries(codec, acked, front) {
        var i :| 0 <= i < |front| && front[i].seqNo == e.seqNo && codec.unmarshal(front[i].payload) == Some(e.event);
        assert rs[i] == front[i];
      }
      forall i | 0 <= i < |rs| && rs[i].seqNo == e.seqNo && e.seqNo !in acked
          && codec.unmarshal(rs[i].payload) == Some(e.event)
        ensures e in Entries(codec, acked, rs)
      {
        if i < |front| { assert front[i] == rs[i]; }
      }
    }
  }

  predicate Increasing(rs: seq<Record>) {
    forall i, j :: 0 <= i < j < |rs| ==> rs[i].seqNo < rs[j].seqNo
  }

  predicate IncreasingEntries(es: seq<Entry>) {
    forall i, j :: 0 <= i < j < |es| ==> es[i].seqNo < es[j].seqNo
  }

  /** Recovery keeps the order of the log. */
  lemma {:induction false} EntriesInOrder(codec: Codec, acked: set<nat>, rs: seq<Record>)
    requires Increasing(rs)
    ensures IncreasingEntries(Entries(codec, acked, rs))
  {
    if rs != [] {
      var front, last := rs[..|rs| - 1], rs[|rs| - 1];
      EntriesInOrder(codec, acked, front);
      forall e | e in Entries(codec, acked, front) ensures e.seqNo < last.seqNo {
        EntriesMember(codec, acked, front, e);
      }
    }
  }

  /** The records kept: unacknowledged, in the log, and every one of those. */
  lemma {:induction false} UnackedMember(acked: set<nat>, rs: seq<Record>, r: Record)
    ensures r in Unacked(acked, rs) <==> r in rs && r.seqNo !in acked
  {
    if rs != [] {
      UnackedMember(acked, rs[..|rs| - 1], r);
      assert rs == rs[..|rs| - 1] + [rs[|rs| - 1]];
    }
  }

  lemma {:induction false} UnackedInOrder(acked: set<nat>, rs: seq<Record>)
    requires Increasing(rs)
    ensures Increasing(Unacked(acked, rs))
  {
    if rs != [] {
      var front, last := rs[..|rs| - 1], rs[|rs| - 1];
      UnackedInOrder(acked, front);
      forall r | r in Unacked(acked, front) ensures r.seqNo < last.seqNo {
        UnackedMember(acked, front, r);
      }
    }
  }

  /** Dropping acknowledged records changes nothing, even if some acknowledgements are then lost. */
  lemma {:induction false} EntriesOfUnacked(codec: Codec, acked: set<nat>, kept: set<nat>, rs: seq<Record>)
    requires kept <= acked
    ensures Entries(codec, kept, Unacked(acked, rs)) == Entries(codec, acked, rs)
  {
    if rs != [] {
      EntriesOfUnacked(codec, acked, kept, rs[..|rs| - 1]);
      var front, last := Unacked(acked, rs[..|rs| - 1]), rs[|rs| - 1];
      assert (front + [last])[..|front + [last]| - 1] == front;
    }
  }

  /** Losing acknowledgements only adds entries, and adds them in place. */
  lemma {:induction false} EntriesWithFewerAcks(codec: Codec, acked: set<nat>, kept: set<nat>, rs: seq<Record>)
    requires kept <= acked
    ensures FilterEntries(acked, Entries(codec, kept, rs)) == Entries(codec, acked, rs)
  {
    if rs != [] {
      EntriesWithFewerAcks(codec, acked, kept, rs[..|rs| - 1]);
      var front := Entries(codec, kept, rs[..|rs| - 1]);
      var r := rs[|rs| - 1];
      if r.seqNo !in kept && codec.unmarshal(r.payload).Some? {
        var e := Entry(r.seqNo, codec.unmarshal(r.payload).value);
        assert (front + [e])[..|front + [e]| - 1] == front;
      }
    }
  }

  lemma {:induction false} FilterShrinks(acked: set<nat>, es: seq<Entry>)
    ensures |FilterEntries(acked, es)| <= |es|
    ensures forall e :: e in FilterEntries(acked, es) ==> e in es
  {
    if es != [] {
      FilterShrinks(acked, es[..|es| - 1]);
      assert es == es[..|es| - 1] + [es[|es| - 1]];
    }
  }

  // ---- Checkpoint and crashes --------------------------------------------------------------

  /** The two files as a restarted process finds them. */
  datatype Disk = Disk(walFile: seq<byte>, ackFile: seq<byte>)

  /** NewFileWAL followed by Recover. */
  function RecoverFrom(codec: Codec, d: Disk): seq<Entry> {
    Entries(codec, SetOf(ParseAcks(d.ackFile)), ParseLog(d.walFile))
  }

  /** Checkpoint touches the disk twice: it renames the new log into place, then truncates the acks. */
  datatype CrashPoint = BeforeRename | BeforeAckTruncation | AfterBoth

  /** The disk after a crash; acks are not synced, so only their first `k` bytes need survive. */
  function CheckpointImage(d: Disk, acked: set<nat>, at: CrashPoint, k: nat): Disk
    requires k <= |d.ackFile|
  {
    var compacted := EncodeLog(Unacked(acked, ParseLog(d.walFile)));
    match at
    case BeforeRename => Disk(d.walFile, d.ackFile[..k])
    case BeforeAckTruncation => Disk(compacted, d.ackFile[..k])
    case AfterBoth => Disk(compacted, [])
  }

  lemma {:induction false} AckPrefix(input: seq<byte>, k: nat)
    requires k <= |input|
    ensures |ParseAcks(input)| == |input| / ACK_SIZE
    ensures ParseAcks(input[..k]) == ParseAcks(input)[..k / ACK_SIZE]
    decreases |input|
  {
    if |input| >= ACK_SIZE {
      var rest := input[ACK_SIZE..];
      if k < ACK_SIZE {
        AckPrefix(rest, 0);
      } else {
        AckPrefix(rest, k - ACK_SIZE);
        assert input[..k][..ACK_SIZE] == input[..ACK_SIZE];
        assert input[..k][ACK_SIZE..] == rest[..k - ACK_SIZE];
      }
    }
  }

  /**
   * A checkpoint preserves meaning at every crash point. `acked` is the set in memory, which holds
   * at least what the ack file holds. Whatever survives of the ack file, recovery returns every
   * entry it should, in order, and once the rename is on disk it returns exactly those.
   */
  lemma CheckpointCrash(codec: Codec, d: Disk, acked: set<nat>, at: CrashPoint, k: nat)
    requires k <= |d.ackFile|
    requires SetOf(ParseAcks(d.ackFile)) <= acked
    ensures var image := CheckpointImage(d, acked, at, k);
      var live := Entries(codec, acked, ParseLog(d.walFile));
      && image.ackFile == (if at == AfterBoth then [] else d.ackFile[..k])
      && FilterEntries(acked, RecoverFrom(codec, image)) == live
      && |RecoverFrom(codec, image)| >= |live|
      && (at != BeforeRename ==> RecoverFrom(codec, image) == live)
      && (at == BeforeRename && k == |d.ackFile| && SetOf(ParseAcks(d.ackFile)) == acked
          ==> RecoverFrom(codec, image) == live)
  {
    LogLawful();
    EncodeParsed(LOG, d.walFile);
    AckPrefix(d.ackFile, k);
    var rs := ParseLog(d.walFile);
    var kept := Unacked(acked, rs);
    forall r | r in kept ensures Fits(r) { UnackedMember(acked, rs, r); }
    ParseWhole(LOG, kept);
    var image := CheckpointImage(d, acked, at, k);
    var survived := SetOf(ParseAcks(image.ackFile));
    assert survived <= acked;
    if at == BeforeRename {
      EntriesWithFewerAcks(codec, acked, survived, rs);
      FilterShrinks(acked, RecoverFrom(codec, image));
      assert d.ackFile[..|d.ackFile|] == d.ackFile;
    } else {
      EntriesOfUnacked(codec, acked, survived, rs);
      EntriesWithFewerAcks(codec, acked, survived, kept);
      EntriesOfUnacked(codec, acked, acked, rs);
    }
  }

  /**
   * A crash in the middle of an append, with any prefix of the ack file surviving: every entry
   * that was durable and unacknowledged comes back. `durable` records were synced; the rest of
   * the log was written but not synced, and the file is cut at an arbitrary byte.
   */
  lemma AppendCrash(codec: Codec, rs: seq<Record>, durable: nat, cut: nat, acks: seq<nat>, k: nat, e: Entry)
    requires forall i :: 0 <= i < |rs| ==> Fits(rs[i])
    requires forall i :: 0 <= i < |acks| ==> FitsAck(acks[i])
    requires durable <= |rs| && |EncodeLog(rs[..durable])| <= cut <= |EncodeLog(rs)|
    requires k <= |EncodeAcks(acks)|
    requires e in Entries(codec, SetOf(acks), rs[..durable])
    ensures e in RecoverFrom(codec, Disk(EncodeLog(rs)[..cut], EncodeAcks(acks)[..k]))
  {
    LogLawful();
    AcksLawful();
    TornTailKeeps(LOG, rs, durable, cut);
    TornTail(ACKS, acks, k);
    EntriesMember(codec, SetOf(acks), rs[..durable], e);
    var seen := ParseLog(EncodeLog(rs)[..cut]);
    var i :| 0 <= i < durable && rs[..durable][i].seqNo == e.seqNo
      && codec.unmarshal(rs[..durable][i].payload) == Some(e.event);
    assert seen[i] == rs[i];
    EntriesMember(codec, SetOf(ParseAcks(EncodeAcks(acks)[..k])), seen, e);
  }

  /**
   * Recovery from a torn log: for any records and any cut, it is the unacknowledged filter, in order, of
   * the longest run of records that lie wholly before the cut.
   */
  lemma TornRecovery(codec: Codec, rs: seq<Record>, cut: nat, ackFile: seq<byte>) returns (n: nat)
    requires (forall i :: 0 <= i < |rs| ==> Fits(rs[i])) && cut <= |EncodeLog(rs)|
    ensures WhollyBefore(LOG, rs, cut, n)
    ensures RecoverFrom(codec, Disk(EncodeLog(rs)[..cut], ackFile)) == Entries(codec, SetOf(ParseAcks(ackFile)), rs[..n])
  {
    LogLawful();
    TornTail(LOG, rs, cut);
    n := |ParseLog(EncodeLog(rs)[..cut])|;
  }

  // ---- Sequence numbers --------------------------------------------------------------------

  /** The log as records, with the numbers held in memory. */
  datatype Wal = Wal(log: seq<Record>, acked: set<nat>, seqNo: nat)

  /** The freshness invariant: numbers grow along the log and only logged numbers are acknowledged. */
  predicate Fresh(w: Wal) {
    && Increasing(w.log)
    && (forall i :: 0 <= i < |w.log| ==> 1 <= w.log[i].seqNo <= w.seqNo && Fits(w.log[i]))
    && w.acked <= Seqs(w.log)
    && w.seqNo < U64
  }

  /** Sequence numbers are unsigned 64-bit and wrap. */
  function NextSeq(n: nat): (m: nat)
    ensures n < U64 ==> m == (n + 1) % U64
  {
    if n + 1 == U64 then 0 else n + 1
  }

  datatype WalOp =
    | AppendOp(payload: seq<byte>)
    | FailedAppendOp
    | AckOp(seqNo: nat)
    | CheckpointOp
    | ReopenOp(loaded: set<nat>)

  /**
   * FailedAppendOp is a write error: the number is used up and nothing is logged. ReopenOp restarts
   * the process on whole files; unsynced acknowledgements may be gone by then.
   */
  predicate Enabled(w: Wal, op: WalOp) {
    match op
    case AppendOp(payload) => w.seqNo + 1 < U64 && |payload| < U32
    case FailedAppendOp => w.seqNo + 1 < U64
    case AckOp(n) => n in Seqs(w.log)
    case CheckpointOp => true
    case ReopenOp(loaded) => loaded <= w.acked
  }

  function Apply(w: Wal, op: WalOp): Wal {
    match op
    case AppendOp(payload) => w.(log := w.log + [Record(NextSeq(w.seqNo), payload)], seqNo := NextSeq(w.seqNo))
    case FailedAppendOp => w.(seqNo := NextSeq(w.seqNo))
    case AckOp(n) => w.(acked := w.acked + {n})
    case CheckpointOp => w.(log := Unacked(w.acked, w.log), acked := {})
    case ReopenOp(loaded) => w.(acked := loaded, seqNo := MaxSeq(w.log))
  }

  ghost predicate RunOk(w: Wal, ops: seq<WalOp>)
    decreases |ops|
  {
    ops == [] || (Enabled(w, ops[0]) && RunOk(Apply(w, ops[0]), ops[1..]))
  }

  function RunOps(w: Wal, ops: seq<WalOp>): Wal
    decreases |ops|
  {
    if ops == [] then w else RunOps(Apply(w, ops[0]), ops[1..])
  }

  lemma ApplyKeepsFresh(w: Wal, op: WalOp)
    requires Fresh(w) && Enabled(w, op)
    ensures Fresh(Apply(w, op))
  {
    match op
    case AppendOp(payload) =>
      var w' := Apply(w, op);
      forall n | n in w.acked ensures n in Seqs(w'.log) {
        var i :| 0 <= i < |w.log| && w.log[i].seqNo == n;
        assert w'.log[i].seqNo == n;
      }
    case CheckpointOp =>
      UnackedInOrder(w.acked, w.log);
      var kept := Unacked(w.acked, w.log);
      forall i | 0 <= i < |kept| ensures 1 <= kept[i].seqNo <= w.seqNo && Fits(kept[i]) {
        UnackedMember(w.acked, w.log, kept[i]);
      }
    case ReopenOp(_) =>
      MaxSeqBounds(w.log);
    case _ =>
  }

  /**
   * Sequence freshness over whole runs: however appends, acknowledgements, checkpoints and reopens
   * are interleaved, the next number exceeds every number in the file and is not acknowledged.
   */
  lemma {:induction false} NextNumberIsFresh(w: Wal, ops: seq<WalOp>)
    requires Fresh(w) && RunOk(w, ops)
    ensures var end := RunOps(w, ops);
      && Fresh(end)
      && (forall i :: 0 <= i < |end.log| ==> end.log[i].seqNo < end.seqNo + 1)
      && end.seqNo + 1 !in end.acked
    decreases |ops|
  {
    if ops != [] {
      ApplyKeepsFresh(w, ops[0]);
      NextNumberIsFresh(Apply(w, ops[0]), ops[1..]);
    }
  }

  /** Numbers are not unique over time: a compacted log that is reopened starts again from below. */
  lemma NumberingRegresses() returns (w: Wal, ops: seq<WalOp>)
    ensures Fresh(w) && RunOk(w, ops) && RunOps(w, ops).seqNo < w.seqNo
  {
    w := Wal([Record(1, [])], {1}, 1);
    ops := [CheckpointOp, ReopenOp({})];
    assert w.log[0].seqNo == 1;
    var compacted := Apply(w, CheckpointOp);
    assert w.log[..0] == [];
    assert compacted.log == [];
    assert ops[1..] == [ReopenOp({})] && [ReopenOp({})][1..] == [];
    assert RunOps(compacted, [ReopenOp({})]) == Apply(compacted, ReopenOp({}));
  }

  /** A process restarted between the rename and the truncation of the ack file. */
  function ReopenMidCheckpoint(w: Wal): Wal {
    var kept := Unacked(w.acked, w.log);
    Wal(kept, w.acked, MaxSeq(kept))
  }

  /**
   * That restart is harmless exactly when nothing was acknowledged or the newest record was not:
   * otherwise some later append gets a number that is already marked acknowledged.
   */
  lemma MidCheckpointSafeIff(w: Wal)
    requires Fresh(w)
    ensures (forall n :: n > ReopenMidCheckpoint(w).seqNo ==> n !in w.acked)
      <==> w.acked == {} || w.log[|w.log| - 1].seqNo !in w.acked
  {
    var kept := Unacked(w.acked, w.log);
    MaxSeqBounds(kept);
    if w.acked != {} {
      var some :| some in w.acked;
      assert some in Seqs(w.log);
      var last := w.log[|w.log| - 1];
      UnackedMember(w.acked, w.log, last);
      if last.seqNo in w.acked {
        if kept != [] {
          var i :| 0 <= i < |kept| && kept[i].seqNo == MaxSeq(kept);
          UnackedMember(w.acked, w.log, kept[i]);
          assert kept[i].seqNo < last.seqNo;
        }
        assert last.seqNo > ReopenMidCheckpoint(w).seqNo;
      } else {
        forall n | n in w.acked ensures n <= last.seqNo { assert n in Seqs(w.log); }
        var i :| 0 <= i < |kept| && kept[i] == last;
      }
    }
  }

  /** What an acknowledged number costs: the record is written and recovery never returns it. */
  lemma AckedNumberIsLost(codec: Codec, w: Wal, payload: seq<byte>)
    ensures Entries(codec, w.acked, w.log + [Record(w.seqNo + 1, payload)]) != Entries(codec, w.acked, w.log)
      <==> w.seqNo + 1 !in w.acked && codec.unmarshal(payload).Some?
  {
    var rs := w.log + [Record(w.seqNo + 1, payload)];
    assert rs[..|rs| - 1] == w.log;
  }

  function Appends(w: Wal, payload: seq<byte>, n: nat): Wal {
    if n == 0 then w else Apply(Appends(w, payload, n - 1), AppendOp(payload))
  }

  lemma {:induction false} AppendsNumbers(w: Wal, payload: seq<byte>, n: nat)
    requires w.seqNo + n < U64
    ensures Appends(w, payload, n).seqNo == w.seqNo + n && Appends(w, payload, n).acked == w.acked
  {
    if n > 0 {
      AppendsNumbers(w, payload, n - 1);
    }
  }

  predicate RecoversOneMore(codec: Codec, w: Wal, payload: seq<byte>, n: nat) {
    Entries(codec, w.acked, Appends(w, payload, n + 1).log) != Entries(codec, w.acked, Appends(w, payload, n).log)
  }

  /**
   * What a restart in the middle of a checkpoint means for events: each event appended afterwards is one that
   * recovery returns, exactly when nothing was acknowledged or the newest record was not. Otherwise one
   * of them is written, synced and never recovered.
   */
  lemma MidCheckpointAppendsIff(codec: Codec, w: Wal, payload: seq<byte>)
    requires Fresh(w) && codec.unmarshal(payload).Some?
    ensures var v := ReopenMidCheckpoint(w);
      (forall n: nat | v.seqNo + n + 1 < U64 :: RecoversOneMore(codec, v, payload, n))
        <==> w.acked == {} || w.log[|w.log| - 1].seqNo !in w.acked
  {
    var v := ReopenMidCheckpoint(w);
    MidCheckpointSafeIff(w);
    hide RecoversOneMore, Unacked, MaxSeq;
    forall n: nat | v.seqNo + n + 1 < U64
      ensures RecoversOneMore(codec, v, payload, n) <==> v.seqNo + n + 1 !in v.acked
    {
      RecoversIff(codec, v, payload, n);
    }
    if a: nat :| a > v.seqNo && a in w.acked {
      assert a in Seqs(w.log);
      assert !RecoversOneMore(codec, v, payload, a - v.seqNo - 1);
    }
  }

  lemma RecoversIff(codec: Codec, w: Wal, payload: seq<byte>, n: nat)
    requires w.seqNo + n + 1 < U64 && codec.unmarshal(payload).Some?
    ensures RecoversOneMore(codec, w, payload, n) <==> w.seqNo + n + 1 !in w.acked
  {
    hide Entries;
    AppendsNumbers(w, payload, n);
    AckedNumberIsLost(codec, Appends(w, payload, n), payload);
  }
}
