/** Writing one batch to every sink: retries, dead letters and acknowledgements. */
module Flushing {
  import opened Options
  import opened BigEndian
  import opened Events
  import opened WalFormat
  import opened FileWal
  import opened Tracker

  const MAX_RETRIES: nat := 3

  datatype WriteOutcome = Accepted | Transient | Permanent

  /** What a sink answers to one attempt, and whether the context ends during the backoff after it. */
  datatype Reply = Reply(outcome: WriteOutcome, cancelled: bool)

  datatype SinkError = TransientError | PermanentError | ContextDone

  /** An attempt after which another one follows, if any are left. */
  predicate Retried(r: Reply) {
    r.outcome.Transient? && !r.cancelled
  }

  /** Some attempt within the limit was accepted, and all before it were retried. */
  ghost predicate AcceptedInTime(replies: nat -> Reply) {
    exists k :: 0 <= k < MAX_RETRIES && replies(k).outcome.Accepted?
      && forall j :: 0 <= j < k ==> Retried(replies(j))
  }

  method WriteWithRetry(replies: nat -> Reply) returns (err: Option<SinkError>, attempts: nat)
    ensures 1 <= attempts <= MAX_RETRIES
    ensures forall j :: 0 <= j < attempts - 1 ==> Retried(replies(j))
    ensures attempts < MAX_RETRIES ==> !Retried(replies(attempts - 1))
    ensures err == (match replies(attempts - 1).outcome
      case Accepted => None
      case Permanent => Some(PermanentError)
      case Transient => Some(if attempts < MAX_RETRIES then ContextDone else TransientError))
    ensures err.None? <==> AcceptedInTime(replies)
    ensures replies(0).outcome.Permanent? ==> attempts == 1 && err == Some(PermanentError)
    ensures replies(0).outcome.Transient? && !replies(0).cancelled && replies(1).outcome.Permanent? ==>
      attempts == 2 && err == Some(PermanentError)
    ensures replies(0).outcome.Transient? && replies(0).cancelled ==> attempts == 1 && err == Some(ContextDone)
    ensures (forall j :: 0 <= j < 2 ==> replies(j).outcome.Transient? && !replies(j).cancelled) && replies(2).outcome.Transient? ==>
      attempts == 3 && err == Some(TransientError)
    ensures (forall j :: 0 <= j < 2 ==> replies(j).outcome.Transient? && !replies(j).cancelled) && replies(2).outcome.Accepted? ==>
      attempts == 3 && err == None
  {
    attempts := 0;
    err := None;
    while attempts < MAX_RETRIES
      invariant attempts <= MAX_RETRIES
      invariant forall j :: 0 <= j < attempts - 1 ==> Retried(replies(j))
      invariant 0 < attempts < MAX_RETRIES ==> Retried(replies(attempts - 1))
      invariant attempts == MAX_RETRIES ==>
        replies(attempts - 1).outcome.Transient? && err == Some(TransientError)
    {
      var reply := replies(attempts);
      attempts := attempts + 1;
      match reply.outcome {
        case Accepted =>
          return None, attempts;
        case Permanent =>
          return Some(PermanentError), attempts;
        case Transient =>
          err := Some(TransientError);
          if attempts < MAX_RETRIES && reply.cancelled {
            return Some(ContextDone), attempts;
          }
      }
    }
  }

  /** One call of the dead-letter queue; whether it succeeds changes nothing here. */
  datatype DlqPush = DlqPush(event: Event, position: nat, sink: nat, error: SinkError)

  predicate IsPush(d: DlqPush, sink: nat, position: nat) {
    d.sink == sink && d.position == position
  }

  function CountPushes(ds: seq<DlqPush>, sink: nat, position: nat): nat {
    if ds == [] then 0
    else CountPushes(ds[..|ds| - 1], sink, position) + (if IsPush(ds[|ds| - 1], sink, position) then 1 else 0)
  }

  lemma CountSnoc(ds: seq<DlqPush>, d: DlqPush)
    ensures forall sink: nat, position: nat ::
      CountPushes(ds + [d], sink, position) == CountPushes(ds, sink, position) + (if IsPush(d, sink, position) then 1 else 0)
  {
    assert (ds + [d])[..|ds + [d]| - 1] == ds;
  }

  /** A push for an event of the batch and one of the first `n` sinks, which did not accept the batch. */
  ghost predicate PushFor(batch: seq<Event>, replies: nat -> nat -> Reply, n: nat, d: DlqPush) {
    && d.sink < n && d.position < |batch| && d.event == batch[d.position]
    && !AcceptedInTime(replies(d.sink))
  }

  lemma PushesGrow(batch: seq<Event>, replies: nat -> nat -> Reply, sink: nat, before: seq<DlqPush>, after: seq<DlqPush>,
        from: nat, error: SinkError)
    requires before <= after
    requires forall k :: from <= k < |before| ==> PushFor(batch, replies, sink, before[k])
    requires after == before || (!AcceptedInTime(replies(sink)) && |after| == |before| + |batch|
      && forall k :: 0 <= k < |batch| ==> after[|before| + k] == DlqPush(batch[k], k, sink, error))
    ensures forall k :: from <= k < |after| ==> PushFor(batch, replies, sink + 1, after[k])
  {
    forall k | from <= k < |after| ensures PushFor(batch, replies, sink + 1, after[k]) {
      if k < |before| {
        assert after[k] == before[k] && PushFor(batch, replies, sink, before[k]);
      } else {
        var j := k - |before|;
        assert after[|before| + j] == DlqPush(batch[j], j, sink, error);
      }
    }
  }

  /** The numbers the tracker holds for the ids of a batch, in order of first occurrence. */
  function Numbers(tracker: map<string, nat>, batch: seq<Event>): seq<nat> {
    if batch == [] then [] else
      var front, id := batch[..|batch| - 1], batch[|batch| - 1].eventId;
      if id in tracker && id !in Ids(front) then Numbers(tracker, front) + [tracker[id]] else Numbers(tracker, front)
  }

  function Ids(batch: seq<Event>): set<string> {
    set i | 0 <= i < |batch| :: batch[i].eventId
  }

  function NumbersOf(tracker: map<string, nat>, ids: set<string>): set<nat> {
    set id | id in ids && id in tracker :: tracker[id]
  }

  /** One event further: its id, its number if the tracker still has it, and the bytes for it. */
  lemma OneMore(tracker: map<string, nat>, batch: seq<Event>, k: nat, io: nat -> IoOutcome)
    requires k < |batch|
    ensures var id, ids := batch[k].eventId, Ids(batch[..k]);
      var seen, now := Numbers(tracker, batch[..k]), Numbers(tracker, batch[..k + 1]);
      && Ids(batch[..k + 1]) == ids + {id}
      && (if id in tracker && id !in ids then
          && NumbersOf(tracker, ids + {id}) == NumbersOf(tracker, ids) + {tracker[id]}
          && AckBytes(now, io) == AckBytes(seen, io) + (if io(tracker[id]).IoOk? then EncodeAck(tracker[id]) else [])
        else
          NumbersOf(tracker, ids + {id}) == NumbersOf(tracker, ids) && now == seen)
  {
    var id, seen := batch[k].eventId, Numbers(tracker, batch[..k]);
    assert batch[..k + 1][..k] == batch[..k];
    assert batch[..k + 1] == batch[..k] + [batch[k]];
    assert forall i :: 0 <= i < k ==> batch[..k + 1][i] == batch[..k][i];
    assert batch[..k + 1][k].eventId == id;
    if id in tracker && id !in Ids(batch[..k]) {
      assert (seen + [tracker[id]])[..|seen|] == seen;
    }
  }

  /** The bytes written to the ack file for numbers whose write succeeds. */
  function AckBytes(ns: seq<nat>, io: nat -> IoOutcome): seq<byte> {
    if ns == [] then [] else
      AckBytes(ns[..|ns| - 1], io) + (if io(ns[|ns| - 1]).IoOk? then EncodeAck(ns[|ns| - 1]) else [])
  }

  /** What the tracker, the acknowledged set and the ack file are after some acknowledgements. */
  datatype Books = Books(tracker: map<string, nat>, acked: set<nat>, ackFile: seq<byte>)

  function AckBatch(b: Books, batch: seq<Event>, io: nat -> IoOutcome): Books {
    Books(b.tracker - Ids(batch), b.acked + NumbersOf(b.tracker, Ids(batch)),
      b.ackFile + AckBytes(Numbers(b.tracker, batch), io))
  }

  function AckId(b: Books, id: string, io: nat -> IoOutcome): Books {
    if id !in b.tracker then b
    else
      var n := b.tracker[id];
      Books(b.tracker - {id}, b.acked + {n}, b.ackFile + (if io(n).IoOk? then EncodeAck(n) else []))
  }

  /** The books after a flush: all sinks must have accepted the batch in time. */
  ghost function FlushBooks(b: Books, sinks: nat, batch: seq<Event>, replies: nat -> nat -> Reply, ackIo: nat -> IoOutcome): Books {
    if forall sink: nat :: sink < sinks ==> AcceptedInTime(replies(sink)) then AckBatch(b, batch, ackIo) else b
  }

  lemma AckOneMore(b: Books, batch: seq<Event>, k: nat, io: nat -> IoOutcome)
    requires k < |batch|
    ensures AckId(AckBatch(b, batch[..k], io), batch[k].eventId, io) == AckBatch(b, batch[..k + 1], io)
  {
    hide Ids, Numbers, NumbersOf, AckBytes;
    OneMore(b.tracker, batch, k, io);
    var id, ids := batch[k].eventId, Ids(batch[..k]);
    if id in b.tracker && id !in ids {
      assert b.tracker - ids - {id} == b.tracker - (ids + {id});
    } else {
      assert b.tracker - ids == b.tracker - (ids + {id});
    }
  }

  class Deps {
    const sinks: nat
    const wal: FileWAL
    const tracker: SeqTracker
    var dlq: seq<DlqPush>

    constructor (sinks: nat, wal: FileWAL, tracker: SeqTracker)
      ensures this.sinks == sinks && this.wal == wal && this.tracker == tracker && dlq == []
    {
      this.sinks, this.wal, this.tracker := sinks, wal, tracker;
      dlq := [];
    }

    /**
     * Every pair of an event and a sink ends in one of two ways: the sink accepted the whole batch in
     * time, or the pair went to the dead-letter queue exactly once. Numbers are acknowledged when all
     * sinks accepted, and otherwise neither the tracker nor the log is touched.
     * `replies(i)` is the behaviour of sink i, `ackIo(n)` that of the ack file for number n.
     */
    method Flush(batch: seq<Event>, replies: nat -> nat -> Reply, ackIo: nat -> IoOutcome)
      requires forall id :: id in tracker.data ==> tracker.data[id] < U64
      modifies this`dlq, tracker, wal`acked, wal`ackFile
      ensures old(dlq) <= dlq
      ensures forall sink: nat, position: nat :: sink < sinks && position < |batch| ==>
        CountPushes(dlq, sink, position) == CountPushes(old(dlq), sink, position)
          + (if AcceptedInTime(replies(sink)) then 0 else 1)
      ensures forall k :: |old(dlq)| <= k < |dlq| ==> PushFor(batch, replies, sinks, dlq[k])
      ensures GetBooks() == FlushBooks(old(GetBooks()), sinks, batch, replies, ackIo)
      ensures (forall sink: nat :: sink < sinks ==> AcceptedInTime(replies(sink))) ==>
        && tracker.data == old(tracker.data) - Ids(batch)
        && wal.acked == old(wal.acked) + NumbersOf(old(tracker.data), Ids(batch))
        && wal.ackFile == old(wal.ackFile) + AckBytes(Numbers(old(tracker.data), batch), ackIo)
      ensures (exists sink: nat :: sink < sinks && !AcceptedInTime(replies(sink))) ==>
        tracker.data == old(tracker.data) && wal.acked == old(wal.acked) && wal.ackFile == old(wal.ackFile)
    {
      var allSucceeded := WriteToSinks(batch, replies);
      if allSucceeded {
        AcknowledgeAll(batch, ackIo);
      }
    }

    /** The loop over the sinks. */
    method WriteToSinks(batch: seq<Event>, replies: nat -> nat -> Reply) returns (allSucceeded: bool)
      modifies this`dlq
      ensures allSucceeded <==> forall i: nat :: i < sinks ==> AcceptedInTime(replies(i))
      ensures old(dlq) <= dlq
      ensures forall i: nat, position: nat :: i < sinks && position < |batch| ==>
        CountPushes(dlq, i, position) == CountPushes(old(dlq), i, position)
          + (if AcceptedInTime(replies(i)) then 0 else 1)
      ensures forall k :: |old(dlq)| <= k < |dlq| ==> PushFor(batch, replies, sinks, dlq[k])
    {
      allSucceeded := true;
      for sink := 0 to sinks
        invariant allSucceeded <==> forall i: nat :: i < sink ==> AcceptedInTime(replies(i))
        invariant old(dlq) <= dlq
        invariant forall i: nat, position: nat :: position < |batch| ==>
          CountPushes(dlq, i, position) == CountPushes(old(dlq), i, position)
            + (if i < sink && !AcceptedInTime(replies(i)) then 1 else 0)
        invariant forall k :: |old(dlq)| <= k < |dlq| ==> PushFor(batch, replies, sink, dlq[k])
      {
        hide CountPushes, AcceptedInTime, PushFor;
        var err, _ := WriteWithRetry(replies(sink));
        if err.Some? {
          allSucceeded := false;
          ghost var before := dlq;
          PushAll(batch, sink, err.value);
          PushesGrow(batch, replies, sink, before, dlq, |old(dlq)|, err.value);
        } else {
          PushesGrow(batch, replies, sink, dlq, dlq, |old(dlq)|, TransientError);
        }
      }
    }

    /** The loop over a batch for one failed sink. */
    method PushAll(batch: seq<Event>, sink: nat, error: SinkError)
      modifies this`dlq
      ensures old(dlq) <= dlq && |dlq| == |old(dlq)| + |batch|
      ensures forall k :: 0 <= k < |batch| ==> dlq[|old(dlq)| + k] == DlqPush(batch[k], k, sink, error)
      ensures forall i: nat, position: nat ::
        CountPushes(dlq, i, position) == CountPushes(old(dlq), i, position) + (if i == sink && position < |batch| then 1 else 0)
    {
      for k := 0 to |batch|
        invariant old(dlq) <= dlq && |dlq| == |old(dlq)| + k
        invariant forall j :: 0 <= j < k ==> dlq[|old(dlq)| + j] == DlqPush(batch[j], j, sink, error)
        invariant forall i: nat, position: nat ::
          CountPushes(dlq, i, position) == CountPushes(old(dlq), i, position) + (if i == sink && position < k then 1 else 0)
      {
        CountSnoc(dlq, DlqPush(batch[k], k, sink, error));
        dlq := dlq + [DlqPush(batch[k], k, sink, error)];
      }
    }

    function GetBooks(): Books
      reads tracker, wal
    {
      Books(tracker.data, wal.acked, wal.ackFile)
    }

    /** The loop over a batch that every sink accepted. */
    method AcknowledgeAll(batch: seq<Event>, ackIo: nat -> IoOutcome)
      requires forall id :: id in tracker.data ==> tracker.data[id] < U64
      modifies tracker, wal`acked, wal`ackFile
      ensures tracker.data == old(tracker.data) - Ids(batch)
      ensures wal.acked == old(wal.acked) + NumbersOf(old(tracker.data), Ids(batch))
      ensures wal.ackFile == old(wal.ackFile) + AckBytes(Numbers(old(tracker.data), batch), ackIo)
    {
      ghost var before := GetBooks();
      assert before == AckBatch(before, batch[..0], ackIo);
      for k := 0 to |batch|
        invariant GetBooks() == AckBatch(before, batch[..k], ackIo)
        invariant forall id :: id in tracker.data ==> tracker.data[id] < U64
      {
        hide AckBatch, AckId;
        AckOneMore(before, batch, k, ackIo);
        AcknowledgeEvent(batch[k].eventId, ackIo);
      }
      assert batch[..|batch|] == batch;
    }

    /** One turn of that loop. */
    method AcknowledgeEvent(id: string, ackIo: nat -> IoOutcome)
      requires id in tracker.data ==> tracker.data[id] < U64
      modifies tracker, wal`acked, wal`ackFile
      ensures GetBooks() == AckId(old(GetBooks()), id, ackIo)
    {
      hide FileWAL.Valid, FileWAL.View, FileWAL.Log;
      var n := tracker.LoadAndDelete(id);
      if n.Some? {
        var _ := wal.Acknowledge(n.value, ackIo(n.value));
      }
    }
  }
}
