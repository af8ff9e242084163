/** At-least-once delivery and acknowledgement soundness, over all runs of the pipeline. */
module DeliveryProof {
  import opened Options
  import opened BigEndian
  import opened Events
  import opened PrefixCode
  import opened WalFormat
  import opened WalSpec
  import opened Delivery

  // ---- The invariant -----------------------------------------------------------------------

  ghost predicate LogOk(v: State) {
    && v.synced <= |v.log|
    && Increasing(v.log)
    && (forall i :: 0 <= i < |v.log| ==> 1 <= v.log[i].seqNo <= v.seqNo && Fits(v.log[i]))
    && v.seqNo < U64
  }

  ghost predicate AcksOk(v: State)
    requires LogOk(v)
  {
    && (forall n :: n in v.acked ==> n <= v.seqNo)
    && (forall i :: 0 <= i < |v.acks| ==> v.acks[i] in v.acked)
    && (v.lock != HeldByCheckpoint ==> Covered(v.acks, Durable(v)))
  }

  /** An acknowledged record holds nothing that is not delivered. */
  ghost predicate AckSound(c: Config, v: State) {
    forall i, id ::
      0 <= i < |v.log| && v.log[i].seqNo in v.acked && CarriesId(c, v.log[i], id) ==> Delivered(c, v.written, id)
  }

  /** The event is durable in the log, or its id is delivered. */
  ghost predicate Safe(c: Config, rs: seq<Record>, written: set<(nat, seq<Event>)>, event: Event) {
    (exists i :: 0 <= i < |rs| && Carries(c, rs[i], event)) || Delivered(c, written, event.eventId)
  }

  ghost predicate AcceptedSafe(c: Config, v: State)
    requires LogOk(v)
  {
    forall event :: event in v.accepted ==> Safe(c, Durable(v), v.written, event)
  }

  ghost predicate Logged(c: Config, rs: seq<Record>, n: nat, event: Event) {
    exists i :: 0 <= i < |rs| && rs[i].seqNo == n && Carries(c, rs[i], event)
  }

  ghost predicate LoggedId(c: Config, rs: seq<Record>, n: nat, id: string) {
    exists i :: 0 <= i < |rs| && rs[i].seqNo == n && CarriesId(c, rs[i], id)
  }

  ghost predicate PusherOk(c: Config, v: State, p: nat)
    requires LogOk(v) && p in v.pushers
  {
    match v.pushers[p]
    case Writing(event, n) => v.lock == HeldByPusher(p) && Logged(c, v.log, n, event)
    case Appended(event, n) => Logged(c, Durable(v), n, event)
    case Stored(event) => Safe(c, Durable(v), v.written, event)
    case Rejected(event) => true
  }

  ghost predicate PushersOk(c: Config, v: State)
    requires LogOk(v)
  {
    forall p :: p in v.pushers ==> PusherOk(c, v, p)
  }

  ghost predicate TrackerOk(c: Config, v: State)
    requires LogOk(v)
  {
    forall id :: id in v.tracker ==> LoggedId(c, Durable(v), v.tracker[id], id)
  }

  ghost predicate HeldForBatch(c: Config, rs: seq<Record>, batch: seq<Event>, n: nat) {
    exists id :: HasId(batch, id) && LoggedId(c, rs, n, id)
  }

  ghost predicate WorkerOk(c: Config, v: State, w: nat)
    requires LogOk(v) && w in v.workers
  {
    match v.workers[w]
    case Collecting(batch) => true
    case Flushing(batch, sink, allSucceeded) =>
      sink <= c.sinks && (allSucceeded ==> forall i :: 0 <= i < sink ==> (i, batch) in v.written)
    case Acking(batch, next) => next <= |batch| && WrittenByAll(c, v.written, batch)
    case Holding(batch, next, n) =>
      next <= |batch| && WrittenByAll(c, v.written, batch) && HeldForBatch(c, Durable(v), batch, n)
  }

  ghost predicate WorkersOk(c: Config, v: State)
    requires LogOk(v)
  {
    forall w :: w in v.workers ==> WorkerOk(c, v, w)
  }

  /** A number that is not yet acknowledged is in one place only: with its pusher, in the tracker or with a worker. */
  datatype Holder = ByPusher(p: nat) | InTracker(id: string) | ByWorker(w: nat)

  ghost predicate Holds(v: State, h: Holder, n: nat) {
    match h
    case ByPusher(p) =>
      p in v.pushers && (v.pushers[p].Writing? || v.pushers[p].Appended?) && v.pushers[p].seqNo == n
    case InTracker(id) => id in v.tracker && v.tracker[id] == n
    case ByWorker(w) => w in v.workers && v.workers[w].Holding? && v.workers[w].seqNo == n
  }

  ghost predicate HoldersOk(v: State) {
    && (forall h, n: nat :: Holds(v, h, n) ==> n <= v.seqNo && n !in v.acked)
    && (forall g, h, n: nat :: Holds(v, g, n) && Holds(v, h, n) ==> g == h)
  }

  ghost predicate Inv(c: Config, v: State) {
    && LogOk(v) && AcksOk(v) && AckSound(c, v) && AcceptedSafe(c, v)
    && PushersOk(c, v) && TrackerOk(c, v) && WorkersOk(c, v) && HoldersOk(v)
  }

  // ---- The steps keep it ---------------------------------------------------------------------

  lemma InitInv(c: Config, v: State)
    requires Init(v)
    ensures Inv(c, v)
  {
    MaxSeqBounds(v.log);
    if v.log != [] {
      var i :| 0 <= i < |v.log| && v.log[i].seqNo == MaxSeq(v.log);
    }
  }

  lemma BeginAppendInv(c: Config, v: State, p: nat, event: Event)
    requires Inv(c, v) && Possible(c, v, BeginAppend(p, event)) && c.codec.Sound()
    ensures Inv(c, After(c, v, BeginAppend(p, event)))
  {
    hide HasId, WrittenByAll, Delivered, Covered;
    var v' := After(c, v, BeginAppend(p, event));
    assert Durable(v') == Durable(v);
    assert v'.log[|v.log|].seqNo == v'.seqNo && Carries(c, v'.log[|v.log|], event);
    assert Logged(c, v'.log, v'.seqNo, event);
    forall h, n | Holds(v', h, n) ensures Holds(v, h, n) || (h == ByPusher(p) && n == v'.seqNo) {}
  }

  lemma AppendWriteFailsInv(c: Config, v: State, p: nat, event: Event)
    requires Inv(c, v) && Possible(c, v, AppendWriteFails(p, event))
    ensures Inv(c, After(c, v, AppendWriteFails(p, event)))
  {
    hide Carries, CarriesId, HasId, WrittenByAll, Delivered, Increasing, Fits;
    var v' := After(c, v, AppendWriteFails(p, event));
    assert Durable(v') == Durable(v);
    forall h, n | Holds(v', h, n) ensures Holds(v, h, n) {}
  }

  lemma SyncFailsInv(c: Config, v: State, p: nat)
    requires Inv(c, v) && Possible(c, v, SyncFails(p))
    ensures Inv(c, After(c, v, SyncFails(p)))
  {
    hide Carries, CarriesId, HasId, WrittenByAll, Delivered, Increasing, Fits, Covered;
    var v' := After(c, v, SyncFails(p));
    assert PusherOk(c, v, p);
    assert Durable(v') == Durable(v);
    forall h, n | Holds(v', h, n) ensures Holds(v, h, n) {}
  }

  lemma PusherStepInv(c: Config, v: State, step: Step)
    requires Inv(c, v) && Possible(c, v, step)
    requires step.BufferRejects? || step.RollBack? || step.BufferLoses?
    ensures Inv(c, After(c, v, step))
  {
    hide Carries, CarriesId, HasId, WrittenByAll, Delivered, Increasing, Fits, Covered, Safe, LoggedId;
    var v' := After(c, v, step);
    assert Durable(v') == Durable(v);
    forall h, n | Holds(v', h, n) ensures Holds(v, h, n) {}
  }

  lemma SyncSucceedsInv(c: Config, v: State, p: nat)
    requires Inv(c, v) && Possible(c, v, SyncSucceeds(p))
    ensures Inv(c, After(c, v, SyncSucceeds(p)))
  {
    var v' := After(c, v, SyncSucceeds(p));
    assert PusherOk(c, v, p);
    assert Durable(v') == v.log;
    forall i | 0 <= i < v.synced ensures v.log[i] == Durable(v)[i] {}
    forall h, n | Holds(v', h, n) ensures Holds(v, h, n) {}
  }

  lemma StoreNumberInv(c: Config, v: State, p: nat)
    requires Inv(c, v) && Possible(c, v, StoreNumber(p))
    ensures Inv(c, After(c, v, StoreNumber(p)))
  {
    hide WrittenByAll, Delivered, Increasing, Fits, Covered;
    var v' := After(c, v, StoreNumber(p));
    var at := v.pushers[p];
    var id := at.event.eventId;
    assert PusherOk(c, v, p);
    assert Durable(v') == Durable(v);
    assert LoggedId(c, Durable(v), at.seqNo, id) by {
      var i :| 0 <= i < v.synced && Durable(v)[i].seqNo == at.seqNo && Carries(c, Durable(v)[i], at.event);
      assert CarriesId(c, Durable(v)[i], id);
    }
    assert Holds(v, ByPusher(p), at.seqNo);
    forall h, n | Holds(v', h, n)
      ensures if h == InTracker(id) then n == at.seqNo else Holds(v, h, n) && h != ByPusher(p) {}
  }

  lemma BufferAcceptsInv(c: Config, v: State, p: nat)
    requires Inv(c, v) && Possible(c, v, BufferAccepts(p))
    ensures Inv(c, After(c, v, BufferAccepts(p)))
  {
    var v' := After(c, v, BufferAccepts(p));
    assert PusherOk(c, v, p);
    assert Durable(v') == Durable(v);
    forall h, n | Holds(v', h, n) ensures Holds(v, h, n) {}
  }

  lemma WorkerStepInv(c: Config, v: State, step: Step)
    requires Inv(c, v) && Possible(c, v, step)
    requires step.WorkerStarts? || step.Receive? || step.BeginFlush?
    ensures Inv(c, After(c, v, step))
  {
    hide Carries, CarriesId, HasId, WrittenByAll, Delivered, Increasing, Fits, Covered, Safe, LoggedId, Logged, HeldForBatch;
    var v' := After(c, v, step);
    assert Durable(v') == Durable(v);
    forall h, n | Holds(v', h, n) ensures Holds(v, h, n) {}
  }

  lemma WorkerEndsInv(c: Config, v: State, step: Step)
    requires Inv(c, v) && Possible(c, v, step) && (step.EndAcks? || step.WorkerPanics?)
    ensures Inv(c, After(c, v, step))
  {
    hide Carries, CarriesId, HasId, Delivered, Increasing, Fits, Covered, Safe, LoggedId, Logged, HeldForBatch;
    var v' := After(c, v, step);
    assert Durable(v') == Durable(v);
    forall h, n | Holds(v', h, n) ensures Holds(v, h, n) {}
  }

  lemma FlushStepInv(c: Config, v: State, step: Step)
    requires Inv(c, v) && Possible(c, v, step) && (step.SinkFails? || step.EndFlush?)
    ensures Inv(c, After(c, v, step))
  {
    var v' := After(c, v, step);
    assert Durable(v') == Durable(v);
    assert WorkerOk(c, v, step.w);
    forall h, n | Holds(v', h, n) ensures Holds(v, h, n) {}
  }

  lemma DeliveredGrows(c: Config, before: set<(nat, seq<Event>)>, after: set<(nat, seq<Event>)>)
    requires before <= after
    ensures forall id :: Delivered(c, before, id) ==> Delivered(c, after, id)
  {
    forall id | Delivered(c, before, id) ensures Delivered(c, after, id) {
      var batch :| WrittenByAll(c, before, batch) && HasId(batch, id);
      assert WrittenByAll(c, after, batch);
    }
  }

  lemma SinkAcceptsInv(c: Config, v: State, w: nat)
    requires Inv(c, v) && Possible(c, v, SinkAccepts(w))
    ensures Inv(c, After(c, v, SinkAccepts(w)))
  {
    var v' := After(c, v, SinkAccepts(w));
    assert WorkerOk(c, v, w);
    assert Durable(v') == Durable(v);
    DeliveredGrows(c, v.written, v'.written);
    forall u | u in v'.workers ensures WorkerOk(c, v', u) {
      assert WorkerOk(c, v, u);
    }
    forall p | p in v'.pushers ensures PusherOk(c, v', p) {
      assert PusherOk(c, v, p);
    }
    forall h, n | Holds(v', h, n) ensures Holds(v, h, n) {}
  }

  lemma TakeNumberInv(c: Config, v: State, w: nat)
    requires Inv(c, v) && Possible(c, v, TakeNumber(w))
    ensures Inv(c, After(c, v, TakeNumber(w)))
  {
    hide Carries, CarriesId, WrittenByAll, Delivered, Increasing, Fits;
    var v' := After(c, v, TakeNumber(w));
    var at := v.workers[w];
    var id := at.batch[at.next].eventId;
    assert WorkerOk(c, v, w);
    assert Durable(v') == Durable(v);
    if id in v.tracker {
      assert HasId(at.batch, id);
      assert LoggedId(c, Durable(v), v.tracker[id], id);
      assert Holds(v, InTracker(id), v.tracker[id]);
      forall h, n | Holds(v', h, n)
        ensures if h == ByWorker(w) then n == v.tracker[id] else Holds(v, h, n) && h != InTracker(id) {}
    } else {
      forall h, n | Holds(v', h, n) ensures Holds(v, h, n) {}
    }
  }

  lemma AcknowledgeInv(c: Config, v: State, w: nat, fileWritten: bool)
    requires Inv(c, v) && Possible(c, v, Acknowledge(w, fileWritten))
    ensures Inv(c, After(c, v, Acknowledge(w, fileWritten)))
  {
    hide Carries, CarriesId, HasId, WrittenByAll, Delivered, Increasing, Fits;
    var v' := After(c, v, Acknowledge(w, fileWritten));
    var at := v.workers[w];
    assert WorkerOk(c, v, w);
    assert Holds(v, ByWorker(w), at.seqNo);
    assert Durable(v') == Durable(v);
    AcknowledgedIsDelivered(c, v, w);
    forall h, n | Holds(v', h, n) ensures Holds(v, h, n) && h != ByWorker(w) {}
  }

  /** The record that a worker is about to acknowledge carries an id that every sink has. */
  lemma AcknowledgedIsDelivered(c: Config, v: State, w: nat)
    requires Inv(c, v) && w in v.workers && v.workers[w].Holding?
    ensures exists i :: 0 <= i < v.synced && v.log[i].seqNo == v.workers[w].seqNo
    ensures forall i, id | 0 <= i < |v.log| && v.log[i].seqNo == v.workers[w].seqNo ::
      CarriesId(c, v.log[i], id) ==> Delivered(c, v.written, id)
  {
    var at := v.workers[w];
    assert WorkerOk(c, v, w);
    var id :| HasId(at.batch, id) && LoggedId(c, Durable(v), at.seqNo, id);
    var j :| 0 <= j < v.synced && Durable(v)[j].seqNo == at.seqNo && CarriesId(c, Durable(v)[j], id);
    assert v.log[j] == Durable(v)[j];
    assert Delivered(c, v.written, id);
    forall i | 0 <= i < |v.log| && v.log[i].seqNo == at.seqNo ensures i == j {}
  }

  /** Records that survive compaction: all that are not acknowledged. */
  lemma KeptRecord(acked: set<nat>, rs: seq<Record>, i: nat) returns (j: nat)
    requires i < |rs| && rs[i].seqNo !in acked
    ensures j < |Unacked(acked, rs)| && Unacked(acked, rs)[j] == rs[i]
  {
    UnackedMember(acked, rs, rs[i]);
    j :| 0 <= j < |Unacked(acked, rs)| && Unacked(acked, rs)[j] == rs[i];
  }

  lemma SafeAfterCompaction(c: Config, v: State, event: Event)
    requires LogOk(v) && AckSound(c, v) && Safe(c, Durable(v), v.written, event)
    ensures Safe(c, Unacked(v.acked, v.log), v.written, event)
  {
    if !Delivered(c, v.written, event.eventId) {
      var i :| 0 <= i < v.synced && Carries(c, Durable(v)[i], event);
      assert v.log[i] == Durable(v)[i] && CarriesId(c, v.log[i], event.eventId);
      var j := KeptRecord(v.acked, v.log, i);
    }
  }

  lemma LoggedIdAfterCompaction(c: Config, v: State, n: nat, id: string)
    requires LogOk(v) && n !in v.acked && LoggedId(c, Durable(v), n, id)
    ensures LoggedId(c, Unacked(v.acked, v.log), n, id)
  {
    var i :| 0 <= i < v.synced && Durable(v)[i].seqNo == n && CarriesId(c, Durable(v)[i], id);
    assert v.log[i] == Durable(v)[i];
    var j := KeptRecord(v.acked, v.log, i);
  }

  lemma CompactedLogOk(v: State)
    requires LogOk(v)
    ensures Increasing(Unacked(v.acked, v.log))
    ensures forall r :: r in Unacked(v.acked, v.log) ==> 1 <= r.seqNo <= v.seqNo && Fits(r) && r.seqNo !in v.acked
  {
    UnackedInOrder(v.acked, v.log);
    forall r | r in Unacked(v.acked, v.log)
      ensures 1 <= r.seqNo <= v.seqNo && Fits(r) && r.seqNo !in v.acked
    {
      UnackedMember(v.acked, v.log, r);
    }
  }

  lemma PusherAfterCompaction(c: Config, v: State, p: nat)
    requires Inv(c, v) && Possible(c, v, RenameCompacted) && p in v.pushers
    ensures var v' := After(c, v, RenameCompacted); LogOk(v') && PusherOk(c, v', p)
  {
    CompactedLogOk(v);
    assert PusherOk(c, v, p);
    assert Durable(After(c, v, RenameCompacted)) == Unacked(v.acked, v.log);
    var at := v.pushers[p];
    if at.Appended? {
      assert Holds(v, ByPusher(p), at.seqNo);
      var i :| 0 <= i < v.synced && Durable(v)[i].seqNo == at.seqNo && Carries(c, Durable(v)[i], at.event);
      assert v.log[i] == Durable(v)[i];
      var j := KeptRecord(v.acked, v.log, i);
    }
    if at.Stored? {
      SafeAfterCompaction(c, v, at.event);
    }
  }

  lemma WorkerAfterCompaction(c: Config, v: State, w: nat)
    requires Inv(c, v) && Possible(c, v, RenameCompacted) && w in v.workers
    ensures var v' := After(c, v, RenameCompacted); LogOk(v') && WorkerOk(c, v', w)
  {
    CompactedLogOk(v);
    assert WorkerOk(c, v, w);
    assert Durable(After(c, v, RenameCompacted)) == Unacked(v.acked, v.log);
    var at := v.workers[w];
    if at.Holding? {
      assert Holds(v, ByWorker(w), at.seqNo);
      var id :| HasId(at.batch, id) && LoggedId(c, Durable(v), at.seqNo, id);
      LoggedIdAfterCompaction(c, v, at.seqNo, id);
    }
  }

  lemma RenameCompactedInv(c: Config, v: State)
    requires Inv(c, v) && Possible(c, v, RenameCompacted)
    ensures Inv(c, After(c, v, RenameCompacted))
  {
    var v' := After(c, v, RenameCompacted);
    CompactedLogOk(v);
    hide PusherOk, WorkerOk, LoggedId, Safe, Delivered, Increasing, Fits;
    assert Durable(v') == v'.log;
    forall event | event in v'.accepted ensures Safe(c, v'.log, v'.written, event) {
      SafeAfterCompaction(c, v, event);
    }
    forall p | p in v'.pushers ensures PusherOk(c, v', p) {
      PusherAfterCompaction(c, v, p);
    }
    forall id | id in v'.tracker ensures LoggedId(c, v'.log, v'.tracker[id], id) {
      assert Holds(v, InTracker(id), v.tracker[id]);
      LoggedIdAfterCompaction(c, v, v.tracker[id], id);
    }
    forall w | w in v'.workers ensures WorkerOk(c, v', w) {
      WorkerAfterCompaction(c, v, w);
    }
    forall h, n | Holds(v', h, n) ensures Holds(v, h, n) {}
  }

  lemma TruncateAcksInv(c: Config, v: State)
    requires Inv(c, v) && Possible(c, v, TruncateAcks)
    ensures Inv(c, After(c, v, TruncateAcks))
  {
    var v' := After(c, v, TruncateAcks);
    assert Durable(v') == Durable(v);
    forall p | p in v'.pushers ensures PusherOk(c, v', p) {
      assert PusherOk(c, v, p);
    }
    forall h, n | Holds(v', h, n) ensures Holds(v, h, n) {}
  }

  lemma ReachedGrows(a: nat, rs: seq<Record>, m: nat, n: nat)
    requires m <= n <= |rs| && Reached(a, rs[..m])
    ensures Reached(a, rs[..n])
  {
    var j :| 0 <= j < m && a <= rs[..m][j].seqNo;
    assert rs[..n][j] == rs[..m][j];
  }

  /** The acknowledgements that a restart finds are covered by the records that it finds. */
  lemma RestartCovered(c: Config, v: State, n: nat, k: nat, kept: multiset<Event>)
    requires Inv(c, v) && Possible(c, v, Restart(n, k, kept)) && !c.anyRestart
    ensures Covered(v.acks[..k], v.log[..n])
  {
    if v.lock != HeldByCheckpoint {
      hide Reached;
      forall i | 0 <= i < k ensures Reached(v.acks[..k][i], v.log[..n]) {
        assert Reached(v.acks[i], v.log[..v.synced]);
        ReachedGrows(v.acks[i], v.log, v.synced, n);
      }
    }
  }

  lemma CoveredBounded(acks: seq<nat>, rs: seq<Record>)
    requires Covered(acks, rs)
    ensures forall a :: a in SetOf(acks) ==> a <= MaxSeq(rs)
  {
    MaxSeqBounds(rs);
    forall a | a in SetOf(acks) ensures a <= MaxSeq(rs) {
      var i :| 0 <= i < |acks| && acks[i] == a;
      assert Reached(acks[i], rs);
    }
  }

  lemma SafeInLonger(c: Config, rs: seq<Record>, m: nat, n: nat, written: set<(nat, seq<Event>)>, event: Event)
    requires m <= n <= |rs| && Safe(c, rs[..m], written, event)
    ensures Safe(c, rs[..n], written, event)
  {
    if !Delivered(c, written, event.eventId) {
      var i :| 0 <= i < m && Carries(c, rs[..m][i], event);
      assert rs[..n][i] == rs[..m][i];
    }
  }

  lemma PrefixLogOk(v: State, n: nat)
    requires LogOk(v) && n <= |v.log|
    ensures Increasing(v.log[..n]) && MaxSeq(v.log[..n]) < U64
    ensures forall i :: 0 <= i < n ==> 1 <= v.log[..n][i].seqNo <= MaxSeq(v.log[..n]) && Fits(v.log[..n][i])
  {
    MaxSeqBounds(v.log[..n]);
    if n > 0 {
      assert MaxSeq(v.log[..n]) in Seqs(v.log[..n]);
    }
  }

  lemma RestartInv(c: Config, v: State, n: nat, k: nat, kept: multiset<Event>)
    requires Inv(c, v) && Possible(c, v, Restart(n, k, kept)) && !c.anyRestart
    ensures Inv(c, After(c, v, Restart(n, k, kept)))
  {
    var v' := After(c, v, Restart(n, k, kept));
    PrefixLogOk(v, n);
    RestartCovered(c, v, n, k, kept);
    CoveredBounded(v.acks[..k], v.log[..n]);
    hide Covered, Safe, Delivered, CarriesId, Increasing, Fits, MaxSeq;
    assert Durable(v') == v'.log;
    forall a | a in v'.acked ensures a in v.acked {
      var i :| 0 <= i < |v'.acks| && v'.acks[i] == a;
      assert v'.acks[i] == v.acks[i];
    }
    forall event | event in v'.accepted ensures Safe(c, v'.log, v'.written, event) {
      SafeInLonger(c, v.log, v.synced, n, v.written, event);
    }
    assert forall h, m :: !Holds(v', h, m);
  }

  lemma StepInv(c: Config, v: State, step: Step)
    requires Inv(c, v) && Possible(c, v, step) && c.codec.Sound() && !c.anyRestart
    ensures Inv(c, After(c, v, step))
  {
    hide Inv, After, Possible;
    match step
    case BeginAppend(p, event) => BeginAppendInv(c, v, p, event);
    case SyncSucceeds(p) => SyncSucceedsInv(c, v, p);
    case StoreNumber(p) => StoreNumberInv(c, v, p);
    case BufferAccepts(p) => BufferAcceptsInv(c, v, p);
    case SinkAccepts(w) => SinkAcceptsInv(c, v, w);
    case TakeNumber(w) => TakeNumberInv(c, v, w);
    case Acknowledge(w, fileWritten) => AcknowledgeInv(c, v, w, fileWritten);
    case RenameCompacted => RenameCompactedInv(c, v);
    case TruncateAcks => TruncateAcksInv(c, v);
    case Restart(n, k, kept) => RestartInv(c, v, n, k, kept);
    case SinkFails(_) => FlushStepInv(c, v, step);
    case EndFlush(_) => FlushStepInv(c, v, step);
    case AppendWriteFails(p, event) => AppendWriteFailsInv(c, v, p, event);
    case SyncFails(p) => SyncFailsInv(c, v, p);
    case BufferRejects(_) => PusherStepInv(c, v, step);
    case RollBack(_) => PusherStepInv(c, v, step);
    case BufferLoses(_) => PusherStepInv(c, v, step);
    case EndAcks(_) => WorkerEndsInv(c, v, step);
    case WorkerPanics(_) => WorkerEndsInv(c, v, step);
    case _ => WorkerStepInv(c, v, step);
  }

  // ---- Main results ----------------------------------------------------------------------------

  lemma {:induction false} RunInv(c: Config, v: State, steps: seq<Step>)
    requires Inv(c, v) && CanRun(c, v, steps) && c.codec.Sound() && !c.anyRestart
    ensures Inv(c, Run(c, v, steps))
    decreases |steps|
  {
    if steps != [] {
      StepInv(c, v, steps[0]);
      RunInv(c, After(c, v, steps[0]), steps[1..]);
    }
  }

  /** What a crash leaves on disk: at least the synced records, and any prefix of the ack file. */
  ghost predicate CrashImage(v: State, d: Disk) {
    && v.synced <= |v.log|
    && (exists cut ::
      && |EncodeLog(v.log[..v.synced])| <= cut <= |EncodeLog(v.log)|
      && d.walFile == EncodeLog(v.log)[..cut])
    && (exists k :: 0 <= k <= |EncodeAcks(v.acks)| && d.ackFile == EncodeAcks(v.acks)[..k])
  }

  ghost predicate Recovered(c: Config, d: Disk, event: Event) {
    exists e :: e in RecoverFrom(c.codec, d) && e.event == event
  }

  /**
   * At-least-once delivery. In every state that any run can reach, and for every disk image a crash
   * there can leave, an event for which Push returned nil is recovered after the restart, or one
   * batch with its id has been written by every sink.
   */
  lemma AtLeastOnce(c: Config, init: State, steps: seq<Step>, d: Disk, event: Event)
    requires c.codec.Sound() && !c.anyRestart && Init(init) && CanRun(c, init, steps)
    requires event in Run(c, init, steps).accepted
    requires CrashImage(Run(c, init, steps), d)
    ensures Recovered(c, d, event) || Delivered(c, Run(c, init, steps).written, event.eventId)
  {
    InitInv(c, init);
    RunInv(c, init, steps);
    CrashKeepsAccepted(c, Run(c, init, steps), d, event);
  }

  lemma CrashKeepsAccepted(c: Config, v: State, d: Disk, event: Event)
    requires Inv(c, v) && event in v.accepted && CrashImage(v, d)
    ensures Recovered(c, d, event) || Delivered(c, v.written, event.eventId)
  {
    if !Delivered(c, v.written, event.eventId) {
      assert Safe(c, Durable(v), v.written, event);
      var i :| 0 <= i < v.synced && Carries(c, Durable(v)[i], event);
      assert v.log[i] == Durable(v)[i] && CarriesId(c, v.log[i], event.eventId);
      var e := Entry(v.log[i].seqNo, event);
      assert v.log[i].seqNo !in v.acked;
      EntriesMember(c.codec, SetOf(v.acks), Durable(v), e);
      var cut :| |EncodeLog(Durable(v))| <= cut <= |EncodeLog(v.log)| && d.walFile == EncodeLog(v.log)[..cut];
      var k :| 0 <= k <= |EncodeAcks(v.acks)| && d.ackFile == EncodeAcks(v.acks)[..k];
      AppendCrash(c.codec, v.log, v.synced, cut, v.acks, k, e);
    }
  }

  /**
   * Acknowledgement soundness. In every reachable state the tracker sends an id to a record that
   * carries it, and a step acknowledges a number only if its record carries an id of a batch that
   * every sink has written: with duplicate ids, concurrent callers and rollbacks alike.
   */
  lemma AckSoundness(c: Config, init: State, steps: seq<Step>, step: Step)
    requires c.codec.Sound() && !c.anyRestart && Init(init) && CanRun(c, init, steps)
    requires Possible(c, Run(c, init, steps), step)
    ensures var v := Run(c, init, steps);
      && (forall id :: id in v.tracker ==> LoggedId(c, v.log, v.tracker[id], id))
      && (forall n :: n in After(c, v, step).acked && n !in v.acked ==>
          exists id :: LoggedId(c, v.log, n, id) && Delivered(c, v.written, id))
  {
    InitInv(c, init);
    RunInv(c, init, steps);
    hide CanRun, Run, Inv, After, Possible;
    AckStepSound(c, Run(c, init, steps), step);
  }

  lemma AckStepSound(c: Config, v: State, step: Step)
    requires Inv(c, v) && Possible(c, v, step)
    ensures forall id :: id in v.tracker ==> LoggedId(c, v.log, v.tracker[id], id)
    ensures forall n :: n in After(c, v, step).acked && n !in v.acked ==>
      exists id :: LoggedId(c, v.log, n, id) && Delivered(c, v.written, id)
  {
    hide LoggedId, Increasing, Fits, Carries, CarriesId;
    forall id | id in v.tracker ensures LoggedId(c, v.log, v.tracker[id], id) {
      LoggedIdInLog(c, v, v.tracker[id], id);
    }
    if step.Acknowledge? {
      var at := v.workers[step.w];
      assert WorkerOk(c, v, step.w);
      var id :| HasId(at.batch, id) && LoggedId(c, Durable(v), at.seqNo, id);
      LoggedIdInLog(c, v, at.seqNo, id);
      assert Delivered(c, v.written, id);
    } else if step.Restart? {
      assert forall n :: n in SetOf(v.acks[..step.acks]) ==> n in SetOf(v.acks);
    }
  }

  lemma LoggedIdInLog(c: Config, v: State, n: nat, id: string)
    requires LogOk(v) && LoggedId(c, Durable(v), n, id)
    ensures LoggedId(c, v.log, n, id)
  {
    var i :| 0 <= i < v.synced && Durable(v)[i].seqNo == n && CarriesId(c, Durable(v)[i], id);
    assert v.log[i] == Durable(v)[i];
  }

  // ---- Numbers since the last restart ----------------------------------------------------------------

  /** The numbers given out by appends since the last restart, or since the start of the run with `given`. */
  ghost function GivenOut(c: Config, v: State, steps: seq<Step>, given: set<nat>): set<nat>
    requires CanRun(c, v, steps)
    decreases |steps|
  {
    if steps == [] then given else GivenOut(c, After(c, v, steps[0]), steps[1..], GivenAfter(v, steps[0], given))
  }

  function GivenAfter(v: State, step: Step, given: set<nat>): set<nat> {
    match step
    case BeginAppend(_, _) => given + {v.seqNo + 1}
    case Restart(_, _, _) => {}
    case _ => given
  }

  ghost predicate HoldersWithin(v: State, given: set<nat>) {
    forall h, n: nat :: Holds(v, h, n) ==> n in given
  }

  lemma StepHolders(c: Config, v: State, step: Step, given: set<nat>)
    requires HoldersWithin(v, given) && Possible(c, v, step)
    ensures HoldersWithin(After(c, v, step), GivenAfter(v, step, given))
  {
    hide After, Possible, HoldersWithin;
    match step
    case StoreNumber(p) => StoreHolders(c, v, p, given);
    case TakeNumber(w) => TakeHolders(c, v, w, given);
    case BeginAppend(p, event) => BeginHolders(c, v, p, event, given);
    case Restart(n, k, kept) => RestartHolders(c, v, n, k, kept);
    case _ => OtherHolders(c, v, step, given);
  }

  lemma StoreHolders(c: Config, v: State, p: nat, given: set<nat>)
    requires HoldersWithin(v, given) && Possible(c, v, StoreNumber(p))
    ensures HoldersWithin(After(c, v, StoreNumber(p)), given)
  {
    var v', id := After(c, v, StoreNumber(p)), v.pushers[p].event.eventId;
    assert Holds(v, ByPusher(p), v.pushers[p].seqNo);
    forall h, n | Holds(v', h, n) ensures if h == InTracker(id) then n == v.pushers[p].seqNo else Holds(v, h, n) {}
  }

  lemma TakeHolders(c: Config, v: State, w: nat, given: set<nat>)
    requires HoldersWithin(v, given) && Possible(c, v, TakeNumber(w))
    ensures HoldersWithin(After(c, v, TakeNumber(w)), given)
  {
    var v', id := After(c, v, TakeNumber(w)), v.workers[w].batch[v.workers[w].next].eventId;
    assert id in v.tracker ==> Holds(v, InTracker(id), v.tracker[id]);
    forall h, n | Holds(v', h, n) ensures Holds(v, h, n) || (id in v.tracker && n == v.tracker[id]) {}
  }

  lemma BeginHolders(c: Config, v: State, p: nat, event: Event, given: set<nat>)
    requires HoldersWithin(v, given) && Possible(c, v, BeginAppend(p, event))
    ensures HoldersWithin(After(c, v, BeginAppend(p, event)), given + {v.seqNo + 1})
  {
    var v' := After(c, v, BeginAppend(p, event));
    forall h, n | Holds(v', h, n) ensures Holds(v, h, n) || n == v.seqNo + 1 {}
  }

  lemma RestartHolders(c: Config, v: State, n: nat, k: nat, kept: multiset<Event>)
    requires Possible(c, v, Restart(n, k, kept))
    ensures HoldersWithin(After(c, v, Restart(n, k, kept)), {})
  {
  }

  lemma OtherHolders(c: Config, v: State, step: Step, given: set<nat>)
    requires HoldersWithin(v, given) && Possible(c, v, step)
    requires !step.BeginAppend? && !step.StoreNumber? && !step.TakeNumber? && !step.Restart?
    ensures HoldersWithin(After(c, v, step), given)
  {
    var v' := After(c, v, step);
    forall h, n | Holds(v', h, n) ensures Holds(v, h, n) {}
  }

  lemma {:induction false} RunHolders(c: Config, v: State, steps: seq<Step>, given: set<nat>)
    requires HoldersWithin(v, given) && CanRun(c, v, steps)
    ensures HoldersWithin(Run(c, v, steps), GivenOut(c, v, steps, given))
    decreases |steps|
  {
    if steps != [] {
      StepHolders(c, v, steps[0], given);
      RunHolders(c, After(c, v, steps[0]), steps[1..], GivenAfter(v, steps[0], given));
    }
  }

  /**
   * Every number that a caller, the tracker or a worker holds was given out by an append since the last
   * restart: nothing that an earlier process held is acknowledged by a later one.
   */
  lemma HeldSinceRestart(c: Config, init: State, steps: seq<Step>)
    requires Init(init) && CanRun(c, init, steps)
    ensures var v, given := Run(c, init, steps), GivenOut(c, init, steps, {});
      && (forall p :: p in v.pushers && (v.pushers[p].Writing? || v.pushers[p].Appended?) ==> v.pushers[p].seqNo in given)
      && (forall id :: id in v.tracker ==> v.tracker[id] in given)
      && (forall w :: w in v.workers && v.workers[w].Holding? ==> v.workers[w].seqNo in given)
  {
    RunHolders(c, init, steps, {});
    hide CanRun, Run, GivenOut;
    var v := Run(c, init, steps);
    assert forall p :: p in v.pushers && (v.pushers[p].Writing? || v.pushers[p].Appended?) ==> Holds(v, ByPusher(p), v.pushers[p].seqNo);
    assert forall id :: id in v.tracker ==> Holds(v, InTracker(id), v.tracker[id]);
    assert forall w :: w in v.workers && v.workers[w].Holding? ==> Holds(v, ByWorker(w), v.workers[w].seqNo);
  }

  // ---- What recovery returns -----------------------------------------------------------------------

  /** A crash image reads as some of the records, at least the synced ones, and some of the acknowledgements. */
  lemma CrashReads(c: Config, v: State, d: Disk) returns (n: nat, k: nat)
    requires Inv(c, v) && CrashImage(v, d)
    ensures v.synced <= n <= |v.log| && k <= |v.acks|
    ensures ParseLog(d.walFile) == v.log[..n] && ParseAcks(d.ackFile) == v.acks[..k]
  {
    LogLawful();
    AcksLawful();
    hide Lawful, Parse, Encode, Increasing;
    var cut :| |EncodeLog(v.log[..v.synced])| <= cut <= |EncodeLog(v.log)| && d.walFile == EncodeLog(v.log)[..cut];
    var at :| 0 <= at <= |EncodeAcks(v.acks)| && d.ackFile == EncodeAcks(v.acks)[..at];
    TornTailKeeps(LOG, v.log, v.synced, cut);
    TornTail(ACKS, v.acks, at);
    n, k := |ParseLog(d.walFile)|, |ParseAcks(d.ackFile)|;
  }

  /**
   * Exactly which events a crash in a reachable state lets recovery return: those carried by a surviving
   * record without a surviving acknowledgement, whether Push returned nil for them or an error.
   */
  lemma RecoveredIff(c: Config, init: State, steps: seq<Step>, d: Disk) returns (n: nat, k: nat)
    requires c.codec.Sound() && !c.anyRestart && Init(init) && CanRun(c, init, steps)
    requires CrashImage(Run(c, init, steps), d)
    ensures var v := Run(c, init, steps);
      && v.synced <= n <= |v.log| && k <= |v.acks|
      && forall event :: Recovered(c, d, event) <==>
        exists i :: 0 <= i < n && Carries(c, v.log[i], event) && v.log[i].seqNo !in v.acks[..k]
  {
    InitInv(c, init);
    RunInv(c, init, steps);
    hide CanRun, Run, Inv, CrashImage;
    var v := Run(c, init, steps);
    n, k := CrashReads(c, v, d);
    forall event
      ensures Recovered(c, d, event) <==>
        exists i :: 0 <= i < n && Carries(c, v.log[i], event) && v.log[i].seqNo !in v.acks[..k]
    {
      RecoveredFrom(c, d, v.log, n, v.acks[..k], event);
    }
  }

  lemma RecoveredFrom(c: Config, d: Disk, rs: seq<Record>, n: nat, acks: seq<nat>, event: Event)
    requires n <= |rs| && ParseLog(d.walFile) == rs[..n] && ParseAcks(d.ackFile) == acks
    ensures Recovered(c, d, event) <==> exists i :: 0 <= i < n && Carries(c, rs[i], event) && rs[i].seqNo !in acks
  {
    var acked := SetOf(acks);
    if Recovered(c, d, event) {
      var e :| e in RecoverFrom(c.codec, d) && e.event == event;
      EntriesMember(c.codec, acked, rs[..n], e);
      var i :| 0 <= i < n && rs[..n][i].seqNo == e.seqNo && e.seqNo !in acked
        && c.codec.unmarshal(rs[..n][i].payload) == Some(event);
      assert Carries(c, rs[i], event) && rs[i].seqNo !in acks;
    }
    forall i | 0 <= i < n && Carries(c, rs[i], event) && rs[i].seqNo !in acks ensures Recovered(c, d, event) {
      EntriesMember(c.codec, acked, rs[..n], Entry(rs[i].seqNo, event));
      assert rs[..n][i] == rs[i];
    }
  }

  /** A payload is that of an offered event or was in the log from the start. */
  ghost predicate Known(c: Config, initial: seq<Record>, offered: set<Event>, payload: seq<byte>) {
    || (exists event :: event in offered && c.codec.marshal(event) == Some(payload))
    || (exists j :: 0 <= j < |initial| && initial[j].payload == payload)
  }

  ghost predicate OnlyKnown(c: Config, initial: seq<Record>, v: State) {
    forall i :: 0 <= i < |v.log| ==> Known(c, initial, v.offered, v.log[i].payload)
  }

  lemma StepOnlyKnown(c: Config, initial: seq<Record>, v: State, step: Step)
    requires OnlyKnown(c, initial, v) && Possible(c, v, step)
    ensures OnlyKnown(c, initial, After(c, v, step))
  {
    var v' := After(c, v, step);
    forall i | 0 <= i < |v'.log| ensures Known(c, initial, v'.offered, v'.log[i].payload) {
      if step.RenameCompacted? {
        UnackedMember(v.acked, v.log, v'.log[i]);
      } else if i < |v.log| {
        assert Known(c, initial, v.offered, v.log[i].payload);
      }
    }
  }

  lemma {:induction false} RunOnlyKnown(c: Config, initial: seq<Record>, v: State, steps: seq<Step>)
    requires OnlyKnown(c, initial, v) && CanRun(c, v, steps)
    ensures OnlyKnown(c, initial, Run(c, v, steps))
    decreases |steps|
  {
    if steps != [] {
      StepOnlyKnown(c, initial, v, steps[0]);
      RunOnlyKnown(c, initial, After(c, v, steps[0]), steps[1..]);
    }
  }

  /** Nothing is recovered that was not offered to Push or in the log from the start. */
  lemma RecoveredWasOffered(c: Config, init: State, steps: seq<Step>, d: Disk, event: Event)
    requires c.codec.Sound() && !c.anyRestart && Init(init) && CanRun(c, init, steps)
    requires CrashImage(Run(c, init, steps), d) && Recovered(c, d, event)
    ensures event in Run(c, init, steps).offered || exists j :: 0 <= j < |init.log| && Carries(c, init.log[j], event)
  {
    var n, k := RecoveredIff(c, init, steps, d);
    RunOnlyKnown(c, init.log, init, steps);
    hide CanRun, Run, CrashImage, Recovered, Known, Carries;
    var v := Run(c, init, steps);
    var i :| 0 <= i < n && Carries(c, v.log[i], event) && v.log[i].seqNo !in v.acks[..k];
    CarriesKnown(c, init.log, v.offered, v.log[i], event);
  }

  lemma CarriesKnown(c: Config, initial: seq<Record>, offered: set<Event>, r: Record, event: Event)
    requires c.codec.Sound() && Known(c, initial, offered, r.payload) && Carries(c, r, event)
    ensures event in offered || exists j :: 0 <= j < |initial| && Carries(c, initial[j], event)
  {
    if j :| 0 <= j < |initial| && initial[j].payload == r.payload {
      assert Carries(c, initial[j], event);
    }
  }

  // ---- Delivery by content ------------------------------------------------------------------------

  predicate AllOffered(offered: set<Event>, batch: seq<Event>) {
    forall i :: 0 <= i < |batch| ==> batch[i] in offered
  }

  /** Nothing reaches a sink that was not offered to Push. */
  ghost predicate OnlyOffered(v: State) {
    && (forall event :: event in v.buffer ==> event in v.offered)
    && (forall p :: p in v.pushers ==> v.pushers[p].event in v.offered)
    && (forall w :: w in v.workers ==> AllOffered(v.offered, v.workers[w].batch))
    && (forall i, batch :: (i, batch) in v.written ==> AllOffered(v.offered, batch))
    && v.accepted <= v.offered
  }

  lemma {:induction false} RunOnlyOffered(c: Config, v: State, steps: seq<Step>)
    requires OnlyOffered(v) && CanRun(c, v, steps)
    ensures OnlyOffered(Run(c, v, steps))
    decreases |steps|
  {
    if steps != [] {
      StepOnlyOffered(c, v, steps[0]);
      RunOnlyOffered(c, After(c, v, steps[0]), steps[1..]);
    }
  }

  lemma StepOnlyOffered(c: Config, v: State, step: Step)
    requires OnlyOffered(v) && Possible(c, v, step)
    ensures OnlyOffered(After(c, v, step))
  {
    hide After, Possible, OnlyOffered;
    match step
    case BeginAppend(_, _) => PusherStepOnlyOffered(c, v, step);
    case AppendWriteFails(_, _) => PusherStepOnlyOffered(c, v, step);
    case SyncSucceeds(_) => PusherStepOnlyOffered(c, v, step);
    case SyncFails(_) => PusherStepOnlyOffered(c, v, step);
    case StoreNumber(_) => PusherStepOnlyOffered(c, v, step);
    case BufferAccepts(_) => PusherStepOnlyOffered(c, v, step);
    case BufferRejects(_) => PusherStepOnlyOffered(c, v, step);
    case RollBack(_) => PusherStepOnlyOffered(c, v, step);
    case WorkerStarts(_) => WorkerStepOnlyOffered(c, v, step);
    case Receive(_, _) => WorkerStepOnlyOffered(c, v, step);
    case BeginFlush(_) => WorkerStepOnlyOffered(c, v, step);
    case SinkAccepts(_) => SinkAcceptsOnlyOffered(c, v, step);
    case SinkFails(_) => FlushStepOnlyOffered(c, v, step);
    case EndFlush(_) => FlushStepOnlyOffered(c, v, step);
    case TakeNumber(_) => FlushStepOnlyOffered(c, v, step);
    case Acknowledge(_, _) => FlushStepOnlyOffered(c, v, step);
    case EndAcks(_) => FlushStepOnlyOffered(c, v, step);
    case _ => OtherStepOnlyOffered(c, v, step);
  }

  lemma PusherStepOnlyOffered(c: Config, v: State, step: Step)
    requires OnlyOffered(v) && Possible(c, v, step)
    requires step.BeginAppend? || step.AppendWriteFails? || step.SyncSucceeds? || step.SyncFails?
      || step.StoreNumber? || step.BufferAccepts? || step.BufferRejects? || step.RollBack?
    ensures OnlyOffered(After(c, v, step))
  {
  }

  lemma OtherStepOnlyOffered(c: Config, v: State, step: Step)
    requires OnlyOffered(v) && Possible(c, v, step)
    requires step.BufferLoses? || step.WorkerPanics? || step.RenameCompacted? || step.TruncateAcks? || step.Restart?
    ensures OnlyOffered(After(c, v, step))
  {
  }

  lemma SinkAcceptsOnlyOffered(c: Config, v: State, step: Step)
    requires OnlyOffered(v) && Possible(c, v, step) && step.SinkAccepts?
    ensures OnlyOffered(After(c, v, step))
  {
    assert AllOffered(v.offered, v.workers[step.w].batch);
  }

  lemma WorkerStepOnlyOffered(c: Config, v: State, step: Step)
    requires OnlyOffered(v) && Possible(c, v, step)
    requires step.WorkerStarts? || step.Receive? || step.BeginFlush?
    ensures OnlyOffered(After(c, v, step))
  {
    var v', w := After(c, v, step), step.w;
    assert w in v.workers ==> AllOffered(v.offered, v.workers[w].batch);
    assert AllOffered(v.offered, v'.workers[w].batch);
  }

  lemma FlushStepOnlyOffered(c: Config, v: State, step: Step)
    requires OnlyOffered(v) && Possible(c, v, step)
    requires step.SinkFails? || step.EndFlush? || step.TakeNumber? || step.Acknowledge? || step.EndAcks?
    ensures OnlyOffered(After(c, v, step))
  {
    var v', w := After(c, v, step), step.w;
    assert AllOffered(v.offered, v.workers[w].batch);
    assert AllOffered(v.offered, v'.workers[w].batch);
  }

  ghost predicate IdsDetermineEvents(events: set<Event>) {
    forall e, f :: e in events && f in events && e.eventId == f.eventId ==> e == f
  }

  /**
   * When no two offered events share an id, delivery is by content: the accepted event itself is
   * recovered or sits in a batch that every sink has written.
   */
  lemma AtLeastOnceByContent(c: Config, init: State, steps: seq<Step>, d: Disk, event: Event)
    requires c.codec.Sound() && !c.anyRestart && Init(init) && CanRun(c, init, steps)
    requires event in Run(c, init, steps).accepted
    requires CrashImage(Run(c, init, steps), d)
    requires IdsDetermineEvents(Run(c, init, steps).offered)
    ensures Recovered(c, d, event)
      || exists batch :: WrittenByAll(c, Run(c, init, steps).written, batch) && event in batch
  {
    var v := Run(c, init, steps);
    AtLeastOnce(c, init, steps, d, event);
    RunOnlyOffered(c, init, steps);
    if c.sinks == 0 {
      assert WrittenByAll(c, v.written, [event]) && event in [event];
    } else if !Recovered(c, d, event) {
      var batch: seq<Event> :| WrittenByAll(c, v.written, batch) && HasId(batch, event.eventId);
      assert (0, batch) in v.written;
      var i :| 0 <= i < |batch| && batch[i].eventId == event.eventId;
      assert batch[i] == event;
    }
  }
}
