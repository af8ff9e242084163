/** The methods of the service and of the worker are runs of the pipeline's state machine. */
module DeliveryRefinement {
  import opened Options
  import opened BigEndian
  import opened Events
  import opened PrefixCode
  import opened WalFormat
  import opened WalSpec
  import opened FileWal
  import opened Tracker
  import opened Registries
  import opened Services
  import opened Flushing
  import D = Delivery

  /** The service's objects hold what the machine's state says. */
  ghost predicate Matches(s: Snapshot, v: D.State) {
    && s.walFile == EncodeLog(v.log) && s.seqNo == v.seqNo && s.tracker == v.tracker
    && v.buffer == multiset(s.queue)
  }

  /** What a call of Push does not change. */
  ghost predicate SameElsewhere(v: D.State, v': D.State) {
    && v'.acks == v.acks && v'.acked == v.acked && v'.lock == v.lock && v'.workers == v.workers
    && v'.pushers == v.pushers && v'.written == v.written
  }

  lemma Extend(c: D.Config, v: D.State, steps: seq<D.Step>, u: D.State, step: D.Step) returns (steps': seq<D.Step>, u': D.State)
    requires D.CanRun(c, v, steps) && u == D.Run(c, v, steps) && D.Possible(c, u, step)
    ensures D.CanRun(c, v, steps') && u' == D.Run(c, v, steps') == D.After(c, u, step)
  {
    D.ExtendRun(c, v, steps, step);
    steps', u' := steps + [step], D.After(c, u, step);
  }

  lemma LogOneMore(s: Snapshot, v: D.State, n: nat, payload: seq<byte>)
    requires s.walFile == EncodeLog(v.log)
    ensures s.walFile + EncodeRecord(Record(n, payload)) == EncodeLog(v.log + [Record(n, payload)])
  {
    EncodeSnoc(LOG, v.log, Record(n, payload));
  }

  /**
   * A call of Push with nobody in between is a run of the machine: from matching states to matching
   * states, and the event joins the accepted ones exactly when Push returns nil. After a successful
   * fsync the whole log is durable.
   */
  lemma PushIsRun(c: D.Config, v: D.State, s: Snapshot, size: nat, p: nat, req: Event, now: real, io: IoOutcome)
    returns (steps: seq<D.Step>)
    requires Matches(s, v) && v.lock == D.Free && p !in v.pushers && v.seqNo + 1 < U64
    ensures D.CanRun(c, v, steps)
    ensures var v', (r, s') := D.Run(c, v, steps), PushSpec(c.codec, size, s, req, now, io);
      && Matches(s', v') && SameElsewhere(v, v')
      && v'.accepted == v.accepted + (if r.Ok? then {req} else {})
      && (if AllowTenant(s.limits, req.tenantId, now).0 && c.codec.marshal(req).Some? then
          v'.offered == v.offered + {req} && v'.synced == (if io.IoOk? then |v'.log| else v.synced)
        else
          v'.offered == v.offered && v'.synced == v.synced)
  {
    hide D.Possible, D.After, D.CanRun, D.Run, AllowTenant, EncodeLog, EncodeRecord, PushSpec;
    var (admitted, limits) := AllowTenant(s.limits, req.tenantId, now);
    var data := c.codec.marshal(req);
    assert v.log + [] == v.log && v.accepted + {} == v.accepted;
    PushEffects(c.codec, size, s, req, now, io);
    if !admitted || data.None? {
      steps := RestIsRun(c, v);
    } else if io.IoOk? {
      var u;
      steps, u := AppendIsRun(c, v, p, req);
      LogOneMore(s, v, v.seqNo + 1, data.value);
      if |s.queue| < size {
        steps := AcceptIsRun(c, v, p, req, steps, u);
      } else {
        steps := RejectIsRun(c, v, p, req, steps, u);
      }
    } else {
      LogOneMore(s, v, v.seqNo + 1, data.value);
      steps := FailedAppendIsRun(c, v, p, req, io);
    }
  }

  lemma RestIsRun(c: D.Config, v: D.State) returns (steps: seq<D.Step>)
    ensures D.CanRun(c, v, steps) && D.Run(c, v, steps) == v
  {
    steps := [];
  }

  /** Written and synced: the caller holds its number and the lock is free again. */
  ghost predicate HasAppended(c: D.Config, v: D.State, u: D.State, p: nat, req: Event)
    requires c.codec.marshal(req).Some?
  {
    && u.log == v.log + [Record(v.seqNo + 1, c.codec.marshal(req).value)] && u.seqNo == v.seqNo + 1
    && u.acks == v.acks && u.acked == v.acked && u.lock == D.Free && u.workers == v.workers
    && u.written == v.written && u.tracker == v.tracker && u.accepted == v.accepted
    && u.pushers == v.pushers[p := D.Appended(req, v.seqNo + 1)]
    && u.synced == |u.log| && u.buffer == v.buffer && u.offered == v.offered + {req}
  }

  lemma AppendIsRun(c: D.Config, v: D.State, p: nat, req: Event) returns (steps: seq<D.Step>, u: D.State)
    requires v.lock == D.Free && p !in v.pushers && v.seqNo + 1 < U64 && c.codec.marshal(req).Some?
    ensures D.CanRun(c, v, steps) && u == D.Run(c, v, steps) && HasAppended(c, v, u, p, req)
  {
    hide D.CanRun, D.Run;
    steps := RestIsRun(c, v);
    steps, u := Extend(c, v, steps, v, D.BeginAppend(p, req));
    steps, u := Extend(c, v, steps, u, D.SyncSucceeds(p));
  }

  lemma FailedAppendIsRun(c: D.Config, v: D.State, p: nat, req: Event, io: IoOutcome) returns (steps: seq<D.Step>)
    requires v.lock == D.Free && p !in v.pushers && v.seqNo + 1 < U64 && c.codec.marshal(req).Some? && !io.IoOk?
    ensures D.CanRun(c, v, steps) && SameElsewhere(v, D.Run(c, v, steps))
    ensures var u := D.Run(c, v, steps);
      && u.seqNo == v.seqNo + 1 && u.tracker == v.tracker && u.accepted == v.accepted
      && u.synced == v.synced && u.buffer == v.buffer && u.offered == v.offered + {req}
      && u.log == v.log + (if io.IoSyncFailed? then [Record(v.seqNo + 1, c.codec.marshal(req).value)] else [])
  {
    var u;
    hide D.CanRun, D.Run;
    steps := RestIsRun(c, v);
    if io.IoWriteFailed? {
      steps, u := Extend(c, v, steps, v, D.AppendWriteFails(p, req));
    } else {
      steps, u := Extend(c, v, steps, v, D.BeginAppend(p, req));
      steps, u := Extend(c, v, steps, u, D.SyncFails(p));
      assert u.pushers == v.pushers;
    }
  }

  lemma AcceptIsRun(c: D.Config, v: D.State, p: nat, req: Event, before: seq<D.Step>, u: D.State) returns (steps: seq<D.Step>)
    requires c.codec.marshal(req).Some? && v.lock == D.Free && p !in v.pushers
    requires D.CanRun(c, v, before) && u == D.Run(c, v, before) && HasAppended(c, v, u, p, req)
    ensures D.CanRun(c, v, steps) && SameElsewhere(v, D.Run(c, v, steps))
    ensures var u' := D.Run(c, v, steps);
      && u'.log == u.log && u'.seqNo == u.seqNo && u'.accepted == v.accepted + {req}
      && u'.tracker == v.tracker[req.eventId := u.seqNo]
      && u'.synced == u.synced && u'.buffer == u.buffer + multiset{req} && u'.offered == u.offered
  {
    hide D.CanRun, D.Run;
    var u';
    steps, u' := Extend(c, v, before, u, D.StoreNumber(p));
    steps, u' := Extend(c, v, steps, u', D.BufferAccepts(p));
    assert u'.pushers == v.pushers;
  }

  lemma RejectIsRun(c: D.Config, v: D.State, p: nat, req: Event, before: seq<D.Step>, u: D.State) returns (steps: seq<D.Step>)
    requires c.codec.marshal(req).Some? && v.lock == D.Free && p !in v.pushers
    requires D.CanRun(c, v, before) && u == D.Run(c, v, before) && HasAppended(c, v, u, p, req)
    ensures D.CanRun(c, v, steps) && SameElsewhere(v, D.Run(c, v, steps))
    ensures var u' := D.Run(c, v, steps);
      && u'.log == u.log && u'.seqNo == u.seqNo && u'.accepted == v.accepted
      && u'.tracker == v.tracker - {req.eventId}
      && u'.synced == u.synced && u'.buffer == u.buffer && u'.offered == u.offered
  {
    hide D.CanRun, D.Run;
    var u';
    steps, u' := Extend(c, v, before, u, D.StoreNumber(p));
    steps, u' := Extend(c, v, steps, u', D.BufferRejects(p));
    steps, u' := Extend(c, v, steps, u', D.RollBack(p));
    assert u'.pushers == v.pushers;
    assert u'.tracker == v.tracker - {req.eventId};
  }

  /** A checkpoint that is not interrupted is a run of the machine, and does what its record-level step does. */
  lemma CheckpointIsRun(c: D.Config, v: D.State) returns (steps: seq<D.Step>)
    requires v.lock == D.Free
    ensures D.CanRun(c, v, steps)
    ensures var u := D.Run(c, v, steps);
      && Wal(u.log, u.acked, u.seqNo) == Apply(Wal(v.log, v.acked, v.seqNo), CheckpointOp)
      && u == v.(log := u.log, synced := |u.log|, acks := [], acked := {})
  {
    var u;
    steps, u := Extend(c, v, [], v, D.RenameCompacted);
    hide D.CanRun, D.Run;
    steps, u := Extend(c, v, steps, u, D.TruncateAcks);
  }

  /**
   * Once its record is synced a call goes on to its end whatever holds the lock and whoever else is at work:
   * it stores its number and is accepted by the buffer, or is rejected and takes its id out again.
   */
  lemma PushGoesOn(c: D.Config, v: D.State, p: nat, accepts: bool) returns (steps: seq<D.Step>)
    requires p in v.pushers && v.pushers[p].Appended?
    ensures D.CanRun(c, v, steps)
    ensures var at := v.pushers[p];
      D.Run(c, v, steps) == if accepts
        then v.(tracker := v.tracker[at.event.eventId := at.seqNo], buffer := v.buffer + multiset{at.event},
          accepted := v.accepted + {at.event}, pushers := v.pushers - {p})
        else v.(tracker := v.tracker - {at.event.eventId}, pushers := v.pushers - {p})
  {
    hide D.CanRun, D.Run;
    steps := RestIsRun(c, v);
    var u;
    steps, u := Extend(c, v, steps, v, D.StoreNumber(p));
    if accepts {
      steps, u := Extend(c, v, steps, u, D.BufferAccepts(p));
    } else {
      steps, u := Extend(c, v, steps, u, D.BufferRejects(p));
      steps, u := Extend(c, v, steps, u, D.RollBack(p));
      assert u.tracker == v.tracker - {v.pushers[p].event.eventId};
    }
    assert u.pushers == v.pushers - {p};
  }

  /** The machine after a worker has added events from the buffer to the batch in hand. */
  function Collected(v: D.State, w: nat, events: seq<Event>): D.State
    requires w in v.workers && v.workers[w].Collecting?
  {
    v.(buffer := v.buffer - multiset(events), workers := v.workers[w := D.Collecting(v.workers[w].batch + events)])
  }

  /** A worker can add any buffered events, in any order, to the batch it has in hand, whoever else is at work. */
  lemma {:induction false} CollectIsRun(c: D.Config, v: D.State, w: nat, events: seq<Event>) returns (steps: seq<D.Step>)
    requires w in v.workers && v.workers[w].Collecting? && multiset(events) <= v.buffer
    ensures D.CanRun(c, v, steps) && D.Run(c, v, steps) == Collected(v, w, events)
  {
    hide D.CanRun, D.Run, D.After, D.Possible, Collected;
    if events == [] {
      steps := RestIsRun(c, v);
      NothingCollected(v, w);
    } else {
      var front, e := events[..|events| - 1], events[|events| - 1];
      assert events == front + [e];
      TakeAway(v.buffer, front, e);
      steps := CollectIsRun(c, v, w, front);
      OneMoreCollected(c, v, w, front, e);
      var u;
      steps, u := Extend(c, v, steps, Collected(v, w, front), D.Receive(w, e));
    }
  }

  lemma NothingCollected(v: D.State, w: nat)
    requires w in v.workers && v.workers[w].Collecting?
    ensures Collected(v, w, []) == v
  {
    assert v.workers[w].batch + [] == v.workers[w].batch;
    assert v.workers == v.workers[w := v.workers[w]] && v.buffer - multiset{} == v.buffer;
  }

  lemma TakeAway(buffer: multiset<Event>, front: seq<Event>, e: Event)
    requires multiset(front + [e]) <= buffer
    ensures multiset(front) <= buffer && e in buffer - multiset(front)
    ensures buffer - multiset(front) - multiset{e} == buffer - multiset(front + [e])
  {
    assert multiset(front + [e]) == multiset(front) + multiset{e};
    assert buffer[e] >= multiset(front)[e] + 1;
  }

  lemma OneMoreCollected(c: D.Config, v: D.State, w: nat, front: seq<Event>, e: Event)
    requires w in v.workers && v.workers[w].Collecting? && multiset(front + [e]) <= v.buffer
    ensures D.Possible(c, Collected(v, w, front), D.Receive(w, e))
    ensures D.After(c, Collected(v, w, front), D.Receive(w, e)) == Collected(v, w, front + [e])
  {
    TakeAway(v.buffer, front, e);
    var u, batch := Collected(v, w, front), v.workers[w].batch;
    assert batch + front + [e] == batch + (front + [e]);
    var next := D.Collecting(batch + (front + [e]));
    assert u.workers[w := next] == v.workers[w := next];
  }

  lemma RestartState(c: D.Config, v: D.State, n: nat, k: nat, kept: multiset<Event>)
    requires v.synced <= n <= |v.log| && k <= |v.acks| && forall event :: event in kept ==> event in v.offered
    requires v.lock == D.HeldByCheckpoint && !c.anyRestart ==> D.Covered(v.acks[..k], v.log[..n])
    ensures D.Possible(c, v, D.Restart(n, k, kept))
    ensures var u := D.After(c, v, D.Restart(n, k, kept));
      && u.log == v.log[..n] && u.synced == n && u.acks == v.acks[..k] && u.acked == SetOf(v.acks[..k])
      && u.seqNo == MaxSeq(v.log[..n]) && u.tracker == map[]
      && u.lock == D.Free && u.pushers == map[] && u.workers == map[] && u.buffer == kept
      && u.offered == v.offered && u.accepted == v.accepted && u.written == v.written
  {
    hide MaxSeq, D.Covered;
  }

  /**
   * A restart on whole files is a step of the machine, from any state in which it is possible, and what the
   * machine holds afterwards is what the objects hold that the new process makes: the log opened on the
   * surviving bytes and a new tracker. No call and no worker survives, and history is not touched.
   */
  method RestartIsStep(c: D.Config, v: D.State, n: nat, k: nat, kept: multiset<Event>) returns (wal: FileWAL, tracker: SeqTracker)
    requires v.synced <= n <= |v.log| && k <= |v.acks| && forall event :: event in kept ==> event in v.offered
    requires v.lock == D.HeldByCheckpoint && !c.anyRestart ==> D.Covered(v.acks[..k], v.log[..n])
    requires (forall i :: 0 <= i < |v.log| ==> Fits(v.log[i])) && forall i :: 0 <= i < |v.acks| ==> FitsAck(v.acks[i])
    ensures D.Possible(c, v, D.Restart(n, k, kept))
    ensures var u := D.After(c, v, D.Restart(n, k, kept));
      && wal.walFile == EncodeLog(v.log[..n]) && wal.ackFile == EncodeAcks(v.acks[..k])
      && u.log == wal.Log() && u.synced == |wal.Log()| && u.acks == ParseAcks(wal.ackFile)
      && u.acked == wal.acked && u.seqNo == wal.seqNo
      && u.tracker == tracker.data && tracker.data == map[]
      && u.lock == D.Free && u.pushers == map[] && u.workers == map[] && u.buffer == kept
      && u.offered == v.offered && u.accepted == v.accepted && u.written == v.written
  {
    RestartState(c, v, n, k, kept);
    hide Parse, Encode, Lawful, MaxSeq, Fits, D.Covered, D.After, D.Possible, Aligned, Fresh;
    LogWhole(v.log[..n]);
    AcksLawful();
    ParseWhole(ACKS, v.acks[..k]);
    wal := new FileWAL(EncodeLog(v.log[..n]), EncodeAcks(v.acks[..k]));
    tracker := new SeqTracker();
  }

  /** A worker that panics and is started again has lost its batch, and nothing else has changed. */
  lemma PanicAndRestartIsRun(c: D.Config, v: D.State, w: nat) returns (steps: seq<D.Step>)
    requires w in v.workers
    ensures D.CanRun(c, v, steps)
    ensures D.Run(c, v, steps) == v.(workers := v.workers[w := D.Collecting([])])
  {
    hide D.CanRun, D.Run;
    steps := RestIsRun(c, v);
    var u;
    steps, u := Extend(c, v, steps, v, D.WorkerPanics(w));
    steps, u := Extend(c, v, steps, u, D.WorkerStarts(w));
    assert u.workers == v.workers[w := D.Collecting([])];
  }

  // ---- The acknowledging half of flush -----------------------------------------------------------

  /** The numbers whose write to the ack file succeeds. */
  function WrittenAcks(ns: seq<nat>, io: nat -> IoOutcome): seq<nat> {
    if ns == [] then [] else
      var front, n := WrittenAcks(ns[..|ns| - 1], io), ns[|ns| - 1];
      if io(n).IoOk? then front + [n] else front
  }

  lemma {:induction false} BytesOfWritten(ns: seq<nat>, io: nat -> IoOutcome)
    ensures AckBytes(ns, io) == EncodeAcks(WrittenAcks(ns, io))
  {
    if ns != [] {
      BytesOfWritten(ns[..|ns| - 1], io);
      EncodeSnoc(ACKS, WrittenAcks(ns[..|ns| - 1], io), ns[|ns| - 1]);
    }
  }

  /** The worker has written its batch everywhere and acknowledged for its first `k` events. */
  ghost function AckedUpTo(v: D.State, w: nat, batch: seq<Event>, k: nat, io: nat -> IoOutcome): D.State
    requires k <= |batch|
  {
    v.(tracker := v.tracker - Ids(batch[..k]),
       acked := v.acked + NumbersOf(v.tracker, Ids(batch[..k])),
       acks := v.acks + WrittenAcks(Numbers(v.tracker, batch[..k]), io),
       workers := v.workers[w := D.Acking(batch, k)])
  }

  /**
   * AcknowledgeAll with nobody in between, whatever becomes of the writes to the ack file, is a run of the
   * machine: the tracker, the acknowledged set and the ack file end as its contract says.
   */
  lemma {:induction false} AcknowledgeAllIsRun(c: D.Config, v: D.State, w: nat, batch: seq<Event>, k: nat, io: nat -> IoOutcome)
    returns (steps: seq<D.Step>)
    requires w in v.workers && v.workers[w] == D.Acking(batch, 0) && v.lock == D.Free && k <= |batch|
    ensures D.CanRun(c, v, steps)
    ensures D.Run(c, v, steps) == AckedUpTo(v, w, batch, k, io)
  {
    if k == 0 {
      steps := [];
      assert v.workers == v.workers[w := D.Acking(batch, 0)];
    } else {
      steps := AcknowledgeAllIsRun(c, v, w, batch, k - 1, io);
      steps := AcknowledgeOne(c, v, w, batch, k - 1, io, steps);
    }
  }

  lemma AcknowledgeOne(c: D.Config, v: D.State, w: nat, batch: seq<Event>, k: nat, io: nat -> IoOutcome, before: seq<D.Step>)
    returns (steps: seq<D.Step>)
    requires k < |batch| && v.lock == D.Free
    requires D.CanRun(c, v, before) && D.Run(c, v, before) == AckedUpTo(v, w, batch, k, io)
    ensures D.CanRun(c, v, steps)
    ensures D.Run(c, v, steps) == AckedUpTo(v, w, batch, k + 1, io)
  {
    hide D.CanRun, D.Run, D.After, D.Possible, AckedUpTo, Ids;
    TakeOne(c, v, w, batch, k, io);
    var id, u := batch[k].eventId, AckedUpTo(v, w, batch, k, io);
    steps, u := Extend(c, v, before, u, D.TakeNumber(w));
    if id in v.tracker && id !in Ids(batch[..k]) {
      AcknowledgeTaken(c, v, w, batch, k, io);
      steps, u := Extend(c, v, steps, u, D.Acknowledge(w, io(v.tracker[id]).IoOk?));
    }
  }

  /** The state between taking the number for event `k` and acknowledging it. */
  ghost function Taken(v: D.State, w: nat, batch: seq<Event>, k: nat, io: nat -> IoOutcome): D.State
    requires k < |batch| && batch[k].eventId in v.tracker
  {
    AckedUpTo(v, w, batch, k, io).(
      tracker := v.tracker - Ids(batch[..k + 1]),
      workers := v.workers[w := D.Holding(batch, k + 1, v.tracker[batch[k].eventId])])
  }

  lemma TakeOne(c: D.Config, v: D.State, w: nat, batch: seq<Event>, k: nat, io: nat -> IoOutcome)
    requires k < |batch|
    ensures var u, id := AckedUpTo(v, w, batch, k, io), batch[k].eventId;
      && D.Possible(c, u, D.TakeNumber(w))
      && D.After(c, u, D.TakeNumber(w)) == if id in v.tracker && id !in Ids(batch[..k])
        then Taken(v, w, batch, k, io) else AckedUpTo(v, w, batch, k + 1, io)
  {
    hide Ids, Numbers, NumbersOf, WrittenAcks;
    OneMore(v.tracker, batch, k, io);
    NumbersOneMore(v.tracker, batch, k, io);
    var id, u := batch[k].eventId, AckedUpTo(v, w, batch, k, io);
    TrackerOneMore(v.tracker, Ids(batch[..k]), id);
    if id in v.tracker && id !in Ids(batch[..k]) {
      assert u.workers[w := D.Holding(batch, k + 1, v.tracker[id])] == v.workers[w := D.Holding(batch, k + 1, v.tracker[id])];
    } else {
      assert u.workers[w := D.Acking(batch, k + 1)] == v.workers[w := D.Acking(batch, k + 1)];
    }
  }

  lemma AcknowledgeTaken(c: D.Config, v: D.State, w: nat, batch: seq<Event>, k: nat, io: nat -> IoOutcome)
    requires k < |batch| && v.lock == D.Free && batch[k].eventId in v.tracker && batch[k].eventId !in Ids(batch[..k])
    ensures var step := D.Acknowledge(w, io(v.tracker[batch[k].eventId]).IoOk?);
      && D.Possible(c, Taken(v, w, batch, k, io), step)
      && D.After(c, Taken(v, w, batch, k, io), step) == AckedUpTo(v, w, batch, k + 1, io)
  {
    hide Ids, Numbers, NumbersOf, WrittenAcks;
    OneMore(v.tracker, batch, k, io);
    NumbersOneMore(v.tracker, batch, k, io);
    var u := Taken(v, w, batch, k, io);
    assert u.workers[w := D.Acking(batch, k + 1)] == v.workers[w := D.Acking(batch, k + 1)];
  }

  lemma TrackerOneMore(tracker: map<string, nat>, ids: set<string>, id: string)
    ensures tracker - ids - {id} == tracker - (ids + {id})
    ensures id in tracker && id !in ids ==> id in tracker - ids && (tracker - ids)[id] == tracker[id]
    ensures !(id in tracker && id !in ids) ==> id !in tracker - ids && tracker - (ids + {id}) == tracker - ids
  {
  }

  lemma NumbersOneMore(tracker: map<string, nat>, batch: seq<Event>, k: nat, io: nat -> IoOutcome)
    requires k < |batch|
    ensures var id := batch[k].eventId;
      WrittenAcks(Numbers(tracker, batch[..k + 1]), io) == WrittenAcks(Numbers(tracker, batch[..k]), io)
        + (if id in tracker && id !in Ids(batch[..k]) && io(tracker[id]).IoOk? then [tracker[id]] else [])
  {
    assert batch[..k + 1][..k] == batch[..k];
    var id, ns := batch[k].eventId, Numbers(tracker, batch[..k]);
    if id in tracker {
      assert (ns + [tracker[id]])[..|ns|] == ns;
    }
  }

  // ---- All of flush ---------------------------------------------------------------------------------

  /** The writes of a batch to those of the first `n` sinks that accept it. */
  function Writes(batch: seq<Event>, accepts: nat -> bool, n: nat): set<(nat, seq<Event>)> {
    set i: nat | i < n && accepts(i) :: (i, batch)
  }

  predicate AllAccept(accepts: nat -> bool, n: nat) {
    forall i: nat :: i < n ==> accepts(i)
  }

  /** The first `n` sinks have been written to; those in `accepts` took the batch. */
  ghost function WrittenUpTo(v: D.State, w: nat, batch: seq<Event>, accepts: nat -> bool, n: nat): D.State {
    v.(written := v.written + Writes(batch, accepts, n),
       workers := v.workers[w := D.Flushing(batch, n, AllAccept(accepts, n))])
  }

  lemma {:induction false} WritesAreRun(c: D.Config, v: D.State, w: nat, batch: seq<Event>, accepts: nat -> bool, n: nat)
    returns (steps: seq<D.Step>)
    requires w in v.workers && v.workers[w] == D.Collecting(batch) && batch != [] && n <= c.sinks
    ensures D.CanRun(c, v, steps) && D.Run(c, v, steps) == WrittenUpTo(v, w, batch, accepts, n)
  {
    var u;
    if n == 0 {
      steps, u := Extend(c, v, [], v, D.BeginFlush(w));
      assert v.written + Writes(batch, accepts, 0) == v.written;
    } else {
      steps := WritesAreRun(c, v, w, batch, accepts, n - 1);
      hide D.CanRun, D.Run, D.After, D.Possible, WrittenUpTo;
      u := WrittenUpTo(v, w, batch, accepts, n - 1);
      NextSink(c, v, w, batch, accepts, n);
      steps, u := Extend(c, v, steps, u, if accepts(n - 1) then D.SinkAccepts(w) else D.SinkFails(w));
    }
  }

  lemma NextSink(c: D.Config, v: D.State, w: nat, batch: seq<Event>, accepts: nat -> bool, n: nat)
    requires 0 < n <= c.sinks
    ensures var u, step := WrittenUpTo(v, w, batch, accepts, n - 1), if accepts(n - 1) then D.SinkAccepts(w) else D.SinkFails(w);
      D.Possible(c, u, step) && D.After(c, u, step) == WrittenUpTo(v, w, batch, accepts, n)
  {
    hide Writes, AllAccept;
    OneMoreSink(v.written, batch, accepts, n);
    var u := WrittenUpTo(v, w, batch, accepts, n - 1);
    var next := D.Flushing(batch, n, AllAccept(accepts, n));
    assert u.workers[w := next] == v.workers[w := next];
  }

  lemma OneMoreSink(written: set<(nat, seq<Event>)>, batch: seq<Event>, accepts: nat -> bool, n: nat)
    requires n > 0
    ensures written + Writes(batch, accepts, n)
      == if accepts(n - 1) then written + Writes(batch, accepts, n - 1) + {(n - 1, batch)}
         else written + Writes(batch, accepts, n - 1)
    ensures AllAccept(accepts, n) <==> AllAccept(accepts, n - 1) && accepts(n - 1)
  {
  }

  /** The machine after a worker is done with its batch: nothing but what is listed here has changed. */
  ghost function Flushed(c: D.Config, v: D.State, w: nat, batch: seq<Event>, accepts: nat -> bool, io: nat -> IoOutcome): D.State {
    var done := v.(workers := v.workers[w := D.Collecting([])], written := v.written + Writes(batch, accepts, c.sinks));
    if AllAccept(accepts, c.sinks) then
      done.(tracker := v.tracker - Ids(batch),
            acked := v.acked + NumbersOf(v.tracker, Ids(batch)),
            acks := v.acks + WrittenAcks(Numbers(v.tracker, batch), io))
    else done
  }

  /** A flush with nobody in between is a run of the machine, whichever sinks and ack writes succeed. */
  lemma FlushIsRun(c: D.Config, v: D.State, w: nat, batch: seq<Event>, accepts: nat -> bool, io: nat -> IoOutcome)
    returns (steps: seq<D.Step>)
    requires w in v.workers && v.workers[w] == D.Collecting(batch) && batch != [] && v.lock == D.Free
    ensures D.CanRun(c, v, steps) && D.Run(c, v, steps) == Flushed(c, v, w, batch, accepts, io)
  {
    hide D.CanRun, D.Run, Ids, Numbers, NumbersOf, Writes, AllAccept, WrittenAcks;
    steps := WritesAreRun(c, v, w, batch, accepts, c.sinks);
    var u := WrittenUpTo(v, w, batch, accepts, c.sinks);
    steps, u := Extend(c, v, steps, u, D.EndFlush(w));
    if AllAccept(accepts, c.sinks) {
      var more := AcknowledgeAllIsRun(c, u, w, batch, |batch|, io);
      D.JoinRuns(c, v, steps, more);
      assert batch[..|batch|] == batch;
      var u' := AckedUpTo(u, w, batch, |batch|, io);
      steps, u' := Extend(c, v, steps + more, u', D.EndAcks(w));
      assert u'.workers == v.workers[w := D.Collecting([])];
    } else {
      assert u.workers == v.workers[w := D.Collecting([])];
    }
  }

  ghost function InTime(replies: nat -> nat -> Reply): nat -> bool {
    (i: nat) => AcceptedInTime(replies(i))
  }

  lemma AllInTimeIff(replies: nat -> nat -> Reply, n: nat)
    ensures AllAccept(InTime(replies), n) <==> forall i: nat :: i < n ==> AcceptedInTime(replies(i))
  {
    hide AcceptedInTime;
    if AllAccept(InTime(replies), n) {
      forall i: nat | i < n ensures AcceptedInTime(replies(i)) {
        assert InTime(replies)(i);
      }
    }
  }

  /** The worker's objects hold what the machine's state says. */
  ghost predicate BooksMatch(b: Books, v: D.State) {
    b.tracker == v.tracker && b.acked == v.acked && b.ackFile == EncodeAcks(v.acks)
  }

  /**
   * The method `Deps.Flush`, by its contract, is such a run: from matching books to matching books, and the
   * machine records a write for each sink that accepted the batch in time.
   */
  lemma FlushMatches(c: D.Config, v: D.State, b: Books, w: nat, batch: seq<Event>,
        replies: nat -> nat -> Reply, ackIo: nat -> IoOutcome)
    returns (steps: seq<D.Step>)
    requires w in v.workers && v.workers[w] == D.Collecting(batch) && batch != [] && v.lock == D.Free
    requires BooksMatch(b, v)
    ensures D.CanRun(c, v, steps)
    ensures BooksMatch(FlushBooks(b, c.sinks, batch, replies, ackIo), D.Run(c, v, steps))
    ensures D.Run(c, v, steps).written == v.written + Writes(batch, InTime(replies), c.sinks)
  {
    var accepts := InTime(replies);
    steps := FlushIsRun(c, v, w, batch, accepts, ackIo);
    var ns := Numbers(v.tracker, batch);
    BytesOfWritten(ns, ackIo);
    EncodeAppend(ACKS, v.acks, WrittenAcks(ns, ackIo));
    hide D.CanRun, D.Run, Ids, Numbers, NumbersOf, Writes, WrittenAcks, AckBytes, Encode, AcceptedInTime;
    AllInTimeIff(replies, c.sinks);
  }
}
