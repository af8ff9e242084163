/** Where the guarantee ends: colliding event ids. */
module DeliveryExamples {
  import opened Options
  import opened BigEndian
  import opened Events
  import opened PrefixCode
  import opened WalFormat
  import opened WalSpec
  import opened Delivery
  import opened DeliveryProof
  import opened Flushing
  import opened DeliveryRefinement

  /** A caller that pushes alone and is accepted. */
  lemma OnePush(c: Config, init: State, before: seq<Step>, v: State, event: Event) returns (steps: seq<Step>, u: State)
    requires CanRun(c, init, before) && v == Run(c, init, before)
    requires v.lock == Free && v.pushers == map[] && v.seqNo + 1 < U64 && c.codec.marshal(event).Some?
    ensures CanRun(c, init, steps) && u == Run(c, init, steps)
    ensures u == Pushed(c, v, event)
  {
    hide CanRun, Run;
    steps, u := Extend(c, init, before, v, BeginAppend(0, event));
    steps, u := Extend(c, init, steps, u, SyncSucceeds(0));
    steps, u := Extend(c, init, steps, u, StoreNumber(0));
    steps, u := Extend(c, init, steps, u, BufferAccepts(0));
    assert u.pushers == map[];
  }

  function Pushed(c: Config, v: State, event: Event): State
    requires c.codec.marshal(event).Some?
  {
    v.(log := v.log + [Record(v.seqNo + 1, c.codec.marshal(event).value)], synced := |v.log| + 1, seqNo := v.seqNo + 1,
       lock := Free, tracker := v.tracker[event.eventId := v.seqNo + 1], buffer := v.buffer + multiset{event},
       offered := v.offered + {event}, accepted := v.accepted + {event})
  }

  /** A worker takes one event, every sink accepts it, and its number is acknowledged. */
  lemma OneFlush(c: Config, init: State, before: seq<Step>, v: State, event: Event) returns (steps: seq<Step>, u: State)
    requires CanRun(c, init, before) && v == Run(c, init, before)
    requires v.lock == Free && v.workers == map[] && event in v.buffer && event.eventId in v.tracker
    ensures CanRun(c, init, steps) && u == Run(c, init, steps)
    ensures u.log == v.log && u.synced == v.synced && u.accepted == v.accepted && u.offered == v.offered
      && u.lock == Free && u.acks == v.acks + [v.tracker[event.eventId]]
      && u.acked == v.acked + {v.tracker[event.eventId]} && u.written == v.written + Writes([event], i => true, c.sinks)
  {
    hide CanRun, Run, Ids, Numbers, NumbersOf, Writes, WrittenAcks;
    steps, u := Collect(c, init, before, v, event);
    var more := FlushIsRun(c, u, 0, [event], i => true, n => IoOk);
    JoinRuns(c, init, steps, more);
    OneNumber(u.tracker, event);
    steps, u := steps + more, Flushed(c, u, 0, [event], i => true, n => IoOk);
  }

  lemma OneNumber(tracker: map<string, nat>, event: Event)
    requires event.eventId in tracker
    ensures WrittenAcks(Numbers(tracker, [event]), n => IoOk) == [tracker[event.eventId]]
    ensures NumbersOf(tracker, Ids([event])) == {tracker[event.eventId]}
  {
    assert [event][..0] == [];
    assert Numbers(tracker, [event]) == [tracker[event.eventId]];
    assert [tracker[event.eventId]][..0] == [];
    assert Ids([event]) == {event.eventId} by { assert [event][0].eventId in Ids([event]); }
  }

  lemma Collect(c: Config, init: State, before: seq<Step>, v: State, event: Event) returns (steps: seq<Step>, u: State)
    requires CanRun(c, init, before) && v == Run(c, init, before)
    requires v.workers == map[] && event in v.buffer
    ensures CanRun(c, init, steps) && u == Run(c, init, steps)
    ensures u == v.(buffer := v.buffer - multiset{event}, workers := map[0 := Collecting([event])])
  {
    hide CanRun, Run;
    steps, u := Extend(c, init, before, v, WorkerStarts(0));
    steps, u := Extend(c, init, steps, u, Receive(0, event));
    assert [] + [event] == [event];
    assert u.workers == map[0 := Collecting([event])];
  }

  const EMPTY: State :=
    State([], 0, [], {}, 0, Free, map[], multiset{}, map[], map[], {}, {}, {})

  /** The accepted event itself is recovered or sits in a batch that every sink has written. */
  ghost predicate ContentSafe(c: Config, v: State, d: Disk, event: Event) {
    Recovered(c, d, event) || exists batch :: WrittenByAll(c, v.written, batch) && event in batch
  }

  /**
   * Delivery is by id, not by content. Two different events with one id are accepted, a worker delivers
   * the first to every sink, and that acknowledges the second: a crash now loses the second for good.
   */
  lemma CollidingIdsLoseContent(c: Config, first: Event, second: Event) returns (steps: seq<Step>, d: Disk)
    requires c.codec.Sound() && c.sinks > 0
    requires first != second && first.eventId == second.eventId
    requires c.codec.marshal(first).Some? && c.codec.marshal(second).Some?
    ensures Init(EMPTY) && CanRun(c, EMPTY, steps)
    ensures var v := Run(c, EMPTY, steps);
      && second in v.accepted && v.offered == {first, second} && CrashImage(v, d)
      && !ContentSafe(c, v, d, second)
  {
    hide CanRun, Run, EncodeLog, EncodeAcks, CrashImage, Recovered;
    assert CanRun(c, EMPTY, []) && EMPTY == Run(c, EMPTY, []) by { NoSteps(c, EMPTY); }
    var u;
    steps, u := OnePush(c, EMPTY, [], EMPTY, first);
    steps, u := OnePush(c, EMPTY, steps, u, second);
    assert second in u.buffer && first in u.buffer;
    steps, u := OneFlush(c, EMPTY, steps, u, first);
    var r1, r2 := Record(1, c.codec.marshal(first).value), Record(2, c.codec.marshal(second).value);
    assert u.log == [r1, r2] && u.acks == [2] && u.written == Writes([first], i => true, c.sinks);
    d := Disk(EncodeLog(u.log), EncodeAcks(u.acks));
    FullImage(u, d);
    SecondNotRecovered(c, d, r1, r2, first, second);
    forall batch | WrittenByAll(c, u.written, batch) ensures second !in batch {
      assert (0, batch) in u.written;
    }
  }

  lemma NoSteps(c: Config, v: State)
    ensures CanRun(c, v, []) && Run(c, v, []) == v
  {
  }

  /** In every run that is offered permitted events only, and for every crash, delivery is by content. */
  ghost predicate DeliversByContent(c: Config, permitted: iset<Event>) {
    forall init, steps, d, event ::
      && Init(init) && CanRun(c, init, steps)
      && (forall e :: e in Run(c, init, steps).offered ==> e in permitted)
      && event in Run(c, init, steps).accepted && CrashImage(Run(c, init, steps), d)
      ==> ContentSafe(c, Run(c, init, steps), d, event)
  }

  /** Among the permitted events that can be marshalled, the id determines the event. */
  ghost predicate IdsDetermine(c: Config, permitted: iset<Event>) {
    forall e, f ::
      && e in permitted && f in permitted && e.eventId == f.eventId
      && c.codec.marshal(e).Some? && c.codec.marshal(f).Some?
      ==> e == f
  }

  /** The exact condition: delivery is by content in all runs if and only if ids determine events. */
  lemma ContentDeliveryIff(c: Config, permitted: iset<Event>)
    requires c.codec.Sound() && c.sinks > 0 && !c.anyRestart
    ensures DeliversByContent(c, permitted) <==> IdsDetermine(c, permitted)
  {
    if IdsDetermine(c, permitted) {
      forall init, steps, d, event |
        && Init(init) && CanRun(c, init, steps)
        && (forall e :: e in Run(c, init, steps).offered ==> e in permitted)
        && event in Run(c, init, steps).accepted && CrashImage(Run(c, init, steps), d)
        ensures ContentSafe(c, Run(c, init, steps), d, event)
      {
        OfferedMarshal(c, init, steps);
        hide CanRun, Run;
        AtLeastOnceByContent(c, init, steps, d, event);
      }
    } else {
      var e, f :| e in permitted && f in permitted && e.eventId == f.eventId
        && c.codec.marshal(e).Some? && c.codec.marshal(f).Some? && e != f;
      hide CanRun, Run;
      var steps, d := CollidingIdsLoseContent(c, e, f);
      assert !ContentSafe(c, Run(c, EMPTY, steps), d, f);
    }
  }

  /** Only events that can be marshalled get as far as the log. */
  lemma {:induction false} OfferedMarshal(c: Config, v: State, steps: seq<Step>)
    requires CanRun(c, v, steps) && forall e :: e in v.offered ==> c.codec.marshal(e).Some?
    ensures forall e :: e in Run(c, v, steps).offered ==> c.codec.marshal(e).Some?
    decreases |steps|
  {
    if steps != [] {
      OfferedMarshal(c, After(c, v, steps[0]), steps[1..]);
    }
  }

  // ---- A restart in the middle of a checkpoint -------------------------------------------------------

  /**
   * The guard on restarts is needed. The newest event is delivered and acknowledged, a checkpoint renames
   * the compacted log, and the process restarts before the ack file is truncated. The next event gets a
   * number that is already acknowledged: it is accepted, then lost to a crash, and no sink ever has it.
   */
  lemma MidCheckpointLosesAccepted(c: Config, first: Event, second: Event) returns (steps: seq<Step>, d: Disk)
    requires c.codec.Sound() && c.sinks > 0 && c.anyRestart
    requires first.eventId != second.eventId
    requires c.codec.marshal(first).Some? && c.codec.marshal(second).Some?
    ensures Init(EMPTY) && CanRun(c, EMPTY, steps)
    ensures var v := Run(c, EMPTY, steps);
      && second in v.accepted && CrashImage(v, d)
      && !Recovered(c, d, second) && !Delivered(c, v.written, second.eventId)
  {
    hide CanRun, Run;
    assert CanRun(c, EMPTY, []) && EMPTY == Run(c, EMPTY, []) by { NoSteps(c, EMPTY); }
    var u;
    steps, u := OnePush(c, EMPTY, [], EMPTY, first);
    assert first in u.buffer;
    steps, u := OneFlush(c, EMPTY, steps, u, first);
    var r := Record(1, c.codec.marshal(first).value);
    assert u.log == [r] && u.acks == [1] && u.acked == {1} && u.written == Writes([first], i => true, c.sinks);
    steps, u := RestartMidCheckpoint(c, steps, u, r);
    steps, u := OnePush(c, EMPTY, steps, u, second);
    var r' := Record(1, c.codec.marshal(second).value);
    assert u.log == [r'];
    hide WrittenByAll, HasId, EncodeLog, EncodeAcks, CrashImage, RecoverFrom;
    d := Disk(EncodeLog(u.log), EncodeAcks(u.acks));
    FullImage(u, d);
    OnlyRecordAcked(c, d, r');
    NotDelivered(c, u.written, first, second);
  }

  lemma NotDelivered(c: Config, written: set<(nat, seq<Event>)>, first: Event, second: Event)
    requires c.sinks > 0 && written == Writes([first], i => true, c.sinks) && first.eventId != second.eventId
    ensures !Delivered(c, written, second.eventId)
  {
    forall batch | WrittenByAll(c, written, batch) ensures !HasId(batch, second.eventId) {
      assert (0, batch) in written;
    }
  }

  lemma RestartMidCheckpoint(c: Config, before: seq<Step>, v: State, r: Record) returns (steps: seq<Step>, u: State)
    requires CanRun(c, EMPTY, before) && v == Run(c, EMPTY, before) && c.anyRestart
    requires v.lock == Free && v.log == [r] && r.seqNo == 1 && v.acks == [1] && v.acked == {1}
    ensures CanRun(c, EMPTY, steps) && u == Run(c, EMPTY, steps)
    ensures u.log == [] && u.acks == [1] && u.seqNo == 0 && u.synced == 0 && u.lock == Free
      && u.pushers == map[] && u.written == v.written
  {
    hide CanRun, Run;
    steps, u := Extend(c, EMPTY, before, v, RenameCompacted);
    assert [r][..0] == [] && Unacked({1}, [r]) == [];
    steps, u := Extend(c, EMPTY, steps, u, Restart(0, 1, multiset{}));
  }

  lemma OnlyRecordAcked(c: Config, d: Disk, r: Record)
    requires Fits(r) && d == Disk(EncodeLog([r]), EncodeAcks([r.seqNo]))
    ensures RecoverFrom(c.codec, d) == []
  {
    LogWhole([r]);
    AcksLawful();
    ParseWhole(ACKS, [r.seqNo]);
    var acked := SetOf([r.seqNo]);
    assert r.seqNo in acked;
    assert [r][..|[r]| - 1] == [] && Entries(c.codec, acked, []) == [];
    assert Entries(c.codec, acked, [r]) == [];
  }

  // ---- A buffer that loses an event -------------------------------------------------------------------

  /** The log makes up for the buffer: an accepted event that the buffer lost is recovered after a crash. */
  lemma LostFromBufferComesBack(c: Config, event: Event) returns (steps: seq<Step>, d: Disk)
    requires c.codec.Sound() && c.codec.marshal(event).Some?
    ensures Init(EMPTY) && CanRun(c, EMPTY, steps)
    ensures var v := Run(c, EMPTY, steps);
      event in v.accepted && v.buffer == multiset{} && v.written == {} && CrashImage(v, d) && Recovered(c, d, event)
  {
    hide CanRun, Run, EncodeLog, EncodeAcks, CrashImage;
    assert CanRun(c, EMPTY, []) && EMPTY == Run(c, EMPTY, []) by { NoSteps(c, EMPTY); }
    var u;
    steps, u := OnePush(c, EMPTY, [], EMPTY, event);
    steps, u := Extend(c, EMPTY, steps, u, BufferLoses(event));
    var r := Record(1, c.codec.marshal(event).value);
    assert u.log == [r];
    d := Disk(EncodeLog(u.log), EncodeAcks(u.acks));
    FullImage(u, d);
    OnlyRecordRecovered(c, d, r, event);
  }

  // ---- A push that failed ------------------------------------------------------------------------------

  /**
   * An event whose Push returned an error can come back: after a failed fsync and after a full buffer its
   * record stays in the log, and a crash then recovers it. Nothing was accepted in this run.
   */
  lemma FailedPushComesBack(c: Config, event: Event, full: bool) returns (steps: seq<Step>, d: Disk)
    requires c.codec.Sound() && c.codec.marshal(event).Some?
    ensures Init(EMPTY) && CanRun(c, EMPTY, steps)
    ensures var v := Run(c, EMPTY, steps);
      v.accepted == {} && CrashImage(v, d) && Recovered(c, d, event)
  {
    hide CanRun, Run, EncodeLog, EncodeAcks, CrashImage;
    if full {
      var u;
      steps, u := AppendIsRun(c, EMPTY, 0, event);
      steps := RejectIsRun(c, EMPTY, 0, event, steps, u);
    } else {
      steps := FailedAppendIsRun(c, EMPTY, 0, event, IoSyncFailed);
    }
    var v, r := Run(c, EMPTY, steps), Record(1, c.codec.marshal(event).value);
    assert [] + [r] == [r];
    d := Disk(EncodeLog(v.log), EncodeAcks(v.acks));
    FullImage(v, d);
    OnlyRecordRecovered(c, d, r, event);
  }

  lemma OnlyRecordRecovered(c: Config, d: Disk, r: Record, event: Event)
    requires Fits(r) && Carries(c, r, event) && d == Disk(EncodeLog([r]), EncodeAcks([]))
    ensures Recovered(c, d, event)
  {
    LogWhole([r]);
    AcksLawful();
    ParseWhole(ACKS, []);
    RecoveredFrom(c, d, [r], 1, [], event);
    assert [r][..1] == [r];
    assert Carries(c, [r][0], event);
  }

  lemma FullImage(v: State, d: Disk)
    requires v.synced <= |v.log| && d == Disk(EncodeLog(v.log), EncodeAcks(v.acks))
    ensures CrashImage(v, d)
  {
    assert v.log[..v.synced] + v.log[v.synced..] == v.log;
    EncodeAppend(LOG, v.log[..v.synced], v.log[v.synced..]);
    assert EncodeLog(v.log)[..|EncodeLog(v.log)|] == EncodeLog(v.log);
    assert EncodeAcks(v.acks)[..|EncodeAcks(v.acks)|] == EncodeAcks(v.acks);
  }

  lemma SecondNotRecovered(c: Config, d: Disk, r1: Record, r2: Record, first: Event, second: Event)
    requires Fits(r1) && Fits(r2) && r1.seqNo != 2 && r2.seqNo == 2 && first != second
    requires c.codec.unmarshal(r1.payload) == Some(first)
    requires d == Disk(EncodeLog([r1, r2]), EncodeAcks([2]))
    ensures !Recovered(c, d, second)
  {
    LogWhole([r1, r2]);
    AcksLawful();
    ParseWhole(ACKS, [2]);
    forall e | e in RecoverFrom(c.codec, d) ensures e.event != second {
      EntriesMember(c.codec, {2}, [r1, r2], e);
      assert SetOf([2]) == {2};
    }
  }
}
