/**
 * The pipeline as a state machine: any number of callers in Service.Push, any number of workers in
 * flush, the log's lock, checkpoints and restarts. One step is one critical section or one call
 * that another goroutine can observe.
 */
module Delivery {
  import opened Options
  import opened BigEndian
  import opened Events
  import opened WalFormat
  import opened WalSpec

  /** With `anyRestart` the machine also restarts where a checkpoint left numbers acknowledged above the log. */
  datatype Config = Config(codec: Codec, sinks: nat, anyRestart: bool)

  /** Where a call of Service.Push stands. Writing holds the log's lock. */
  datatype Pusher =
    | Writing(event: Event, seqNo: nat)
    | Appended(event: Event, seqNo: nat)
    | Stored(event: Event)
    | Rejected(event: Event)

  /** Where a worker stands. Holding has taken a number out of the tracker and not yet acknowledged it. */
  datatype Worker =
    | Collecting(batch: seq<Event>)
    | Flushing(batch: seq<Event>, sink: nat, allSucceeded: bool)
    | Acking(batch: seq<Event>, next: nat)
    | Holding(batch: seq<Event>, next: nat, seqNo: nat)

  datatype Lock = Free | HeldByPusher(p: nat) | HeldByCheckpoint

  /**
   * `log` is the log file and its first `synced` records are durable; `acks` is the ack file and
   * `acked` the set in memory. The last three fields are history: events offered to Push, events
   * for which Push returned nil, and (sink, batch) pairs for which Write returned nil.
   */
  datatype State = State(
    log: seq<Record>, synced: nat, acks: seq<nat>, acked: set<nat>, seqNo: nat, lock: Lock,
    tracker: map<string, nat>, buffer: multiset<Event>,
    pushers: map<nat, Pusher>, workers: map<nat, Worker>,
    offered: set<Event>, accepted: set<Event>, written: set<(nat, seq<Event>)>)

  datatype Step =
    | BeginAppend(p: nat, event: Event)
    | AppendWriteFails(p: nat, event: Event)
    | SyncSucceeds(p: nat)
    | SyncFails(p: nat)
    | StoreNumber(p: nat)
    | BufferAccepts(p: nat)
    | BufferRejects(p: nat)
    | RollBack(p: nat)
    | BufferLoses(event: Event)
    | WorkerStarts(w: nat)
    | Receive(w: nat, event: Event)
    | BeginFlush(w: nat)
    | SinkAccepts(w: nat)
    | SinkFails(w: nat)
    | EndFlush(w: nat)
    | TakeNumber(w: nat)
    | Acknowledge(w: nat, fileWritten: bool)
    | EndAcks(w: nat)
    | WorkerPanics(w: nat)
    | RenameCompacted
    | TruncateAcks
    | Restart(records: nat, acks: nat, kept: multiset<Event>)

  function Durable(v: State): seq<Record>
    requires v.synced <= |v.log|
  {
    v.log[..v.synced]
  }

  /** Every acknowledged number is at most some number in the log. */
  ghost predicate Covered(acks: seq<nat>, rs: seq<Record>) {
    forall i :: 0 <= i < |acks| ==> Reached(acks[i], rs)
  }

  ghost predicate Reached(n: nat, rs: seq<Record>) {
    exists j :: 0 <= j < |rs| && n <= rs[j].seqNo
  }

  ghost predicate Init(v: State) {
    && Increasing(v.log)
    && (forall i :: 0 <= i < |v.log| ==> 1 <= v.log[i].seqNo && Fits(v.log[i]))
    && v.synced == |v.log| && v.seqNo == MaxSeq(v.log)
    && v.acks == [] && v.acked == {} && v.lock == Free
    && v.tracker == map[] && v.buffer == multiset{} && v.pushers == map[] && v.workers == map[]
    && v.offered == {} && v.accepted == {} && v.written == {}
  }

  /**
   * When a step can happen. A restart finds whole records and whole acknowledgements; in the middle of a
   * checkpoint, unless `anyRestart`, it also finds no acknowledged number above the newest kept record.
   * What the buffer `kept` outside the process may be any events that were offered before.
   */
  ghost predicate Possible(c: Config, v: State, step: Step) {
    match step
    case BeginAppend(p, event) =>
      p !in v.pushers && v.lock == Free && c.codec.marshal(event).Some? && v.seqNo + 1 < U64
    case AppendWriteFails(p, event) =>
      p !in v.pushers && v.lock == Free && c.codec.marshal(event).Some? && v.seqNo + 1 < U64
    case SyncSucceeds(p) => p in v.pushers && v.pushers[p].Writing?
    case SyncFails(p) => p in v.pushers && v.pushers[p].Writing?
    case StoreNumber(p) => p in v.pushers && v.pushers[p].Appended?
    case BufferAccepts(p) => p in v.pushers && v.pushers[p].Stored?
    case BufferRejects(p) => p in v.pushers && v.pushers[p].Stored?
    case RollBack(p) => p in v.pushers && v.pushers[p].Rejected?
    case BufferLoses(event) => event in v.buffer
    case WorkerStarts(w) => w !in v.workers
    case Receive(w, event) => w in v.workers && v.workers[w].Collecting? && event in v.buffer
    case BeginFlush(w) => w in v.workers && v.workers[w].Collecting? && v.workers[w].batch != []
    case SinkAccepts(w) => w in v.workers && v.workers[w].Flushing? && v.workers[w].sink < c.sinks
    case SinkFails(w) => w in v.workers && v.workers[w].Flushing? && v.workers[w].sink < c.sinks
    case EndFlush(w) => w in v.workers && v.workers[w].Flushing? && v.workers[w].sink == c.sinks
    case TakeNumber(w) => w in v.workers && v.workers[w].Acking? && v.workers[w].next < |v.workers[w].batch|
    case Acknowledge(w, _) => w in v.workers && v.workers[w].Holding? && v.lock == Free
    case EndAcks(w) => w in v.workers && v.workers[w].Acking? && v.workers[w].next == |v.workers[w].batch|
    case WorkerPanics(w) => w in v.workers
    case RenameCompacted => v.lock == Free
    case TruncateAcks => v.lock == HeldByCheckpoint
    case Restart(n, k, kept) =>
      && (forall event :: event in kept ==> event in v.offered)
      && v.synced <= n <= |v.log| && k <= |v.acks|
      && (v.lock == HeldByCheckpoint && !c.anyRestart ==> Covered(v.acks[..k], v.log[..n]))
  }

  function After(c: Config, v: State, step: Step): State
    requires Possible(c, v, step)
  {
    match step
    case BeginAppend(p, event) =>
      var n := v.seqNo + 1;
      v.(log := v.log + [Record(n, c.codec.marshal(event).value)], seqNo := n, lock := HeldByPusher(p),
         pushers := v.pushers[p := Writing(event, n)], offered := v.offered + {event})
    case AppendWriteFails(p, event) =>
      v.(seqNo := v.seqNo + 1, offered := v.offered + {event})
    case SyncSucceeds(p) =>
      var at := v.pushers[p];
      v.(synced := |v.log|, lock := Free, pushers := v.pushers[p := Appended(at.event, at.seqNo)])
    case SyncFails(p) =>
      v.(lock := Free, pushers := v.pushers - {p})
    case StoreNumber(p) =>
      var at := v.pushers[p];
      v.(tracker := v.tracker[at.event.eventId := at.seqNo], pushers := v.pushers[p := Stored(at.event)])
    case BufferAccepts(p) =>
      var event := v.pushers[p].event;
      v.(buffer := v.buffer + multiset{event}, accepted := v.accepted + {event}, pushers := v.pushers - {p})
    case BufferRejects(p) =>
      v.(pushers := v.pushers[p := Rejected(v.pushers[p].event)])
    case RollBack(p) =>
      v.(tracker := v.tracker - {v.pushers[p].event.eventId}, pushers := v.pushers - {p})
    case BufferLoses(event) =>
      v.(buffer := v.buffer - multiset{event})
    case WorkerStarts(w) =>
      v.(workers := v.workers[w := Collecting([])])
    case Receive(w, event) =>
      v.(buffer := v.buffer - multiset{event}, workers := v.workers[w := Collecting(v.workers[w].batch + [event])])
    case BeginFlush(w) =>
      v.(workers := v.workers[w := Flushing(v.workers[w].batch, 0, true)])
    case SinkAccepts(w) =>
      var at := v.workers[w];
      v.(written := v.written + {(at.sink, at.batch)}, workers := v.workers[w := at.(sink := at.sink + 1)])
    case SinkFails(w) =>
      var at := v.workers[w];
      v.(workers := v.workers[w := Flushing(at.batch, at.sink + 1, false)])
    case EndFlush(w) =>
      var at := v.workers[w];
      v.(workers := v.workers[w := if at.allSucceeded then Acking(at.batch, 0) else Collecting([])])
    case TakeNumber(w) =>
      var at := v.workers[w];
      var id := at.batch[at.next].eventId;
      if id in v.tracker
      then v.(tracker := v.tracker - {id}, workers := v.workers[w := Holding(at.batch, at.next + 1, v.tracker[id])])
      else v.(workers := v.workers[w := Acking(at.batch, at.next + 1)])
    case Acknowledge(w, fileWritten) =>
      var at := v.workers[w];
      v.(acked := v.acked + {at.seqNo}, acks := if fileWritten then v.acks + [at.seqNo] else v.acks,
         workers := v.workers[w := Acking(at.batch, at.next)])
    case EndAcks(w) =>
      v.(workers := v.workers[w := Collecting([])])
    case WorkerPanics(w) =>
      v.(workers := v.workers - {w})
    case RenameCompacted =>
      var kept := Unacked(v.acked, v.log);
      v.(log := kept, synced := |kept|, lock := HeldByCheckpoint)
    case TruncateAcks =>
      v.(acks := [], acked := {}, lock := Free)
    case Restart(n, k, kept) =>
      v.(log := v.log[..n], synced := n, acks := v.acks[..k], acked := SetOf(v.acks[..k]),
         seqNo := MaxSeq(v.log[..n]), lock := Free,
         tracker := map[], buffer := kept, pushers := map[], workers := map[])
  }

  /** The steps can be taken one after the other, and where they lead. */
  ghost predicate CanRun(c: Config, v: State, steps: seq<Step>)
    decreases |steps|
  {
    steps == [] || (Possible(c, v, steps[0]) && CanRun(c, After(c, v, steps[0]), steps[1..]))
  }

  ghost function Run(c: Config, v: State, steps: seq<Step>): State
    requires CanRun(c, v, steps)
    decreases |steps|
  {
    if steps == [] then v else Run(c, After(c, v, steps[0]), steps[1..])
  }

  /** One step more at the end of a run. */
  lemma {:induction false} ExtendRun(c: Config, v: State, steps: seq<Step>, step: Step)
    requires CanRun(c, v, steps) && Possible(c, Run(c, v, steps), step)
    ensures CanRun(c, v, steps + [step])
    ensures Run(c, v, steps + [step]) == After(c, Run(c, v, steps), step)
    decreases |steps|
  {
    hide After, Possible;
    if steps == [] {
      assert [] + [step] == [step] && [step][1..] == [];
    } else {
      ExtendRun(c, After(c, v, steps[0]), steps[1..], step);
      assert (steps + [step])[1..] == steps[1..] + [step];
    }
  }

  lemma {:induction false} JoinRuns(c: Config, v: State, steps: seq<Step>, more: seq<Step>)
    requires CanRun(c, v, steps) && CanRun(c, Run(c, v, steps), more)
    ensures CanRun(c, v, steps + more)
    ensures Run(c, v, steps + more) == Run(c, Run(c, v, steps), more)
    decreases |steps|
  {
    hide After, Possible;
    if steps == [] {
      assert [] + more == more;
    } else {
      JoinRuns(c, After(c, v, steps[0]), steps[1..], more);
      assert (steps + more)[1..] == steps[1..] + more && (steps + more)[0] == steps[0];
    }
  }

  // ---- What delivery means -----------------------------------------------------------------

  predicate HasId(batch: seq<Event>, id: string) {
    exists i :: 0 <= i < |batch| && batch[i].eventId == id
  }

  /** Write returned nil for this batch at every sink. */
  predicate WrittenByAll(c: Config, written: set<(nat, seq<Event>)>, batch: seq<Event>) {
    forall i :: 0 <= i < c.sinks ==> (i, batch) in written
  }

  /** One batch that holds an event with this id was written by every sink. */
  ghost predicate Delivered(c: Config, written: set<(nat, seq<Event>)>, id: string) {
    exists batch :: WrittenByAll(c, written, batch) && HasId(batch, id)
  }

  predicate Carries(c: Config, r: Record, event: Event) {
    c.codec.unmarshal(r.payload) == Some(event)
  }

  predicate CarriesId(c: Config, r: Record, id: string) {
    var event := c.codec.unmarshal(r.payload);
    event.Some? && event.value.eventId == id
  }
}
