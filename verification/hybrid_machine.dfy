/**
 * The hybrid buffer under concurrency: producers in Push, the pump goroutine and consumers of the
 * channel, one atomic channel or queue operation at a time.
 */
module HybridMachine {
  import opened Events

  /** A producer saw an empty disk queue, or is about to spill. */
  datatype Producer = SawEmpty(event: Event) | Spilling(event: Event)

  /** Where the pump stands; Sending and DrainSending hold an event that is in neither queue. */
  datatype Pump =
    | Waiting
    | BatchTop
    | BatchNotEmpty
    | BatchHasRoom
    | Sending(event: Event)
    | Draining
    | DrainSending(event: Event)
    | Closing
    | Done

  /** A channel send, tagged with the way the event came. */
  datatype Sent = Sent(event: Event, viaDisk: bool)

  /** What became of an event taken off the disk queue. */
  datatype Out = Out(event: Event, forwarded: bool)

  /**
   * `ch`, `disk`, `pump`, `producers`, `quit` and `closed` are the buffer; the rest is history.
   * `accepted` starts as what an earlier process left on disk, and `routes` is the same sequence with the
   * way each event went in; `overtakes` counts direct sends made
   * while an older event was on disk or in flight; `late` counts pumpBatch calls that were running
   * when quit was closed, or began after it.
   */
  datatype State = State(
    cap: nat, ch: seq<Sent>, disk: seq<Event>, pump: Pump, producers: map<nat, Producer>, quit: bool, closed: bool,
    accepted: seq<Event>, routes: seq<Sent>, consumed: seq<Sent>, enqueued: seq<Event>, outs: seq<Out>, dropped: seq<Event>,
    overtakes: nat, late: nat, quitDrops: nat, drainDrops: nat)

  datatype Step =
    | CheckEmpty(p: nat, event: Event)
    | SendDirect(p: nat)
    | FindFull(p: nat)
    | Enqueue(p: nat)
    | EnqueueFails(p: nat)
    | SendOnClosed(p: nat)
    | Tick
    | BatchCheckEmpty
    | BatchCheckRoom
    | BatchDequeue
    | BatchSend
    | BatchQuit
    | DequeueFails
    | SeeQuit
    | DrainDequeue
    | DrainSend
    | DrainFull
    | CloseChannel
    | Quit
    | Consume

  function Spilled(events: seq<Event>): seq<Sent> {
    seq(|events|, i requires 0 <= i < |events| => Sent(events[i], true))
  }

  ghost predicate Init(v: State) {
    && v.cap > 0 && v.ch == [] && v.pump == Waiting && v.producers == map[] && !v.quit && !v.closed
    && v.accepted == v.disk && v.enqueued == v.disk && v.routes == Spilled(v.disk)
    && v.consumed == [] && v.outs == [] && v.dropped == []
    && v.overtakes == 0 && v.late == 0 && v.quitDrops == 0 && v.drainDrops == 0
  }

  predicate InBatch(pump: Pump) {
    pump.BatchTop? || pump.BatchNotEmpty? || pump.BatchHasRoom? || pump.Sending?
  }

  function InFlight(pump: Pump): seq<Event> {
    match pump
    case Sending(event) => [event]
    case DrainSending(event) => [event]
    case _ => []
  }

  predicate Enabled(v: State, step: Step) {
    match step
    case CheckEmpty(p, _) => p !in v.producers
    case SendDirect(p) => p in v.producers && v.producers[p].SawEmpty? && |v.ch| < v.cap && !v.closed
    case FindFull(p) => p in v.producers && v.producers[p].SawEmpty? && |v.ch| >= v.cap && !v.closed
    case Enqueue(p) => p in v.producers && v.producers[p].Spilling?
    case EnqueueFails(p) => p in v.producers && v.producers[p].Spilling?
    case SendOnClosed(p) => p in v.producers && v.producers[p].SawEmpty? && v.closed
    case Tick => v.pump.Waiting?
    case BatchCheckEmpty => v.pump.BatchTop?
    case BatchCheckRoom => v.pump.BatchNotEmpty?
    case BatchDequeue => v.pump.BatchHasRoom?
    case BatchSend => v.pump.Sending? && |v.ch| < v.cap
    case BatchQuit => v.pump.Sending? && v.quit
    case DequeueFails => v.pump.BatchHasRoom? || v.pump.Draining?
    case SeeQuit => v.pump.Waiting? && v.quit
    case DrainDequeue => v.pump.Draining?
    case DrainSend => v.pump.DrainSending? && |v.ch| < v.cap
    case DrainFull => v.pump.DrainSending? && |v.ch| >= v.cap
    case CloseChannel => v.pump.Closing?
    case Quit => !v.quit
    case Consume => v.ch != []
  }

  function Apply(v: State, step: Step): State
    requires Enabled(v, step)
  {
    match step
    case CheckEmpty(p, event) =>
      v.(producers := v.producers[p := if v.disk == [] then SawEmpty(event) else Spilling(event)])
    case SendDirect(p) =>
      var event := v.producers[p].event;
      v.(ch := v.ch + [Sent(event, false)], accepted := v.accepted + [event],
         routes := v.routes + [Sent(event, false)], producers := v.producers - {p},
         overtakes := v.overtakes + (if InFlight(v.pump) + v.disk != [] then 1 else 0))
    case FindFull(p) =>
      v.(producers := v.producers[p := Spilling(v.producers[p].event)])
    case Enqueue(p) =>
      var event := v.producers[p].event;
      v.(disk := v.disk + [event], enqueued := v.enqueued + [event], accepted := v.accepted + [event],
         routes := v.routes + [Sent(event, true)],
         producers := v.producers - {p})
    case EnqueueFails(p) =>
      v.(producers := v.producers - {p})
    case SendOnClosed(p) =>
      v.(producers := v.producers - {p})
    case Tick =>
      v.(pump := BatchTop, late := if v.quit then v.late + 1 else v.late)
    case BatchCheckEmpty =>
      v.(pump := if v.disk == [] then Waiting else BatchNotEmpty)
    case BatchCheckRoom =>
      v.(pump := if |v.ch| >= v.cap then Waiting else BatchHasRoom)
    case BatchDequeue =>
      if v.disk == [] then v.(pump := Waiting)
      else v.(pump := Sending(v.disk[0]), disk := v.disk[1..])
    case BatchSend =>
      v.(pump := BatchTop, ch := v.ch + [Sent(v.pump.event, true)], outs := v.outs + [Out(v.pump.event, true)])
    case BatchQuit =>
      v.(pump := Waiting, outs := v.outs + [Out(v.pump.event, false)], dropped := v.dropped + [v.pump.event],
         quitDrops := v.quitDrops + 1)
    case DequeueFails =>
      v.(pump := if v.pump.Draining? then Closing else Waiting)
    case SeeQuit =>
      v.(pump := Draining)
    case DrainDequeue =>
      if v.disk == [] then v.(pump := Closing)
      else v.(pump := DrainSending(v.disk[0]), disk := v.disk[1..])
    case DrainSend =>
      v.(pump := Draining, ch := v.ch + [Sent(v.pump.event, true)], outs := v.outs + [Out(v.pump.event, true)])
    case DrainFull =>
      v.(pump := Closing, outs := v.outs + [Out(v.pump.event, false)], dropped := v.dropped + [v.pump.event],
         drainDrops := v.drainDrops + 1)
    case CloseChannel =>
      v.(pump := Done, closed := true)
    case Quit =>
      v.(quit := true, late := if InBatch(v.pump) then v.late + 1 else v.late)
    case Consume =>
      v.(ch := v.ch[1..], consumed := v.consumed + [v.ch[0]])
  }

  ghost predicate CanRun(v: State, steps: seq<Step>)
    decreases |steps|
  {
    steps == [] || (Enabled(v, steps[0]) && CanRun(Apply(v, steps[0]), steps[1..]))
  }

  ghost function Run(v: State, steps: seq<Step>): State
    requires CanRun(v, steps)
    decreases |steps|
  {
    if steps == [] then v else Run(Apply(v, steps[0]), steps[1..])
  }

  // ---- Histories as sequences of events ----------------------------------------------------------

  function EventsOf(sent: seq<Sent>): (es: seq<Event>)
    ensures |es| == |sent|
  {
    if sent == [] then [] else EventsOf(sent[..|sent| - 1]) + [sent[|sent| - 1].event]
  }

  function ViaDisk(sent: seq<Sent>): seq<Event> {
    if sent == [] then [] else
      var front := ViaDisk(sent[..|sent| - 1]);
      if sent[|sent| - 1].viaDisk then front + [sent[|sent| - 1].event] else front
  }

  function Taken(outs: seq<Out>): seq<Event> {
    if outs == [] then [] else Taken(outs[..|outs| - 1]) + [outs[|outs| - 1].event]
  }

  /** The events of `outs` that were forwarded to the channel, or that were not. */
  function Having(outs: seq<Out>, forwarded: bool): seq<Event> {
    if outs == [] then [] else
      var front := Having(outs[..|outs| - 1], forwarded);
      if outs[|outs| - 1].forwarded == forwarded then front + [outs[|outs| - 1].event] else front
  }

  function Sends(v: State): seq<Sent> {
    v.consumed + v.ch
  }

  /** Every event the buffer still answers for, in the order in which it will leave. */
  function Queue(v: State): seq<Event> {
    EventsOf(Sends(v)) + InFlight(v.pump) + v.disk
  }

  lemma EventsOfSnoc(sent: seq<Sent>, x: Sent)
    ensures EventsOf(sent + [x]) == EventsOf(sent) + [x.event]
    ensures ViaDisk(sent + [x]) == ViaDisk(sent) + (if x.viaDisk then [x.event] else [])
  {
    assert (sent + [x])[..|sent + [x]| - 1] == sent;
  }

  lemma OutsSnoc(outs: seq<Out>, x: Out)
    ensures Taken(outs + [x]) == Taken(outs) + [x.event]
    ensures Having(outs + [x], x.forwarded) == Having(outs, x.forwarded) + [x.event]
    ensures Having(outs + [x], !x.forwarded) == Having(outs, !x.forwarded)
  {
    assert (outs + [x])[..|outs + [x]| - 1] == outs;
  }

  /** What a step does to the sequence of channel sends. */
  lemma SendsStep(v: State, step: Step)
    requires Enabled(v, step)
    ensures Sends(Apply(v, step)) == Sends(v) + (
      match step
      case SendDirect(p) => [Sent(v.producers[p].event, false)]
      case BatchSend => [Sent(v.pump.event, true)]
      case DrainSend => [Sent(v.pump.event, true)]
      case _ => [])
  {
    hide InFlight, InBatch;
    match step
    case Consume => assert v.ch == [v.ch[0]] + v.ch[1..];
    case SendDirect(p) => assert v.consumed + (v.ch + [Sent(v.producers[p].event, false)]) == Sends(v) + [Sent(v.producers[p].event, false)];
    case BatchSend => assert v.consumed + (v.ch + [Sent(v.pump.event, true)]) == Sends(v) + [Sent(v.pump.event, true)];
    case DrainSend => assert v.consumed + (v.ch + [Sent(v.pump.event, true)]) == Sends(v) + [Sent(v.pump.event, true)];
    case _ => assert Sends(v) + [] == Sends(v);
  }

  // ---- Conservation --------------------------------------------------------------------------------

  ghost predicate Conserved(v: State) {
    multiset(v.accepted) == multiset(Queue(v)) + multiset(v.dropped)
  }

  ghost predicate DropsOk(v: State) {
    && |v.dropped| == v.quitDrops + v.drainDrops
    && v.quitDrops + (if v.quit && InBatch(v.pump) then 1 else 0) <= v.late
    && (!v.quit ==> v.late == 0)
    && v.drainDrops <= (if v.pump.Closing? || v.pump.Done? then 1 else 0)
    && (v.pump.Draining? || v.pump.DrainSending? || v.pump.Closing? || v.pump.Done? ==> v.quit)
    && (v.closed ==> v.pump.Done?)
  }

  /** The same for the part of the queue that is not yet in the channel. */
  lemma RestStep(v: State, step: Step)
    requires Enabled(v, step)
    ensures var rest, rest' := InFlight(v.pump) + v.disk, InFlight(Apply(v, step).pump) + Apply(v, step).disk;
      match step
      case Enqueue(p) => rest' == rest + [v.producers[p].event]
      case BatchSend => rest == [v.pump.event] + rest'
      case DrainSend => rest == [v.pump.event] + rest'
      case BatchQuit => rest == [v.pump.event] + rest'
      case DrainFull => rest == [v.pump.event] + rest'
      case _ => rest' == rest
  {
    if step.Enqueue? {
      var e := v.producers[step.p].event;
      assert InFlight(v.pump) + (v.disk + [e]) == InFlight(v.pump) + v.disk + [e];
    } else if v.pump.Sending? || v.pump.DrainSending? {
      HoldingStep(v, step);
    } else if (step.BatchDequeue? || step.DrainDequeue?) && v.disk != [] {
      assert v.disk == [v.disk[0]] + v.disk[1..];
    }
  }

  lemma HoldingStep(v: State, step: Step)
    requires Enabled(v, step) && !step.Enqueue? && (v.pump.Sending? || v.pump.DrainSending?)
    ensures var v' := Apply(v, step);
      v'.disk == v.disk && v'.pump == if step.BatchSend? then BatchTop else if step.BatchQuit? then Waiting
        else if step.DrainSend? then Draining else if step.DrainFull? then Closing else v.pump
  {
  }

  /** An event enters the queue at the end, or in the middle when sent directly, and leaves it only by a drop. */
  lemma QueueStep(v: State, step: Step)
    requires Enabled(v, step)
    ensures var v' := Apply(v, step);
      var sent, rest := EventsOf(Sends(v)), InFlight(v.pump) + v.disk;
      && Queue(v) == sent + rest
      && match step
      case SendDirect(p) => Queue(v') == sent + [v.producers[p].event] + rest
      case Enqueue(p) => Queue(v') == Queue(v) + [v.producers[p].event]
      case BatchQuit => rest != [] && v.pump.event == rest[0] && Queue(v') == sent + rest[1..]
      case DrainFull => rest != [] && v.pump.event == rest[0] && Queue(v') == sent + rest[1..]
      case _ => Queue(v') == Queue(v)
  {
    hide Apply, InFlight, EventsOf, ViaDisk;
    var v' := Apply(v, step);
    SendsStep(v, step);
    RestStep(v, step);
    var sent, rest, rest' := EventsOf(Sends(v)), InFlight(v.pump) + v.disk, InFlight(v'.pump) + v'.disk;
    assert Queue(v) == sent + rest;
    assert Queue(v') == EventsOf(Sends(v')) + rest';
    match step
    case SendDirect(p) => EventsOfSnoc(Sends(v), Sent(v.producers[p].event, false));
    case BatchSend => EventsOfSnoc(Sends(v), Sent(v.pump.event, true));
    case DrainSend => EventsOfSnoc(Sends(v), Sent(v.pump.event, true));
    case _ => assert Sends(v) + [] == Sends(v);
  }

  lemma InsertOne(s: seq<Event>, e: Event, t: seq<Event>)
    ensures multiset(s + [e] + t) == multiset(s + t) + multiset{e}
  {
  }

  lemma RemoveOne(s: seq<Event>, t: seq<Event>)
    requires t != []
    ensures multiset(s + t) == multiset(s + t[1..]) + multiset{t[0]}
  {
    assert t == [t[0]] + t[1..];
  }

  lemma ConservedStep(v: State, step: Step)
    requires Conserved(v) && Enabled(v, step)
    ensures Conserved(Apply(v, step))
  {
    match step
    case SendDirect(p) => ConservedDirect(v, p);
    case Enqueue(p) => ConservedQuiet(v, step);
    case BatchQuit => ConservedDrop(v, step);
    case DrainFull => ConservedDrop(v, step);
    case _ => ConservedQuiet(v, step);
  }

  lemma ConservedDirect(v: State, p: nat)
    requires Conserved(v) && Enabled(v, SendDirect(p))
    ensures Conserved(Apply(v, SendDirect(p)))
  {
    QueueStep(v, SendDirect(p));
    InsertOne(EventsOf(Sends(v)), v.producers[p].event, InFlight(v.pump) + v.disk);
  }

  lemma ConservedDrop(v: State, step: Step)
    requires Conserved(v) && Enabled(v, step) && (step.BatchQuit? || step.DrainFull?)
    ensures Conserved(Apply(v, step))
  {
    hide Queue, EventsOf, Sends;
    QueueStep(v, step);
    var v', s, t := Apply(v, step), EventsOf(Sends(v)), InFlight(v.pump) + v.disk;
    RemoveOne(s, t);
    assert multiset(v'.dropped) == multiset(v.dropped) + multiset{t[0]};
    assert multiset(Queue(v)) == multiset(Queue(v')) + multiset{t[0]};
  }

  lemma ConservedQuiet(v: State, step: Step)
    requires Conserved(v) && Enabled(v, step) && !step.SendDirect? && !step.BatchQuit? && !step.DrainFull?
    ensures Conserved(Apply(v, step))
  {
    hide Queue, EventsOf, Sends, InFlight;
    QueueStep(v, step);
  }

  lemma DropsStep(v: State, step: Step)
    requires DropsOk(v) && Enabled(v, step)
    ensures DropsOk(Apply(v, step))
  {
  }

  lemma {:induction false} RunConserves(v: State, steps: seq<Step>)
    requires Conserved(v) && DropsOk(v) && CanRun(v, steps)
    ensures Conserved(Run(v, steps)) && DropsOk(Run(v, steps))
    decreases |steps|
  {
    if steps != [] {
      ConservedStep(v, steps[0]);
      DropsStep(v, steps[0]);
      RunConserves(Apply(v, steps[0]), steps[1..]);
    }
  }

  /**
   * Conservation over all runs. Every accepted event is consumed, in the channel, in flight, on disk or
   * dropped, as often as it was accepted. Nothing is dropped before quit is closed; afterwards each
   * pumpBatch call drops at most one event and the final drain at most one.
   */
  lemma Conservation(init: State, steps: seq<Step>)
    requires Init(init) && CanRun(init, steps)
    ensures var v := Run(init, steps);
      && multiset(v.accepted) == multiset(Queue(v)) + multiset(v.dropped)
      && (!v.quit ==> v.dropped == [])
      && |v.dropped| <= v.late + 1
      && v.quitDrops <= v.late && v.drainDrops <= 1 && |v.dropped| == v.quitDrops + v.drainDrops
  {
    RunConserves(init, steps);
  }

  // ---- Order through the disk -------------------------------------------------------------------------

  ghost predicate DiskOrder(v: State) {
    && v.enqueued == Taken(v.outs) + InFlight(v.pump) + v.disk
    && ViaDisk(Sends(v)) == Having(v.outs, true)
    && v.dropped == Having(v.outs, false)
  }

  /** What a step does to the history of the disk queue. */
  lemma OutsStep(v: State, step: Step)
    requires Enabled(v, step)
    ensures Apply(v, step).outs == v.outs + (
      match step
      case BatchSend => [Out(v.pump.event, true)]
      case DrainSend => [Out(v.pump.event, true)]
      case BatchQuit => [Out(v.pump.event, false)]
      case DrainFull => [Out(v.pump.event, false)]
      case _ => [])
    ensures Apply(v, step).enqueued == v.enqueued + (if step.Enqueue? then [v.producers[step.p].event] else [])
    ensures Apply(v, step).dropped == v.dropped + (if step.BatchQuit? || step.DrainFull? then [v.pump.event] else [])
  {
  }

  lemma EnqueuedStep(v: State, step: Step)
    requires v.enqueued == Taken(v.outs) + InFlight(v.pump) + v.disk && Enabled(v, step)
    ensures var v' := Apply(v, step); v'.enqueued == Taken(v'.outs) + InFlight(v'.pump) + v'.disk
  {
    hide Apply, InFlight, Taken;
    OutsStep(v, step);
    RestStep(v, step);
    var v' := Apply(v, step);
    var taken, rest, rest' := Taken(v.outs), InFlight(v.pump) + v.disk, InFlight(v'.pump) + v'.disk;
    assert v.enqueued == taken + rest;
    assert Taken(v'.outs) + InFlight(v'.pump) + v'.disk == Taken(v'.outs) + rest';
    if step.BatchSend? || step.DrainSend? || step.BatchQuit? || step.DrainFull? {
      OutsSnoc(v.outs, Out(v.pump.event, step.BatchSend? || step.DrainSend?));
      assert taken + ([v.pump.event] + rest') == taken + [v.pump.event] + rest';
    } else {
      assert v.outs + [] == v.outs;
    }
  }

  lemma ViaDiskStep(v: State, step: Step)
    requires ViaDisk(Sends(v)) == Having(v.outs, true) && v.dropped == Having(v.outs, false) && Enabled(v, step)
    ensures var v' := Apply(v, step);
      ViaDisk(Sends(v')) == Having(v'.outs, true) && v'.dropped == Having(v'.outs, false)
  {
    hide Apply, ViaDisk, Having, Sends;
    SendsStep(v, step);
    OutsStep(v, step);
    assert Sends(v) + [] == Sends(v) && v.outs + [] == v.outs;
    match step
    case SendDirect(p) => EventsOfSnoc(Sends(v), Sent(v.producers[p].event, false));
    case BatchSend =>
      EventsOfSnoc(Sends(v), Sent(v.pump.event, true));
      OutsSnoc(v.outs, Out(v.pump.event, true));
    case DrainSend =>
      EventsOfSnoc(Sends(v), Sent(v.pump.event, true));
      OutsSnoc(v.outs, Out(v.pump.event, true));
    case BatchQuit => OutsSnoc(v.outs, Out(v.pump.event, false));
    case DrainFull => OutsSnoc(v.outs, Out(v.pump.event, false));
    case _ =>
  }

  lemma DiskOrderStep(v: State, step: Step)
    requires DiskOrder(v) && Enabled(v, step)
    ensures DiskOrder(Apply(v, step))
  {
    EnqueuedStep(v, step);
    ViaDiskStep(v, step);
  }

  lemma {:induction false} RunDiskOrder(v: State, steps: seq<Step>)
    requires DiskOrder(v) && CanRun(v, steps)
    ensures DiskOrder(Run(v, steps))
    decreases |steps|
  {
    if steps != [] {
      DiskOrderStep(v, steps[0]);
      RunDiskOrder(Apply(v, steps[0]), steps[1..]);
    }
  }

  lemma {:induction false} NothingDroppedAllForwarded(outs: seq<Out>)
    requires Having(outs, false) == []
    ensures Having(outs, true) == Taken(outs)
  {
    if outs != [] {
      NothingDroppedAllForwarded(outs[..|outs| - 1]);
    }
  }

  /**
   * Order through the disk, in every interleaving: events leave the disk queue in the order in which
   * they entered it; what reaches the channel from it is that sequence without the dropped events, and
   * all of it as long as nothing was dropped.
   */
  lemma DiskKeepsOrder(init: State, steps: seq<Step>)
    requires Init(init) && CanRun(init, steps)
    ensures var v := Run(init, steps);
      && v.enqueued == Taken(v.outs) + InFlight(v.pump) + v.disk
      && ViaDisk(v.consumed + v.ch) == Having(v.outs, true)
      && v.dropped == Having(v.outs, false)
      && (v.dropped == [] ==> v.enqueued == ViaDisk(v.consumed + v.ch) + InFlight(v.pump) + v.disk)
  {
    RunDiskOrder(init, steps);
    if Run(init, steps).dropped == [] {
      NothingDroppedAllForwarded(Run(init, steps).outs);
    }
  }

  // ---- Order of direct sends ---------------------------------------------------------------------------

  function Direct(sent: seq<Sent>): seq<Event> {
    if sent == [] then [] else
      var front := Direct(sent[..|sent| - 1]);
      if sent[|sent| - 1].viaDisk then front else front + [sent[|sent| - 1].event]
  }

  lemma DirectSnoc(sent: seq<Sent>, x: Sent)
    ensures Direct(sent + [x]) == Direct(sent) + (if x.viaDisk then [] else [x.event])
  {
    assert (sent + [x])[..|sent + [x]| - 1] == sent;
  }

  ghost predicate RoutesOk(v: State) {
    && EventsOf(v.routes) == v.accepted
    && ViaDisk(v.routes) == v.enqueued
    && Direct(Sends(v)) == Direct(v.routes)
  }

  /** What a step does to the history of acceptances. */
  lemma RoutesStep(v: State, step: Step)
    requires Enabled(v, step)
    ensures var v' := Apply(v, step);
      var more := if step.SendDirect? then [Sent(v.producers[step.p].event, false)]
        else if step.Enqueue? then [Sent(v.producers[step.p].event, true)] else [];
      && v'.routes == v.routes + more
      && v'.accepted == v.accepted + (if more == [] then [] else [more[0].event])
      && v'.enqueued == v.enqueued + (if step.Enqueue? then [more[0].event] else [])
  {
    hide InFlight, InBatch;
    match step
    case SendDirect(_) =>
    case Enqueue(_) =>
    case _ =>
      assert v.routes + [] == v.routes && v.accepted + [] == v.accepted && v.enqueued + [] == v.enqueued;
  }

  lemma RoutesOkStep(v: State, step: Step)
    requires RoutesOk(v) && Enabled(v, step)
    ensures RoutesOk(Apply(v, step))
  {
    hide Apply, EventsOf, ViaDisk, Direct, Sends;
    SendsStep(v, step);
    RoutesStep(v, step);
    assert Sends(v) + [] == Sends(v) && v.routes + [] == v.routes;
    match step
    case SendDirect(p) =>
      EventsOfSnoc(v.routes, Sent(v.producers[p].event, false));
      DirectSnoc(v.routes, Sent(v.producers[p].event, false));
      DirectSnoc(Sends(v), Sent(v.producers[p].event, false));
    case Enqueue(p) =>
      EventsOfSnoc(v.routes, Sent(v.producers[p].event, true));
      DirectSnoc(v.routes, Sent(v.producers[p].event, true));
    case BatchSend => DirectSnoc(Sends(v), Sent(v.pump.event, true));
    case DrainSend => DirectSnoc(Sends(v), Sent(v.pump.event, true));
    case _ =>
  }

  lemma {:induction false} RunRoutesOk(v: State, steps: seq<Step>)
    requires RoutesOk(v) && CanRun(v, steps)
    ensures RoutesOk(Run(v, steps))
    decreases |steps|
  {
    if steps != [] {
      RoutesOkStep(v, steps[0]);
      RunRoutesOk(Apply(v, steps[0]), steps[1..]);
    }
  }

  lemma {:induction false} SpilledRoutes(events: seq<Event>)
    ensures EventsOf(Spilled(events)) == events && ViaDisk(Spilled(events)) == events && Direct(Spilled(events)) == []
  {
    if events != [] {
      SpilledRoutes(events[..|events| - 1]);
      assert Spilled(events)[..|events| - 1] == Spilled(events[..|events| - 1]);
    }
  }

  /**
   * Order of direct sends, in every interleaving: of the accepted events, in order of acceptance, those
   * that went to disk are the disk queue's history, and those that did not are, in that order, exactly the
   * ones that the channel got directly.
   */
  lemma DirectKeepsOrder(init: State, steps: seq<Step>)
    requires Init(init) && CanRun(init, steps)
    ensures var v := Run(init, steps);
      && EventsOf(v.routes) == v.accepted
      && ViaDisk(v.routes) == v.enqueued
      && Direct(v.consumed + v.ch) == Direct(v.routes)
  {
    SpilledRoutes(init.disk);
    RunRoutesOk(init, steps);
  }

  // ---- Order overall -----------------------------------------------------------------------------------

  ghost predicate Before(s: seq<Event>, d: Event, e: Event) {
    exists i, j :: 0 <= i < j < |s| && s[i] == d && s[j] == e
  }

  ghost predicate NoDuplicates(s: seq<Event>) {
    forall i, j :: 0 <= i < j < |s| ==> s[i] != s[j]
  }

  /** Two events leave in the opposite order to the one they were accepted in. */
  ghost predicate Inverted(accepted: seq<Event>, queue: seq<Event>) {
    exists d, e :: Before(accepted, d, e) && Before(queue, e, d)
  }

  /** As long as nothing is dropped: in order if nobody overtook, out of order if somebody did. */
  ghost predicate OrderOk(v: State) {
    v.dropped == [] ==>
      && (v.overtakes == 0 ==> v.accepted == Queue(v))
      && (v.overtakes > 0 ==> Inverted(v.accepted, Queue(v)))
  }

  lemma BeforeInsert(s: seq<Event>, mid: seq<Event>, t: seq<Event>, d: Event, e: Event)
    requires Before(s + t, d, e)
    ensures Before(s + mid + t, d, e)
  {
    var i, j :| 0 <= i < j < |s + t| && (s + t)[i] == d && (s + t)[j] == e;
    var i' := if i < |s| then i else i + |mid|;
    var j' := if j < |s| then j else j + |mid|;
    assert (s + mid + t)[i'] == d && (s + mid + t)[j'] == e;
  }

  lemma InvertedGrows(accepted: seq<Event>, more: seq<Event>, s: seq<Event>, mid: seq<Event>, t: seq<Event>)
    requires Inverted(accepted, s + t)
    ensures Inverted(accepted + more, s + mid + t)
  {
    var d, e :| Before(accepted, d, e) && Before(s + t, e, d);
    BeforeInsert(s, mid, t, e, d);
    assert accepted + [] == accepted;
    BeforeInsert(accepted, more, [], d, e);
    assert accepted + more + [] == accepted + more;
  }

  lemma NewOvertake(v: State, p: nat)
    requires Conserved(v) && v.dropped == [] && Enabled(v, SendDirect(p)) && InFlight(v.pump) + v.disk != []
    ensures Inverted(Apply(v, SendDirect(p)).accepted, Queue(Apply(v, SendDirect(p))))
  {
    hide InFlight, EventsOf, Queue, Sends;
    var v' := Apply(v, SendDirect(p));
    QueueStep(v, SendDirect(p));
    var sent, rest, e := EventsOf(Sends(v)), InFlight(v.pump) + v.disk, v.producers[p].event;
    var d := rest[0];
    assert Queue(v) == sent + rest;
    assert d in multiset(Queue(v)) by { assert Queue(v)[|sent|] == d; }
    assert d in multiset(v.accepted);
    var i :| 0 <= i < |v.accepted| && v.accepted[i] == d;
    assert v'.accepted[i] == d && v'.accepted[|v.accepted|] == e;
    assert Queue(v')[|sent|] == e && Queue(v')[|sent| + 1] == d;
    assert Before(v'.accepted, d, e) && Before(Queue(v'), e, d);
  }

  /** What a step does to the history of accepted events. */
  lemma AcceptedStep(v: State, step: Step)
    requires Enabled(v, step)
    ensures var v' := Apply(v, step);
      && v'.accepted == v.accepted
        + (if step.SendDirect? || step.Enqueue? then [v.producers[step.p].event] else [])
      && v'.overtakes == v.overtakes
        + (if step.SendDirect? && InFlight(v.pump) + v.disk != [] then 1 else 0)
      && (v'.dropped == [] ==> v.dropped == [] && !step.BatchQuit? && !step.DrainFull?)
  {
  }

  lemma OrderStep(v: State, step: Step)
    requires Conserved(v) && OrderOk(v) && Enabled(v, step)
    ensures OrderOk(Apply(v, step))
  {
    hide Apply, Queue, InFlight, EventsOf, Inverted;
    var v' := Apply(v, step);
    QueueStep(v, step);
    AcceptedStep(v, step);
    if v'.dropped == [] {
      match step
      case SendDirect(p) =>
        var sent, rest, e := EventsOf(Sends(v)), InFlight(v.pump) + v.disk, v.producers[p].event;
        if rest != [] {
          NewOvertake(v, p);
        } else if v.overtakes > 0 {
          InvertedGrows(v.accepted, [e], sent, [e], rest);
        } else {
          assert sent + [e] + rest == sent + rest + [e];
        }
      case Enqueue(p) =>
        if v.overtakes > 0 {
          var e := v.producers[p].event;
          assert Queue(v) + [] == Queue(v) && Queue(v) + [e] + [] == Queue(v) + [e];
          InvertedGrows(v.accepted, [e], Queue(v), [e], []);
        }
      case _ =>
        assert v.accepted + [] == v.accepted;
    }
  }

  lemma {:induction false} RunOrder(v: State, steps: seq<Step>)
    requires Conserved(v) && DropsOk(v) && OrderOk(v) && CanRun(v, steps)
    ensures OrderOk(Run(v, steps))
    decreases |steps|
  {
    if steps != [] {
      ConservedStep(v, steps[0]);
      DropsStep(v, steps[0]);
      OrderStep(v, steps[0]);
      RunOrder(Apply(v, steps[0]), steps[1..]);
    }
  }

  lemma InvertedDiffers(s: seq<Event>)
    requires NoDuplicates(s)
    ensures !Inverted(s, s)
  {
  }

  /**
   * When the buffer is first-in first-out. With distinct events and nothing dropped, events leave in the
   * order in which they were accepted exactly when no producer ever sent directly while an older event
   * was on disk or in the pump's hands.
   */
  lemma FifoIffNoOvertake(init: State, steps: seq<Step>)
    requires Init(init) && CanRun(init, steps)
    requires Run(init, steps).dropped == [] && NoDuplicates(Run(init, steps).accepted)
    ensures var v := Run(init, steps);
      v.accepted == EventsOf(v.consumed + v.ch) + InFlight(v.pump) + v.disk <==> v.overtakes == 0
  {
    RunOrder(init, steps);
    InvertedDiffers(Run(init, steps).accepted);
  }

  /** One call of Push at a time, and no direct send between a dequeue and its send. */
  ghost predicate OneProducer(v: State, steps: seq<Step>)
    requires CanRun(v, steps)
    decreases |steps|
  {
    steps == [] ||
    ( && (steps[0].CheckEmpty? ==> v.producers == map[])
      && (steps[0].SendDirect? ==> InFlight(v.pump) == [])
      && OneProducer(Apply(v, steps[0]), steps[1..]))
  }

  ghost predicate Alone(v: State) {
    && (forall p, q :: p in v.producers && q in v.producers ==> p == q)
    && (forall p :: p in v.producers && v.producers[p].SawEmpty? ==> v.disk == [])
  }

  lemma {:induction false} OneProducerNeverOvertakes(v: State, steps: seq<Step>)
    requires CanRun(v, steps) && OneProducer(v, steps) && Alone(v)
    ensures Run(v, steps).overtakes == v.overtakes
    decreases |steps|
  {
    if steps != [] {
      AloneStep(v, steps[0]);
      hide Apply, Alone, Enabled;
      OneProducerNeverOvertakes(Apply(v, steps[0]), steps[1..]);
    }
  }

  lemma AloneStep(v: State, step: Step)
    requires Enabled(v, step) && Alone(v)
    requires (step.CheckEmpty? ==> v.producers == map[]) && (step.SendDirect? ==> InFlight(v.pump) == [])
    ensures Alone(Apply(v, step)) && Apply(v, step).overtakes == v.overtakes
  {
  }

  /** With one producer and an atomic pump the buffer is a queue, until something is dropped. */
  lemma OneProducerFifo(init: State, steps: seq<Step>)
    requires Init(init) && CanRun(init, steps) && OneProducer(init, steps)
    requires Run(init, steps).dropped == []
    ensures var v := Run(init, steps);
      v.accepted == EventsOf(v.consumed + v.ch) + InFlight(v.pump) + v.disk
  {
    hide Apply, CanRun, Run, OneProducer;
    RunOrder(init, steps);
    OneProducerNeverOvertakes(init, steps);
  }

  /**
   * With the pump's dequeue and send apart, one producer is enough to lose the order: the pump holds the
   * last event from disk, the producer finds the disk queue empty and sends ahead of it.
   */
  lemma OneProducerCanOvertake(first: Event, second: Event) returns (init: State, steps: seq<Step>)
    requires first != second
    ensures Init(init) && CanRun(init, steps)
    ensures var v := Run(init, steps);
      && v.accepted == [first, second] && v.dropped == []
      && EventsOf(v.consumed + v.ch) == [second, first]
  {
    init := State(2, [], [first], Waiting, map[], false, false, [first], Spilled([first]), [], [first], [], [], 0, 0, 0, 0);
    var v;
    steps, v := PumpTakes(init);
    hide CanRun, Run, InFlight;
    steps, v := Extend(init, steps, v, CheckEmpty(0, second));
    steps, v := Extend(init, steps, v, SendDirect(0));
    steps, v := Extend(init, steps, v, BatchSend);
    var sent := [Sent(second, false), Sent(first, true)];
    assert v.consumed + v.ch == sent;
    assert sent[..1] == [Sent(second, false)] && sent[..1][..0] == [];
    assert EventsOf(sent[..1]) == [second];
  }

  /** The pump takes the first event off the disk and holds it. */
  lemma PumpTakes(init: State) returns (steps: seq<Step>, v: State)
    requires init.pump == Waiting && !init.quit && init.disk != [] && |init.ch| < init.cap
    ensures CanRun(init, steps) && v == Run(init, steps)
    ensures v == init.(pump := Sending(init.disk[0]), disk := init.disk[1..])
  {
    steps, v := Extend(init, [], init, Tick);
    hide CanRun, Run;
    steps, v := Extend(init, steps, v, BatchCheckEmpty);
    steps, v := Extend(init, steps, v, BatchCheckRoom);
    steps, v := Extend(init, steps, v, BatchDequeue);
  }

  lemma Extend(init: State, steps: seq<Step>, v: State, step: Step) returns (steps': seq<Step>, v': State)
    requires CanRun(init, steps) && v == Run(init, steps) && Enabled(v, step)
    ensures CanRun(init, steps') && v' == Run(init, steps') == Apply(v, step)
  {
    ExtendRun(init, steps, step);
    steps', v' := steps + [step], Apply(v, step);
  }

  lemma {:induction false} ExtendRun(v: State, steps: seq<Step>, step: Step)
    requires CanRun(v, steps) && Enabled(Run(v, steps), step)
    ensures CanRun(v, steps + [step]) && Run(v, steps + [step]) == Apply(Run(v, steps), step)
    decreases |steps|
  {
    if steps == [] {
      assert [] + [step] == [step] && [step][1..] == [];
    } else {
      ExtendRun(Apply(v, steps[0]), steps[1..], step);
      assert (steps + [step])[1..] == steps[1..] + [step];
    }
  }
}
