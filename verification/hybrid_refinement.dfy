/** The methods of the hybrid buffer are runs of its state machine. */
module HybridRefinement {
  import opened Options
  import opened Events
  import opened Decimal
  import opened OverflowFormat
  import opened DiskQueues
  import opened Hybrids
  import opened HybridMachine

  /** What a buffer holds and what the machine's state says; everything on disk can be read. */
  ghost predicate MatchesAt(size: nat, ch: seq<Event>, contents: seq<Option<Event>>, quit: bool, closed: bool, v: State) {
    && v.cap == size && EventsOf(v.ch) == ch && contents == Lift(v.disk)
    && v.quit == quit && v.closed == closed
  }

  ghost predicate Matches(h: HybridBuffer, v: State)
    requires h.Valid()
    reads h, h.dq
  {
    MatchesAt(h.size, h.ch, h.dq.Contents(), h.quit, h.closed, v)
  }

  // ---- Push ------------------------------------------------------------------------------------------

  /** The way that an event takes when nobody interferes. */
  predicate GoesDirect(v: State) {
    v.disk == [] && |v.ch| < v.cap
  }

  /** The machine after a push that went through, or that failed. */
  function AfterPush(v: State, event: Event, ok: bool): State {
    if !ok then v
    else if GoesDirect(v) then
      v.(ch := v.ch + [Sent(event, false)], accepted := v.accepted + [event], routes := v.routes + [Sent(event, false)],
         overtakes := v.overtakes + (if InFlight(v.pump) != [] then 1 else 0))
    else
      v.(disk := v.disk + [event], accepted := v.accepted + [event], routes := v.routes + [Sent(event, true)],
         enqueued := v.enqueued + [event])
  }

  lemma NoSteps(v: State)
    ensures CanRun(v, []) && Run(v, []) == v
  {
  }

  /** Check, then send, or check, find the channel full and spill, or check and spill. */
  lemma PushSteps(v: State, p: nat, event: Event, ok: bool) returns (steps: seq<Step>)
    requires p !in v.producers && !v.closed && (GoesDirect(v) ==> ok)
    ensures CanRun(v, steps) && Run(v, steps) == AfterPush(v, event, ok)
  {
    hide CanRun, Run;
    NoSteps(v);
    var u;
    steps, u := Extend(v, [], v, CheckEmpty(p, event));
    if GoesDirect(v) {
      assert InFlight(v.pump) + [] == InFlight(v.pump);
      steps, u := Extend(v, steps, u, SendDirect(p));
    } else {
      if v.disk == [] {
        steps, u := Extend(v, steps, u, FindFull(p));
      }
      steps, u := Extend(v, steps, u, if ok then Enqueue(p) else EnqueueFails(p));
    }
    assert u.producers == v.producers;
  }

  lemma LiftSnoc(es: seq<Event>, e: Event)
    ensures Lift(es + [e]) == Lift(es) + [Some(e)]
  {
  }

  lemma LiftInjective(es: seq<Event>, fs: seq<Event>)
    requires Lift(es) == Lift(fs)
    ensures es == fs
  {
    forall i | 0 <= i < |es| ensures es[i] == fs[i] {
      assert Lift(es)[i] == Lift(fs)[i];
    }
  }

  /**
   * An undisturbed push is a run of the machine between matching states. The event joins the accepted ones
   * exactly when nil is returned, and goes in by the route that the method takes.
   */
  method PushIsRun(h: HybridBuffer, event: Event, io: IoOutcome, ghost v: State, ghost p: nat)
    returns (r: Result<()>, ghost steps: seq<Step>)
    requires h.Valid() && !h.closed && Matches(h, v) && p !in v.producers
    requires h.dq.codec.marshal(event).Some? ==>
      h.dq.writeOffset + LENGTH_SIZE + |h.dq.codec.marshal(event).value| < INT64_LIMIT
    modifies h`ch, h.dq
    ensures h.Valid() && CanRun(v, steps) && Run(v, steps) == AfterPush(v, event, r.Ok?)
    ensures Matches(h, Run(v, steps))
  {
    hide CanRun, Run, Lift, DiskQueue.Valid, DiskQueue.Contents, MatchesAt, AfterPush;
    ghost var ch, contents := h.ch, h.dq.Contents();
    r := h.Push(event, io);
    steps := PushMatched(h.size, ch, contents, h.quit, v, p, event, h.ch, h.dq.Contents(), r.Ok?);
  }

  /** The same about what the contract of Push says. */
  lemma PushMatched(size: nat, ch: seq<Event>, contents: seq<Option<Event>>, quit: bool, v: State, p: nat, event: Event,
    ch': seq<Event>, contents': seq<Option<Event>>, ok: bool) returns (steps: seq<Step>)
    requires MatchesAt(size, ch, contents, quit, false, v) && p !in v.producers
    requires Lift(ch') + contents' == Lift(ch) + contents + (if ok then [Some(event)] else [])
    requires ch' == ch + (if contents == [] && |ch| < size then [event] else [])
    requires contents == [] && |ch| < size ==> ok
    ensures CanRun(v, steps) && Run(v, steps) == AfterPush(v, event, ok)
    ensures MatchesAt(size, ch', contents', quit, false, AfterPush(v, event, ok))
  {
    hide CanRun, Run, Lift;
    assert ch + [] == ch;
    assert GoesDirect(v) <==> contents == [] && |ch| < size by { Readable(v.disk); }
    steps := PushSteps(v, p, event, ok);
    PushedContents(ch, contents, ch', contents', event, ok);
    EventsOfSnoc(v.ch, Sent(event, false));
    LiftSnoc(v.disk, event);
  }

  lemma PushedContents(ch: seq<Event>, contents: seq<Option<Event>>, ch': seq<Event>, contents': seq<Option<Event>>, event: Event, ok: bool)
    requires Lift(ch') + contents' == Lift(ch) + contents + (if ok then [Some(event)] else [])
    requires ch' == ch || (ch' == ch + [event] && contents == [] && ok)
    ensures contents' == if ch' == ch && ok then contents + [Some(event)] else contents
  {
    if ch' == ch {
      assert (Lift(ch) + contents')[|ch|..] == contents';
      assert (Lift(ch) + contents + (if ok then [Some(event)] else []))[|ch|..] == contents + (if ok then [Some(event)] else []);
    } else {
      assert |Lift(ch') + contents'| == |ch| + 1 + |contents'|;
    }
  }

  // ---- Moving events from disk to the channel --------------------------------------------------------------

  function Forwarded(es: seq<Event>): seq<Out> {
    seq(|es|, i requires 0 <= i < |es| => Out(es[i], true))
  }

  /** The machine after the first `m` events on disk were moved to the channel. */
  function Moved(v: State, m: nat): State
    requires m <= |v.disk|
  {
    v.(ch := v.ch + Spilled(v.disk[..m]), disk := v.disk[m..], outs := v.outs + Forwarded(v.disk[..m]))
  }

  /** One event more. */
  lemma MovedStep(v: State, m: nat, pump: Pump)
    requires m < |v.disk|
    ensures var e, u := v.disk[m], Moved(v, m).(pump := pump);
      && u.disk != [] && u.disk[0] == e && u.disk[1..] == v.disk[m + 1..]
      && u.ch + [Sent(e, true)] == Moved(v, m + 1).ch
      && u.outs + [Out(e, true)] == Moved(v, m + 1).outs
      && |u.ch| == |v.ch| + m
  {
    assert v.disk[..m + 1] == v.disk[..m] + [v.disk[m]];
  }

  lemma NothingMoved(v: State)
    ensures Moved(v, 0) == v
  {
    assert v.ch + Spilled(v.disk[..0]) == v.ch && v.outs + Forwarded(v.disk[..0]) == v.outs;
  }

  /** Rounds of pumpBatch: the disk is not empty, there is room, dequeue, send. */
  lemma {:induction false} PumpRounds(v: State, m: nat) returns (steps: seq<Step>)
    requires v.pump == BatchTop && m <= |v.disk| && |v.ch| + m <= v.cap
    ensures CanRun(v, steps) && Run(v, steps) == Moved(v, m)
  {
    hide CanRun, Run, Moved;
    if m == 0 {
      NoSteps(v);
      NothingMoved(v);
      steps := [];
    } else {
      steps := PumpRounds(v, m - 1);
      var u := Moved(v, m - 1);
      OnePumpRound(v, m - 1);
      steps, u := Extend(v, steps, u, BatchCheckEmpty);
      steps, u := Extend(v, steps, u, BatchCheckRoom);
      steps, u := Extend(v, steps, u, BatchDequeue);
      steps, u := Extend(v, steps, u, BatchSend);
    }
  }

  lemma OnePumpRound(v: State, m: nat)
    requires v.pump == BatchTop && m < |v.disk| && |v.ch| + m < v.cap
    ensures var u := Moved(v, m);
      && u.pump == BatchTop && u.disk != [] && |u.ch| < u.cap
      && Moved(v, m + 1) == u.(disk := u.disk[1..], ch := u.ch + [Sent(u.disk[0], true)], outs := u.outs + [Out(u.disk[0], true)])
  {
    MovedStep(v, m, BatchTop);
  }

  /** A drop of the event in hand. */
  function Dropped(v: State, viaQuit: bool): State
    requires v.disk != []
  {
    var e := v.disk[0];
    v.(disk := v.disk[1..], outs := v.outs + [Out(e, false)], dropped := v.dropped + [e],
       quitDrops := if viaQuit then v.quitDrops + 1 else v.quitDrops,
       drainDrops := if viaQuit then v.drainDrops else v.drainDrops + 1)
  }

  /** A whole call of pumpBatch that moves `m` events and then loses one, or stops for lack of events or room. */
  lemma PumpSteps(v: State, m: nat, lost: bool) returns (steps: seq<Step>)
    requires v.pump == Waiting && m <= |v.disk| && |v.ch| + m <= v.cap
    requires if lost then v.quit && m < |v.disk| && |v.ch| + m < v.cap else m == |v.disk| || |v.ch| + m == v.cap
    ensures CanRun(v, steps)
    ensures Run(v, steps) == (if lost then Dropped(Moved(v, m), true) else Moved(v, m)).(late := if v.quit then v.late + 1 else v.late)
  {
    hide CanRun, Run;
    NoSteps(v);
    var u;
    steps, u := Extend(v, [], v, Tick);
    var more := PumpRounds(u, m);
    JoinRuns(v, steps, more);
    steps, u := steps + more, Moved(u, m);
    steps, u := Extend(v, steps, u, BatchCheckEmpty);
    if m < |v.disk| {
      steps, u := Extend(v, steps, u, BatchCheckRoom);
      if lost {
        steps, u := Extend(v, steps, u, BatchDequeue);
        steps, u := Extend(v, steps, u, BatchQuit);
      }
    }
  }

  lemma {:induction false} JoinRuns(v: State, steps: seq<Step>, more: seq<Step>)
    requires CanRun(v, steps) && CanRun(Run(v, steps), more)
    ensures CanRun(v, steps + more) && Run(v, steps + more) == Run(Run(v, steps), more)
    decreases |steps|
  {
    hide Apply, Enabled;
    if steps == [] {
      assert [] + more == more;
    } else {
      JoinRuns(Apply(v, steps[0]), steps[1..], more);
      assert (steps + more)[1..] == steps[1..] + more && (steps + more)[0] == steps[0];
    }
  }

  /** What the contracts of the loops say, about the events on disk. */
  lemma SplitPending(ch: seq<Event>, disk: seq<Event>, ch': seq<Event>, lost: Option<Event>, contents: seq<Option<Event>>)
    returns (m: nat)
    requires ch <= ch' && Lift(ch) + Lift(disk) == Lift(ch') + AsSeq(lost) + contents
    ensures m == |ch'| - |ch| <= |disk| && ch' == ch + disk[..m]
    ensures lost.Some? ==> m < |disk| && lost.value == disk[m]
    ensures contents == Lift(disk[if lost.Some? then m + 1 else m..])
  {
    m := |ch'| - |ch|;
    var all, l := Lift(ch') + AsSeq(lost) + contents, |AsSeq(lost)|;
    assert |all| == |ch| + |disk| == |ch'| + l + |contents|;
    forall i | 0 <= i < m ensures ch'[|ch| + i] == disk[i] {
      assert all[|ch| + i] == Some(ch'[|ch| + i]) && (Lift(ch) + Lift(disk))[|ch| + i] == Some(disk[i]);
    }
    assert ch' == ch + disk[..m];
    if lost.Some? {
      assert all[|ch'|] == lost && (Lift(ch) + Lift(disk))[|ch| + m] == Some(disk[m]);
    }
    forall i | 0 <= i < |contents| ensures contents[i] == Some(disk[m + l + i]) {
      assert all[|ch'| + l + i] == contents[i] && (Lift(ch) + Lift(disk))[|ch| + m + l + i] == Some(disk[m + l + i]);
    }
  }

  lemma {:induction false} EventsOfSpilled(sent: seq<Sent>, es: seq<Event>)
    ensures EventsOf(sent + Spilled(es)) == EventsOf(sent) + es
  {
    if es == [] {
      assert sent + Spilled(es) == sent;
    } else {
      var n := |es| - 1;
      EventsOfSpilled(sent, es[..n]);
      assert sent + Spilled(es) == sent + Spilled(es[..n]) + [Sent(es[n], true)];
      EventsOfSnoc(sent + Spilled(es[..n]), Sent(es[n], true));
    }
  }

  /**
   * An undisturbed call of pumpBatch is a run of the machine between matching states: what was moved is moved
   * in the machine, and an event that was lost is dropped there.
   */
  method PumpBatchIsRun(h: HybridBuffer, quitWins: nat -> bool, ghost v: State) returns (lost: Option<Event>, ghost steps: seq<Step>)
    requires h.Valid() && Matches(h, v) && v.pump == Waiting
    modifies h`ch, h.dq
    ensures h.Valid() && CanRun(v, steps) && Matches(h, Run(v, steps)) && Run(v, steps).pump == Waiting
    ensures Run(v, steps).dropped == v.dropped + (if lost.Some? then [lost.value] else [])
    ensures Run(v, steps).accepted == v.accepted
  {
    hide CanRun, Run, Lift, DiskQueue.Valid, DiskQueue.Contents, MatchesAt, AsSeq;
    ghost var ch, contents := h.ch, h.dq.Contents();
    lost := h.PumpBatch(quitWins);
    steps := PumpMatched(h.size, ch, contents, h.quit, h.closed, v, h.ch, h.dq.Contents(), lost);
  }

  lemma PumpMatched(size: nat, ch: seq<Event>, contents: seq<Option<Event>>, quit: bool, closed: bool, v: State,
    ch': seq<Event>, contents': seq<Option<Event>>, lost: Option<Event>) returns (steps: seq<Step>)
    requires MatchesAt(size, ch, contents, quit, closed, v) && v.pump == Waiting
    requires ch <= ch' && |ch'| <= size && Lift(ch) + contents == Lift(ch') + AsSeq(lost) + contents'
    requires lost.Some? ==> quit && |ch'| < size
    requires lost.None? ==> contents' == [] || contents'[0].None? || |ch'| >= size
    ensures CanRun(v, steps)
    ensures var u := Run(v, steps);
      && MatchesAt(size, ch', contents', quit, closed, u) && u.pump == Waiting && u.accepted == v.accepted
      && u.dropped == v.dropped + (if lost.Some? then [lost.value] else [])
  {
    hide CanRun, Run, Lift, AsSeq;
    var m := SplitPending(ch, v.disk, ch', lost, contents');
    assert lost.None? ==> m == |v.disk| || |v.ch| + m == v.cap by { Readable(v.disk[m..]); }
    steps := PumpSteps(v, m, lost.Some?);
    EventsOfSpilled(v.ch, v.disk[..m]);
    assert v.disk[m..] != [] ==> v.disk[m..][1..] == v.disk[m + 1..];
    assert v.dropped + [] == v.dropped;
  }

  lemma Readable(es: seq<Event>)
    ensures |Lift(es)| == |es| && forall i :: 0 <= i < |es| ==> Lift(es)[i].Some?
  {
  }

  /** A head that cannot be read ends pumpBatch after what was moved before it, and nothing is lost. */
  lemma PumpStopsOnError(v: State, m: nat) returns (steps: seq<Step>)
    requires v.pump == Waiting && m < |v.disk| && |v.ch| + m < v.cap
    ensures CanRun(v, steps)
    ensures Run(v, steps) == Moved(v, m).(late := if v.quit then v.late + 1 else v.late)
  {
    hide CanRun, Run;
    NoSteps(v);
    var u;
    steps, u := Extend(v, [], v, Tick);
    var more := PumpRounds(u, m);
    JoinRuns(v, steps, more);
    steps, u := steps + more, Moved(u, m);
    steps, u := Extend(v, steps, u, BatchCheckEmpty);
    steps, u := Extend(v, steps, u, BatchCheckRoom);
    steps, u := Extend(v, steps, u, DequeueFails);
  }

  /** Consumers get everything that is in the channel, in order. */
  lemma {:induction false} ConsumeAll(v: State) returns (steps: seq<Step>)
    ensures CanRun(v, steps) && Run(v, steps) == v.(ch := [], consumed := v.consumed + v.ch)
    decreases |v.ch|
  {
    if v.ch == [] {
      assert v.consumed + [] == v.consumed;
      steps := [];
    } else {
      var u := v.(ch := v.ch[1..], consumed := v.consumed + [v.ch[0]]);
      assert Enabled(v, Consume) && Apply(v, Consume) == u;
      hide Apply, Enabled;
      var more := ConsumeAll(u);
      assert v.ch == [v.ch[0]] + v.ch[1..];
      assert v.consumed + [v.ch[0]] + v.ch[1..] == v.consumed + v.ch;
      steps := [Consume] + more;
      assert steps[1..] == more;
    }
  }

  // ---- Shutdown -----------------------------------------------------------------------------------------

  lemma {:induction false} DrainRounds(v: State, m: nat) returns (steps: seq<Step>)
    requires v.pump == Draining && m <= |v.disk| && |v.ch| + m <= v.cap
    ensures CanRun(v, steps) && Run(v, steps) == Moved(v, m)
  {
    hide CanRun, Run, Moved;
    if m == 0 {
      NoSteps(v);
      NothingMoved(v);
      steps := [];
    } else {
      steps := DrainRounds(v, m - 1);
      var u := Moved(v, m - 1);
      OneDrainRound(v, m - 1);
      steps, u := Extend(v, steps, u, DrainDequeue);
      steps, u := Extend(v, steps, u, DrainSend);
    }
  }

  lemma OneDrainRound(v: State, m: nat)
    requires v.pump == Draining && m < |v.disk| && |v.ch| + m < v.cap
    ensures var u := Moved(v, m);
      && u.pump == Draining && u.disk != [] && |u.ch| < u.cap
      && Moved(v, m + 1) == u.(disk := u.disk[1..], ch := u.ch + [Sent(u.disk[0], true)], outs := u.outs + [Out(u.disk[0], true)])
  {
    MovedStep(v, m, Draining);
  }

  /** The drain: `m` events are moved, and then the disk is empty or one event finds the channel full. */
  lemma DrainSteps(v: State, m: nat, lost: bool) returns (steps: seq<Step>)
    requires v.pump == Draining && m <= |v.disk| && |v.ch| + m <= v.cap
    requires if lost then m < |v.disk| && |v.ch| + m == v.cap else m == |v.disk|
    ensures CanRun(v, steps)
    ensures Run(v, steps) == (if lost then Dropped(Moved(v, m), false) else Moved(v, m)).(pump := Closing)
  {
    hide CanRun, Run;
    steps := DrainRounds(v, m);
    var u := Moved(v, m);
    steps, u := Extend(v, steps, u, DrainDequeue);
    if lost {
      steps, u := Extend(v, steps, u, DrainFull);
    }
  }

  /** The last drain by itself. */
  method DrainOverflowIsRun(h: HybridBuffer, ghost v: State) returns (lost: Option<Event>, ghost steps: seq<Step>)
    requires h.Valid() && Matches(h, v) && v.pump == Draining
    modifies h`ch, h.dq
    ensures h.Valid() && CanRun(v, steps) && Matches(h, Run(v, steps)) && Run(v, steps).pump == Closing
    ensures Run(v, steps).dropped == v.dropped + (if lost.Some? then [lost.value] else [])
    ensures Run(v, steps).accepted == v.accepted
  {
    hide CanRun, Run, Lift, DiskQueue.Valid, DiskQueue.Contents, MatchesAt, AsSeq;
    ghost var ch, contents := h.ch, h.dq.Contents();
    lost := h.DrainOverflow();
    steps := DrainMatched(h.size, ch, contents, h.quit, h.closed, v, h.ch, h.dq.Contents(), lost);
  }

  lemma DrainMatched(size: nat, ch: seq<Event>, contents: seq<Option<Event>>, quit: bool, closed: bool, v: State,
    ch': seq<Event>, contents': seq<Option<Event>>, lost: Option<Event>) returns (steps: seq<Step>)
    requires MatchesAt(size, ch, contents, quit, closed, v) && v.pump == Draining
    requires ch <= ch' && |ch'| <= size && Lift(ch) + contents == Lift(ch') + AsSeq(lost) + contents'
    requires lost.Some? ==> |ch'| == size
    requires lost.None? ==> contents' == [] || contents'[0].None?
    ensures CanRun(v, steps)
    ensures var u := Run(v, steps);
      && MatchesAt(size, ch', contents', quit, closed, u) && u.pump == Closing && u.accepted == v.accepted
      && u.dropped == v.dropped + (if lost.Some? then [lost.value] else [])
  {
    hide CanRun, Run, Lift, AsSeq;
    var m := SplitPending(ch, v.disk, ch', lost, contents');
    assert lost.None? ==> m == |v.disk| by { Readable(v.disk[m..]); }
    steps := DrainSteps(v, m, lost.Some?);
    EventsOfSpilled(v.ch, v.disk[..m]);
    assert v.disk[m..] != [] ==> v.disk[m..][1..] == v.disk[m + 1..];
    assert v.dropped + [] == v.dropped;
  }

  /** A head that cannot be read ends the drain as an empty disk does: the channel is closed next. */
  lemma DrainStopsOnError(v: State, m: nat) returns (steps: seq<Step>)
    requires v.pump == Draining && m <= |v.disk| && |v.ch| + m <= v.cap
    ensures CanRun(v, steps) && Run(v, steps) == Moved(v, m).(pump := Done, closed := true)
  {
    hide CanRun, Run;
    steps := DrainRounds(v, m);
    var u := Moved(v, m);
    steps, u := Extend(v, steps, u, DequeueFails);
    steps, u := Extend(v, steps, u, CloseChannel);
  }

  /** After shutdown a push that finds nothing on disk panics on the closed channel, and nothing is accepted. */
  lemma PushAfterClose(v: State, p: nat, event: Event) returns (steps: seq<Step>)
    requires p !in v.producers && v.closed && v.disk == []
    ensures CanRun(v, steps) && Run(v, steps) == v
  {
    hide CanRun, Run;
    NoSteps(v);
    var u;
    steps, u := Extend(v, [], v, CheckEmpty(p, event));
    steps, u := Extend(v, steps, u, SendOnClosed(p));
    assert u.producers == v.producers;
  }

  /** A whole shutdown of an idle pump. */
  lemma CloseSteps(v: State, m: nat, lost: bool) returns (steps: seq<Step>)
    requires v.pump == Waiting && !v.quit && m <= |v.disk| && |v.ch| + m <= v.cap
    requires if lost then m < |v.disk| && |v.ch| + m == v.cap else m == |v.disk|
    ensures CanRun(v, steps)
    ensures Run(v, steps) == (if lost then Dropped(Moved(v, m), false) else Moved(v, m)).(pump := Done, quit := true, closed := true)
  {
    hide CanRun, Run;
    NoSteps(v);
    var u;
    steps, u := Extend(v, [], v, Quit);
    steps, u := Extend(v, steps, u, SeeQuit);
    var more := DrainSteps(u, m, lost);
    JoinRuns(v, steps, more);
    var w := (if lost then Dropped(Moved(u, m), false) else Moved(u, m)).(pump := Closing);
    steps, w := Extend(v, steps + more, w, CloseChannel);
  }

  /** Close with the pump idle: quit, the drain, and the closing of the channel. */
  method CloseIsRun(h: HybridBuffer, ghost v: State) returns (lost: Option<Event>, ghost steps: seq<Step>)
    requires h.Valid() && Matches(h, v) && v.pump == Waiting && !h.quit && !h.closed
    modifies h, h.dq
    ensures h.Valid() && CanRun(v, steps) && Matches(h, Run(v, steps)) && Run(v, steps).pump == Done
    ensures Run(v, steps).dropped == v.dropped + (if lost.Some? then [lost.value] else [])
    ensures Run(v, steps).accepted == v.accepted
  {
    hide CanRun, Run, Lift, DiskQueue.Valid, DiskQueue.Contents;
    Readable(v.disk);
    assert h.dq.Contents() == Lift(v.disk);
    hide MatchesAt;
    ghost var ch, contents := h.ch, h.dq.Contents();
    lost := h.Close();
    steps := CloseMatched(h.size, ch, contents, v, h.ch, h.dq.Contents(), lost);
  }

  lemma CloseMatched(size: nat, ch: seq<Event>, contents: seq<Option<Event>>, v: State,
    ch': seq<Event>, contents': seq<Option<Event>>, lost: Option<Event>) returns (steps: seq<Step>)
    requires MatchesAt(size, ch, contents, false, false, v) && v.pump == Waiting && |ch| <= size
    requires var pending := Lift(ch) + contents;
      && lost == (if |pending| > size then pending[size] else None)
      && Lift(ch') == (if |pending| > size then pending[..size] else pending)
      && contents' == (if |pending| > size then pending[size + 1..] else [])
    ensures CanRun(v, steps)
    ensures var u := Run(v, steps);
      && MatchesAt(size, ch', contents', true, true, u) && u.pump == Done && u.accepted == v.accepted
      && u.dropped == v.dropped + (if lost.Some? then [lost.value] else [])
  {
    hide CanRun, Run, Lift;
    var m := SplitClosed(ch, v.disk, size, ch', lost, contents');
    steps := CloseSteps(v, m, lost.Some?);
    EventsOfSpilled(v.ch, v.disk[..m]);
    assert v.disk[m..] != [] ==> v.disk[m..][1..] == v.disk[m + 1..];
    assert Lift([]) == [] by { Readable([]); }
    assert v.dropped + [] == v.dropped;
  }

  /** What the contract of Close says, about the events on disk. */
  lemma SplitClosed(ch: seq<Event>, disk: seq<Event>, size: nat, ch': seq<Event>, lost: Option<Event>, contents: seq<Option<Event>>)
    returns (m: nat)
    requires |ch| <= size
    requires var pending := Lift(ch) + Lift(disk);
      && lost == (if |pending| > size then pending[size] else None)
      && Lift(ch') == (if |pending| > size then pending[..size] else pending)
      && contents == (if |pending| > size then pending[size + 1..] else [])
    ensures m <= |disk| && ch' == ch + disk[..m]
    ensures if lost.Some? then m < |disk| && lost.value == disk[m] && |ch| + m == size && contents == Lift(disk[m + 1..])
      else m == |disk| && |ch| + m <= size && contents == []
  {
    m := |ch'| - |ch|;
    var pending := Lift(ch) + Lift(disk);
    assert |pending| == |ch| + |disk| && |Lift(ch')| == |ch'|;
    assert pending == Lift(ch + disk);
    assert Lift(ch') == Lift((ch + disk)[..|ch'|]);
    LiftInjective(ch', (ch + disk)[..|ch'|]);
    if |pending| > size {
      assert pending[size] == Some(disk[m]);
      assert pending[size + 1..] == Lift(disk[m + 1..]);
    }
  }
}
