/** All workers of the pool over one shared channel, in any interleaving, through shutdown. */
module WorkerPool {
  import opened Events
  import opened WorkerLoop

  /** Cooling waits between a panic and the restart; Stopped was cut short by the context. */
  datatype Stage = Active | Cooling | ExitedClean | GaveUp | CutShort

  /** A worker with the history of its batches: flushed, and lost in panics. */
  datatype Member = Member(stage: Stage, batch: seq<Event>, flushed: seq<seq<Event>>, abandoned: seq<seq<Event>>)

  datatype State = State(
    channel: seq<Event>, closed: bool, stopped: bool, members: seq<Member>, pushed: seq<Event>)

  datatype Step =
    | Push(event: Event)
    | Close
    | Stop
    | Take(w: nat, panics: bool)
    | Tick(w: nat, panics: bool)
    | SeeClosed(w: nat, panics: bool)
    | SeeStop(w: nat, panics: bool)
    | Restart(w: nat)
    | StopInCooldown(w: nat)

  ghost predicate Init(v: State) {
    && v.channel == [] && !v.closed && !v.stopped && v.pushed == []
    && forall w :: 0 <= w < |v.members| ==> v.members[w] == Member(Active, [], [], [])
  }

  predicate Enabled(v: State, step: Step) {
    match step
    case Push(_) => !v.closed
    case Close => !v.closed
    case Stop => true
    case Take(w, _) => w < |v.members| && v.members[w].stage.Active? && v.channel != []
    case Tick(w, _) => w < |v.members| && v.members[w].stage.Active?
    case SeeClosed(w, _) => w < |v.members| && v.members[w].stage.Active? && v.closed && v.channel == []
    case SeeStop(w, _) => w < |v.members| && v.members[w].stage.Active? && v.stopped
    case Restart(w) => w < |v.members| && v.members[w].stage.Cooling?
    case StopInCooldown(w) => w < |v.members| && v.members[w].stage.Cooling? && v.stopped
  }

  /** One turn of the worker's loop; a panic loses the batch and counts against the restarts. */
  function Turn(batchSize: nat, m: Member, signal: Signal, panics: bool): Member {
    var l := OnSignal(batchSize, Loop(m.flushed, m.batch, Running), signal, panics);
    match l.status
    case Running => Member(Active, l.batch, l.flushed, m.abandoned)
    case CleanExit => Member(ExitedClean, l.batch, l.flushed, m.abandoned)
    case Panicked =>
      Member(if |m.abandoned| + 1 == MAX_RESTARTS then GaveUp else Cooling, [], l.flushed, m.abandoned + [l.batch])
  }

  function Apply(batchSize: nat, v: State, step: Step): State
    requires Enabled(v, step)
  {
    match step
    case Push(event) => v.(channel := v.channel + [event], pushed := v.pushed + [event])
    case Close => v.(closed := true)
    case Stop => v.(stopped := true)
    case Take(w, panics) =>
      v.(channel := v.channel[1..],
         members := v.members[w := Turn(batchSize, v.members[w], Received(v.channel[0]), panics)])
    case Tick(w, panics) =>
      v.(members := v.members[w := Turn(batchSize, v.members[w], Ticked, panics)])
    case SeeClosed(w, panics) =>
      v.(members := v.members[w := Turn(batchSize, v.members[w], ChannelClosed, panics)])
    case SeeStop(w, panics) =>
      v.(members := v.members[w := Turn(batchSize, v.members[w], Stopped, panics)])
    case Restart(w) =>
      v.(members := v.members[w := v.members[w].(stage := Active)])
    case StopInCooldown(w) =>
      v.(members := v.members[w := v.members[w].(stage := CutShort)])
  }

  ghost predicate CanRun(batchSize: nat, v: State, steps: seq<Step>)
    decreases |steps|
  {
    steps == [] || (Enabled(v, steps[0]) && CanRun(batchSize, Apply(batchSize, v, steps[0]), steps[1..]))
  }

  ghost function Run(batchSize: nat, v: State, steps: seq<Step>): State
    requires CanRun(batchSize, v, steps)
    decreases |steps|
  {
    if steps == [] then v else Run(batchSize, Apply(batchSize, v, steps[0]), steps[1..])
  }

  // ---- What the workers have had -----------------------------------------------------------------

  ghost function HadBy(m: Member): multiset<Event> {
    multiset(Flatten(m.flushed)) + multiset(Flatten(m.abandoned)) + multiset(m.batch)
  }

  ghost function Had(members: seq<Member>): multiset<Event> {
    if members == [] then multiset{} else Had(members[..|members| - 1]) + HadBy(members[|members| - 1])
  }

  lemma SwapOne(a: multiset<Event>, own: multiset<Event>, b: multiset<Event>, other: multiset<Event>, rest: multiset<Event>)
    requires a + own == b + other
    ensures a + rest + own == b + rest + other
  {
    assert a + rest + own == a + own + rest;
    assert b + rest + other == b + other + rest;
  }

  lemma {:induction false} HadUpdate(members: seq<Member>, w: nat, m: Member)
    requires w < |members|
    ensures Had(members[w := m]) + HadBy(members[w]) == Had(members) + HadBy(m)
  {
    hide HadBy;
    var n := |members| - 1;
    if w == n {
      assert members[w := m][..n] == members[..n];
    } else {
      HadUpdate(members[..n], w, m);
      assert members[w := m][..n] == members[..n][w := m];
      assert members[w := m][n] == members[n] && members[..n][w] == members[w];
      SwapOne(Had(members[..n][w := m]), HadBy(members[w]), Had(members[..n]), HadBy(m), HadBy(members[n]));
    }
  }

  lemma TurnKeepsEvents(batchSize: nat, m: Member, signal: Signal, panics: bool)
    ensures HadBy(Turn(batchSize, m, signal, panics))
      == HadBy(m) + (if signal.Received? then multiset{signal.event} else multiset{})
  {
    hide HadBy, Turn;
    var all := if signal.Received? then m.batch + [signal.event] else m.batch;
    WhereTheBatchIs(m, all);
    TurnShape(batchSize, m, signal, panics, all);
    assert multiset(all[|m.batch|..]) == if signal.Received? then multiset{signal.event} else multiset{};
  }

  lemma TurnShape(batchSize: nat, m: Member, signal: Signal, panics: bool, all: seq<Event>)
    requires all == if signal.Received? then m.batch + [signal.event] else m.batch
    ensures var m' := Turn(batchSize, m, signal, panics);
      || m' == Member(m'.stage, all, m.flushed, m.abandoned)
      || m' == Member(m'.stage, [], m.flushed + [all], m.abandoned)
      || m' == Member(m'.stage, [], m.flushed, m.abandoned + [all])
  {
  }

  /** A batch counts the same in hand, flushed or abandoned. */
  lemma WhereTheBatchIs(m: Member, all: seq<Event>)
    requires m.batch <= all
    ensures forall stage ::
      && HadBy(Member(stage, all, m.flushed, m.abandoned)) == HadBy(m) + multiset(all[|m.batch|..])
      && HadBy(Member(stage, [], m.flushed + [all], m.abandoned)) == HadBy(m) + multiset(all[|m.batch|..])
      && HadBy(Member(stage, [], m.flushed, m.abandoned + [all])) == HadBy(m) + multiset(all[|m.batch|..])
  {
    hide Flatten;
    assert all == m.batch + all[|m.batch|..];
    assert multiset(all) == multiset(m.batch) + multiset(all[|m.batch|..]);
    FlattenSnoc(m.flushed, all);
    FlattenSnoc(m.abandoned, all);
  }

  /** A turn that sees the channel closed or the pool stopped ends the loop, cleanly unless its last flush panics. */
  lemma EndOfLoop(batchSize: nat, m: Member, signal: Signal, panics: bool)
    requires signal.ChannelClosed? || signal.Stopped?
    ensures var m' := Turn(batchSize, m, signal, panics);
      && m'.batch == [] && !m'.stage.Active?
      && (m'.stage.ExitedClean? <==> m.batch == [] || !panics)
      && (m'.stage.ExitedClean? ==>
          m'.flushed == m.flushed + (if m.batch == [] then [] else [m.batch]) && m'.abandoned == m.abandoned)
      && (!m'.stage.ExitedClean? ==> m'.flushed == m.flushed && m'.abandoned == m.abandoned + [m.batch])
  {
    assert m.flushed + [] == m.flushed;
  }

  // ---- The invariant -----------------------------------------------------------------------------------

  predicate MemberOk(batchSize: nat, m: Member) {
    && SizesOk(batchSize, m.flushed) && SizesOk(batchSize, m.abandoned)
    && |m.batch| < batchSize
    && (!m.stage.Active? ==> m.batch == [])
    && |m.abandoned| <= MAX_RESTARTS
    && (m.stage.GaveUp? <==> |m.abandoned| == MAX_RESTARTS)
  }

  predicate MembersOk(batchSize: nat, v: State) {
    forall w :: 0 <= w < |v.members| ==> MemberOk(batchSize, v.members[w])
  }

  ghost predicate Conserved(v: State) {
    multiset(v.pushed) == multiset(v.channel) + Had(v.members)
  }

  /** Without a forced stop, a clean exit means that the channel was closed and empty. */
  predicate ExitsOk(v: State) {
    !v.stopped ==> forall w :: 0 <= w < |v.members| ==>
      && !v.members[w].stage.CutShort?
      && (v.members[w].stage.ExitedClean? ==> v.closed && v.channel == [])
  }

  ghost predicate Inv(batchSize: nat, v: State) {
    MembersOk(batchSize, v) && Conserved(v) && ExitsOk(v)
  }

  lemma {:induction false} FreshMembersHadNothing(members: seq<Member>)
    requires forall w :: 0 <= w < |members| ==> members[w] == Member(Active, [], [], [])
    ensures Had(members) == multiset{}
  {
    if members != [] {
      FreshMembersHadNothing(members[..|members| - 1]);
    }
  }

  lemma InitInv(batchSize: nat, v: State)
    requires batchSize > 0 && Init(v)
    ensures Inv(batchSize, v)
  {
    FreshMembersHadNothing(v.members);
  }

  lemma TurnOk(batchSize: nat, m: Member, signal: Signal, panics: bool)
    requires batchSize > 0 && MemberOk(batchSize, m) && m.stage.Active?
    ensures var m' := Turn(batchSize, m, signal, panics);
      && MemberOk(batchSize, m') && !m'.stage.CutShort?
      && (m'.stage.ExitedClean? ==> signal.ChannelClosed? || signal.Stopped?)
  {
  }

  lemma MemberConserved(v: State, w: nat, m: Member, got: multiset<Event>, channel: seq<Event>)
    requires Conserved(v) && w < |v.members| && HadBy(m) == HadBy(v.members[w]) + got
    requires multiset(v.channel) == got + multiset(channel)
    ensures Conserved(v.(channel := channel, members := v.members[w := m]))
  {
    hide Had, HadBy;
    HadUpdate(v.members, w, m);
    var had, had', own := Had(v.members), Had(v.members[w := m]), HadBy(v.members[w]);
    assert had' + own == had + got + own by {
      assert had + (own + got) == had + got + own;
    }
    assert had' == had' + own - own == had + got + own - own == had + got;
  }

  lemma TurnInv(batchSize: nat, v: State, w: nat, signal: Signal, panics: bool, channel: seq<Event>)
    requires batchSize > 0 && Inv(batchSize, v) && w < |v.members| && v.members[w].stage.Active?
    requires v.channel == (if signal.Received? then [signal.event] else []) + channel
    requires signal.ChannelClosed? ==> v.closed && channel == []
    requires signal.Stopped? ==> v.stopped
    ensures Inv(batchSize, v.(channel := channel, members := v.members[w := Turn(batchSize, v.members[w], signal, panics)]))
  {
    hide Turn, Had, HadBy, MemberOk, Conserved;
    TurnOk(batchSize, v.members[w], signal, panics);
    TurnKeepsEvents(batchSize, v.members[w], signal, panics);
    MemberConserved(v, w, Turn(batchSize, v.members[w], signal, panics),
      if signal.Received? then multiset{signal.event} else multiset{}, channel);
  }

  lemma StageInv(batchSize: nat, v: State, w: nat, stage: Stage)
    requires Inv(batchSize, v) && w < |v.members| && v.members[w].stage.Cooling?
    requires stage.Active? || (stage.CutShort? && v.stopped)
    ensures Inv(batchSize, v.(members := v.members[w := v.members[w].(stage := stage)]))
  {
    var m := v.members[w].(stage := stage);
    assert HadBy(m) == HadBy(v.members[w]) + multiset{};
    hide Had, HadBy, Conserved;
    MemberConserved(v, w, m, multiset{}, v.channel);
  }

  lemma StepInv(batchSize: nat, v: State, step: Step)
    requires batchSize > 0 && Inv(batchSize, v) && Enabled(v, step)
    ensures Inv(batchSize, Apply(batchSize, v, step))
    ensures |Apply(batchSize, v, step).members| == |v.members|
  {
    hide Turn, Inv;
    match step
    case Take(w, panics) =>
      assert v.channel == [v.channel[0]] + v.channel[1..];
      TurnInv(batchSize, v, w, Received(v.channel[0]), panics, v.channel[1..]);
    case Tick(w, panics) => TurnInv(batchSize, v, w, Ticked, panics, v.channel);
    case SeeClosed(w, panics) => TurnInv(batchSize, v, w, ChannelClosed, panics, v.channel);
    case SeeStop(w, panics) => TurnInv(batchSize, v, w, Stopped, panics, v.channel);
    case Restart(w) => StageInv(batchSize, v, w, Active);
    case StopInCooldown(w) => StageInv(batchSize, v, w, CutShort);
    case _ => OutsideInv(batchSize, v, step);
  }

  lemma OutsideInv(batchSize: nat, v: State, step: Step)
    requires Inv(batchSize, v) && Enabled(v, step) && (step.Push? || step.Close? || step.Stop?)
    ensures Inv(batchSize, Apply(batchSize, v, step))
  {
    hide Had, MemberOk;
  }

  lemma {:induction false} RunInv(batchSize: nat, v: State, steps: seq<Step>)
    requires batchSize > 0 && Inv(batchSize, v) && CanRun(batchSize, v, steps)
    ensures Inv(batchSize, Run(batchSize, v, steps)) && |Run(batchSize, v, steps).members| == |v.members|
    decreases |steps|
  {
    if steps != [] {
      hide Inv, Apply, Enabled;
      StepInv(batchSize, v, steps[0]);
      RunInv(batchSize, Apply(batchSize, v, steps[0]), steps[1..]);
    }
  }

  // ---- Results -------------------------------------------------------------------------------------------

  /** All batches of one kind over all members. */
  function AllFlushed(members: seq<Member>): seq<Event> {
    if members == [] then [] else AllFlushed(members[..|members| - 1]) + Flatten(members[|members| - 1].flushed)
  }

  function AllAbandoned(members: seq<Member>): seq<Event> {
    if members == [] then [] else AllAbandoned(members[..|members| - 1]) + Flatten(members[|members| - 1].abandoned)
  }

  predicate AllExited(v: State) {
    forall w :: 0 <= w < |v.members| ==> !v.members[w].stage.Active? && !v.members[w].stage.Cooling?
  }

  lemma {:induction false} FlattenBound(batchSize: nat, batches: seq<seq<Event>>)
    requires SizesOk(batchSize, batches)
    ensures |Flatten(batches)| <= |batches| * batchSize
  {
    if batches != [] {
      FlattenBound(batchSize, batches[..|batches| - 1]);
      assert |batches| * batchSize == (|batches| - 1) * batchSize + batchSize;
    }
  }

  lemma {:induction false} AbandonedBound(each: nat, members: seq<Member>)
    requires forall w :: 0 <= w < |members| ==> |Flatten(members[w].abandoned)| <= each
    ensures |AllAbandoned(members)| <= |members| * each
  {
    if members != [] {
      AbandonedBound(each, members[..|members| - 1]);
      assert |members| * each == (|members| - 1) * each + each;
    }
  }

  lemma MemberBound(batchSize: nat, m: Member)
    requires MemberOk(batchSize, m)
    ensures |Flatten(m.abandoned)| <= MAX_RESTARTS * batchSize
  {
    FlattenBound(batchSize, m.abandoned);
    assert |m.abandoned| * batchSize <= MAX_RESTARTS * batchSize;
  }

  lemma {:induction false} HadWhenIdle(members: seq<Member>)
    requires forall w :: 0 <= w < |members| ==> members[w].batch == []
    ensures Had(members) == multiset(AllFlushed(members)) + multiset(AllAbandoned(members))
  {
    if members != [] {
      HadWhenIdle(members[..|members| - 1]);
    }
  }

  /**
   * The panic bound, in every reachable state: panics lose at most NumWorkers * maxRestarts * BatchSize
   * events, and whatever was pushed is in the channel, flushed, lost that way or in a batch in hand.
   */
  lemma PanicBound(batchSize: nat, init: State, steps: seq<Step>)
    requires batchSize > 0 && Init(init) && CanRun(batchSize, init, steps)
    ensures var v := Run(batchSize, init, steps);
      && |AllAbandoned(v.members)| <= |init.members| * (5 * batchSize)
      && multiset(v.pushed) == multiset(v.channel) + Had(v.members)
  {
    InitInv(batchSize, init);
    RunInv(batchSize, init, steps);
    var members := Run(batchSize, init, steps).members;
    forall w | 0 <= w < |members| ensures |Flatten(members[w].abandoned)| <= MAX_RESTARTS * batchSize {
      MemberBound(batchSize, members[w]);
    }
    AbandonedBound(MAX_RESTARTS * batchSize, members);
  }

  /**
   * Graceful drain. Without a forced stop, once all workers have exited and at least one did so
   * cleanly, the channel is empty and every event is in exactly one flushed batch or in one batch lost
   * to a panic. An event can be left in the channel only if every worker gave up after its last panic.
   */
  lemma GracefulDrain(batchSize: nat, init: State, steps: seq<Step>)
    requires batchSize > 0 && Init(init) && CanRun(batchSize, init, steps)
    requires !Run(batchSize, init, steps).stopped && AllExited(Run(batchSize, init, steps))
    ensures var v := Run(batchSize, init, steps);
      && multiset(v.pushed) == multiset(v.channel) + multiset(AllFlushed(v.members)) + multiset(AllAbandoned(v.members))
      && ((exists w :: 0 <= w < |v.members| && v.members[w].stage.ExitedClean?) ==> v.closed && v.channel == [])
      && (v.channel != [] ==> forall w :: 0 <= w < |v.members| ==>
          v.members[w].stage.GaveUp? && |v.members[w].abandoned| == MAX_RESTARTS)
  {
    InitInv(batchSize, init);
    RunInv(batchSize, init, steps);
    hide CanRun, Run, Init, Inv;
    Drained(batchSize, Run(batchSize, init, steps));
  }

  lemma Drained(batchSize: nat, v: State)
    requires Inv(batchSize, v) && !v.stopped && AllExited(v)
    ensures multiset(v.pushed) == multiset(v.channel) + multiset(AllFlushed(v.members)) + multiset(AllAbandoned(v.members))
    ensures (exists w :: 0 <= w < |v.members| && v.members[w].stage.ExitedClean?) ==> v.closed && v.channel == []
    ensures v.channel != [] ==> forall w :: 0 <= w < |v.members| ==>
      v.members[w].stage.GaveUp? && |v.members[w].abandoned| == MAX_RESTARTS
  {
    hide Had, HadBy, AllFlushed, AllAbandoned, SizesOk;
    HadWhenIdle(v.members);
  }
}
