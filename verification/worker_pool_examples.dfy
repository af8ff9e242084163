/** Runs of the pool: a shutdown that loses nothing, and panics that lose as much as they can. */
module WorkerPoolExamples {
  import opened Events
  import opened WorkerLoop
  import opened WorkerPool

  lemma {:induction false} ExtendRun(batchSize: nat, v: State, steps: seq<Step>, step: Step)
    requires CanRun(batchSize, v, steps) && Enabled(Run(batchSize, v, steps), step)
    ensures CanRun(batchSize, v, steps + [step])
    ensures Run(batchSize, v, steps + [step]) == Apply(batchSize, Run(batchSize, v, steps), step)
    decreases |steps|
  {
    hide Apply, Enabled;
    if steps == [] {
      assert [] + [step] == [step] && [step][1..] == [];
    } else {
      ExtendRun(batchSize, Apply(batchSize, v, steps[0]), steps[1..], step);
      assert (steps + [step])[1..] == steps[1..] + [step] && (steps + [step])[0] == steps[0];
    }
  }

  lemma Extend(batchSize: nat, init: State, steps: seq<Step>, v: State, step: Step) returns (steps': seq<Step>, v': State)
    requires CanRun(batchSize, init, steps) && v == Run(batchSize, init, steps) && Enabled(v, step)
    ensures CanRun(batchSize, init, steps') && v' == Run(batchSize, init, steps') == Apply(batchSize, v, step)
  {
    ExtendRun(batchSize, init, steps, step);
    steps', v' := steps + [step], Apply(batchSize, v, step);
  }

  const ONE_WORKER: State := State([], false, false, [Member(Active, [], [], [])], [])

  lemma NoSteps(batchSize: nat, v: State)
    ensures CanRun(batchSize, v, []) && Run(batchSize, v, []) == v
  {
  }

  lemma {:induction false} PushAll(batchSize: nat, init: State, before: seq<Step>, v: State, events: seq<Event>)
    returns (steps: seq<Step>, u: State)
    requires CanRun(batchSize, init, before) && v == Run(batchSize, init, before) && !v.closed
    ensures CanRun(batchSize, init, steps) && u == Run(batchSize, init, steps)
    ensures u == v.(channel := v.channel + events, pushed := v.pushed + events)
  {
    hide CanRun, Run;
    if events == [] {
      steps, u := before, v;
      assert v.channel + events == v.channel && v.pushed + events == v.pushed;
    } else {
      var n := |events| - 1;
      steps, u := PushAll(batchSize, init, before, v, events[..n]);
      steps, u := Extend(batchSize, init, steps, u, Push(events[n]));
      assert events == events[..n] + [events[n]];
    }
  }

  // ---- Shutdown ----------------------------------------------------------------------------------------

  /** The worker takes `k` events off the closed channel, without a panic. */
  lemma {:induction false} TakeAll(batchSize: nat, before: seq<Step>, v: State, k: nat) returns (steps: seq<Step>, u: State)
    requires batchSize > 0 && k <= |v.channel| && v.members == ONE_WORKER.members
    requires CanRun(batchSize, ONE_WORKER, before) && v == Run(batchSize, ONE_WORKER, before)
    ensures CanRun(batchSize, ONE_WORKER, steps) && u == Run(batchSize, ONE_WORKER, steps)
    ensures |u.members| == 1 && u == v.(channel := v.channel[k..], members := u.members)
    ensures var m := u.members[0];
      && m.stage.Active? && m.abandoned == [] && |m.batch| < batchSize && SizesOk(batchSize, m.flushed)
      && Flatten(m.flushed) + m.batch == v.channel[..k]
  {
    hide CanRun, Run, Flatten;
    if k == 0 {
      steps, u := before, v;
      assert Flatten([]) == [] by { EmptyFlatten(); }
    } else {
      steps, u := TakeAll(batchSize, before, v, k - 1);
      var m, signal := u.members[0], Received(u.channel[0]);
      hide OnSignal;
      SignalPartition(batchSize, Loop(m.flushed, m.batch, Running), signal, false);
      steps, u := Extend(batchSize, ONE_WORKER, steps, u, Take(0, false));
      assert v.channel[..k] == v.channel[..k - 1] + [v.channel[k - 1]];
    }
  }

  lemma EmptyFlatten()
    ensures Flatten([]) == []
  {
  }

  /** A shutdown as it should be: whatever was pushed, one worker flushes all of it in order and exits cleanly. */
  lemma ShutdownFlushesAll(batchSize: nat, events: seq<Event>) returns (steps: seq<Step>)
    requires batchSize > 0
    ensures Init(ONE_WORKER) && CanRun(batchSize, ONE_WORKER, steps)
    ensures var v := Run(batchSize, ONE_WORKER, steps);
      && AllExited(v) && !v.stopped && v.closed && v.pushed == events && v.channel == []
      && |v.members| == 1 && v.members[0].stage.ExitedClean?
      && Flatten(v.members[0].flushed) == events && v.members[0].abandoned == []
  {
    hide CanRun, Run, Flatten;
    NoSteps(batchSize, ONE_WORKER);
    var u;
    steps, u := PushAll(batchSize, ONE_WORKER, [], ONE_WORKER, events);
    assert [] + events == events;
    steps, u := Extend(batchSize, ONE_WORKER, steps, u, Close);
    steps, u := TakeAll(batchSize, steps, u, |events|);
    assert events[..|events|] == events && events[|events|..] == [];
    var m := u.members[0];
    SignalPartition(batchSize, Loop(m.flushed, m.batch, Running), ChannelClosed, false);
    hide OnSignal;
    assert Flatten(m.flushed) + m.batch + [] == Flatten(m.flushed) + m.batch;
    steps, u := Extend(batchSize, ONE_WORKER, steps, u, SeeClosed(0, false));
    assert Flatten(u.members[0].flushed) + [] == Flatten(u.members[0].flushed);
  }

  /** A tick can flush what an active worker has in hand, and only that. */
  lemma TickFlushes(batchSize: nat, v: State, w: nat) returns (steps: seq<Step>)
    requires w < |v.members| && v.members[w].stage.Active? && v.members[w].batch != []
    ensures CanRun(batchSize, v, steps)
    ensures Run(batchSize, v, steps)
      == v.(members := v.members[w := Member(Active, [], v.members[w].flushed + [v.members[w].batch], v.members[w].abandoned)])
  {
    hide CanRun, Run;
    NoSteps(batchSize, v);
    var u;
    steps, u := Extend(batchSize, v, [], v, Tick(w, false));
  }

  /** A stop ends every worker that is still there, at the select or in a cooldown, without taking anything. */
  lemma StopEnds(batchSize: nat, v: State, w: nat) returns (steps: seq<Step>)
    requires w < |v.members| && (v.members[w].stage.Active? || v.members[w].stage.Cooling?)
    ensures CanRun(batchSize, v, steps)
    ensures var u := Run(batchSize, v, steps);
      && u.stopped && u.channel == v.channel && |u.members| == |v.members|
      && u.members[w].stage == (if v.members[w].stage.Active? then ExitedClean else CutShort)
      && u.members[w].batch == (if v.members[w].stage.Active? then [] else v.members[w].batch)
      && u.members[w].abandoned == v.members[w].abandoned
  {
    hide CanRun, Run;
    NoSteps(batchSize, v);
    var u;
    steps, u := Extend(batchSize, v, [], v, Stop);
    if v.members[w].stage.Active? {
      EndOfLoop(batchSize, v.members[w], Stopped, false);
      steps, u := Extend(batchSize, v, steps, u, SeeStop(w, false));
    } else {
      steps, u := Extend(batchSize, v, steps, u, StopInCooldown(w));
    }
  }

  // ---- Panics -----------------------------------------------------------------------------------------------

  function Copies(event: Event, n: nat): seq<Event> {
    seq(n, _ => event)
  }

  /** The worker fills its batch up to `k` events. */
  lemma {:induction false} Fill(batchSize: nat, before: seq<Step>, v: State, event: Event, k: nat) returns (steps: seq<Step>, u: State)
    requires CanRun(batchSize, ONE_WORKER, before) && v == Run(batchSize, ONE_WORKER, before)
    requires k < batchSize && v.channel == Copies(event, batchSize)
    requires |v.members| == 1 && v.members[0].stage.Active? && v.members[0].batch == []
    ensures CanRun(batchSize, ONE_WORKER, steps) && u == Run(batchSize, ONE_WORKER, steps)
    ensures u == v.(channel := Copies(event, batchSize - k), members := [v.members[0].(batch := Copies(event, k))])
  {
    hide CanRun, Run;
    if k == 0 {
      steps, u := before, v;
      assert v.members == [v.members[0]];
    } else {
      steps, u := Fill(batchSize, before, v, event, k - 1);
      assert u.channel[1..] == Copies(event, batchSize - k);
      assert Copies(event, k - 1) + [event] == Copies(event, k);
      steps, u := Extend(batchSize, ONE_WORKER, steps, u, Take(0, false));
    }
  }

  /** A full batch is lost in a panic. */
  lemma OnePanic(batchSize: nat, before: seq<Step>, v: State, event: Event) returns (steps: seq<Step>, u: State)
    requires batchSize > 0 && CanRun(batchSize, ONE_WORKER, before) && v == Run(batchSize, ONE_WORKER, before)
    requires v.channel == [] && !v.closed && |v.members| == 1 && v.members[0].stage.Active? && v.members[0].batch == []
    ensures CanRun(batchSize, ONE_WORKER, steps) && u == Run(batchSize, ONE_WORKER, steps)
    ensures u.channel == [] && !u.closed && |u.members| == 1
    ensures u.members[0] == v.members[0].(
      stage := if |v.members[0].abandoned| == 4 then GaveUp else Cooling,
      abandoned := v.members[0].abandoned + [Copies(event, batchSize)])
  {
    hide CanRun, Run;
    steps, u := PushAll(batchSize, ONE_WORKER, before, v, Copies(event, batchSize));
    assert [] + Copies(event, batchSize) == Copies(event, batchSize);
    steps, u := Fill(batchSize, steps, u, event, batchSize - 1);
    assert Copies(event, batchSize - 1) + [event] == Copies(event, batchSize);
    steps, u := Extend(batchSize, ONE_WORKER, steps, u, Take(0, true));
  }

  lemma {:induction false} Panics(batchSize: nat, event: Event, k: nat) returns (steps: seq<Step>, u: State)
    requires batchSize > 0 && 1 <= k <= 5
    ensures CanRun(batchSize, ONE_WORKER, steps) && u == Run(batchSize, ONE_WORKER, steps)
    ensures u.channel == [] && !u.closed && |u.members| == 1
    ensures u.members[0] == Member(if k == 5 then GaveUp else Cooling, [], [], seq(k, _ => Copies(event, batchSize)))
  {
    hide CanRun, Run, Copies;
    NoSteps(batchSize, ONE_WORKER);
    if k == 1 {
      steps, u := OnePanic(batchSize, [], ONE_WORKER, event);
    } else {
      steps, u := Panics(batchSize, event, k - 1);
      steps, u := Extend(batchSize, ONE_WORKER, steps, u, Restart(0));
      steps, u := OnePanic(batchSize, steps, u, event);
    }
  }

  lemma {:induction false} FlattenSame(batch: seq<Event>, k: nat)
    ensures |Flatten(seq(k, _ => batch))| == k * |batch|
  {
    if k > 0 {
      FlattenSame(batch, k - 1);
      assert seq(k, _ => batch)[..k - 1] == seq(k - 1, _ => batch);
    }
  }

  /** The bound on what panics can lose is reached: a worker that always panics loses five full batches and gives up. */
  lemma PanicBoundReached(batchSize: nat, event: Event) returns (steps: seq<Step>)
    requires batchSize > 0
    ensures Init(ONE_WORKER) && CanRun(batchSize, ONE_WORKER, steps)
    ensures var v := Run(batchSize, ONE_WORKER, steps);
      |AllAbandoned(v.members)| == 5 * batchSize && AllExited(v)
  {
    hide CanRun, Run;
    var u;
    steps, u := Panics(batchSize, event, 5);
    FlattenSame(Copies(event, batchSize), 5);
    assert u.members[..0] == [];
    assert AllAbandoned(u.members[..0]) == [];
  }
}
