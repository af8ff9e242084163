/** One worker: the select loop that batches events, and its restarts after a panic. */
module WorkerLoop {
  import opened Events

  /** What the select delivers. */
  datatype Signal = Received(event: Event) | ChannelClosed | Stopped | Ticked

  datatype Status = Running | CleanExit | Panicked

  /** `batch` is the batch in hand; after a panic it is the batch that was lost with it. */
  datatype Loop = Loop(flushed: seq<seq<Event>>, batch: seq<Event>, status: Status)

  const START: Loop := Loop([], [], Running)

  /** Hands the batch to flush, which may panic. */
  function FlushBatch(l: Loop, panics: bool): Loop {
    if panics then l.(status := Panicked) else Loop(l.flushed + [l.batch], [], l.status)
  }

  /** One turn of the loop. */
  function OnSignal(batchSize: nat, l: Loop, signal: Signal, panics: bool): Loop {
    match signal
    case Received(event) =>
      var grown := l.(batch := l.batch + [event]);
      if |grown.batch| >= batchSize then FlushBatch(grown, panics) else grown
    case Ticked =>
      if |l.batch| > 0 then FlushBatch(l, panics) else l
    case _ =>
      var last := if |l.batch| > 0 then FlushBatch(l, panics) else l;
      if last.status == Panicked then last else last.(status := CleanExit)
  }

  /** The loop after a sequence of signals; `panics(k)` says whether a flush at signal k panics. */
  function Loops(batchSize: nat, signals: seq<Signal>, panics: nat -> bool): Loop {
    if signals == [] then START else
      var n := |signals| - 1;
      var before := Loops(batchSize, signals[..n], panics);
      if before.status == Running then OnSignal(batchSize, before, signals[n], panics(n)) else before
  }

  /** The loop as it is written; it stops taking signals when it exits. */
  method RunWorker(batchSize: nat, signals: seq<Signal>, panics: nat -> bool) returns (l: Loop, used: nat)
    requires batchSize > 0
    ensures used <= |signals|
    ensures l == Loops(batchSize, signals[..used], panics)
    ensures l == Loops(batchSize, signals, panics)
    ensures l.status == Running ==> used == |signals|
    ensures forall k :: 0 <= k < used ==> Loops(batchSize, signals[..k], panics).status == Running
    ensures forall k :: 0 <= k < |signals| && (signals[k].ChannelClosed? || signals[k].Stopped?) ==>
      l.status != Running && used <= k + 1
  {
    var flushed, batch := [], [];
    used := 0;
    while used < |signals|
      invariant used <= |signals|
      invariant Loop(flushed, batch, Running) == Loops(batchSize, signals[..used], panics)
      invariant forall k :: 0 <= k < used ==> Loops(batchSize, signals[..k], panics).status == Running
      invariant forall k :: 0 <= k < used ==> signals[k].Received? || signals[k].Ticked?
    {
      assert signals[..used + 1][..used] == signals[..used];
      used := used + 1;
      match signals[used - 1] {
        case Received(event) =>
          batch := batch + [event];
          if |batch| >= batchSize {
            if panics(used - 1) {
              l := Loop(flushed, batch, Panicked);
              ExitIsFinal(batchSize, signals, panics, used);
              return;
            }
            flushed := flushed + [batch];
            batch := [];
          }
        case Ticked =>
          if |batch| > 0 {
            if panics(used - 1) {
              l := Loop(flushed, batch, Panicked);
              ExitIsFinal(batchSize, signals, panics, used);
              return;
            }
            flushed := flushed + [batch];
            batch := [];
          }
        case _ =>
          if |batch| > 0 {
            if panics(used - 1) {
              l := Loop(flushed, batch, Panicked);
              ExitIsFinal(batchSize, signals, panics, used);
              return;
            }
            flushed := flushed + [batch];
            batch := [];
          }
          l := Loop(flushed, batch, CleanExit);
          ExitIsFinal(batchSize, signals, panics, used);
          return;
      }
    }
    assert signals[..used] == signals;
    l := Loop(flushed, batch, Running);
  }

  lemma {:induction false} ExitIsFinal(batchSize: nat, signals: seq<Signal>, panics: nat -> bool, n: nat)
    requires n <= |signals| && Loops(batchSize, signals[..n], panics).status != Running
    ensures Loops(batchSize, signals, panics) == Loops(batchSize, signals[..n], panics)
  {
    if n == |signals| {
      assert signals[..n] == signals;
    } else {
      var front := signals[..|signals| - 1];
      assert front[..n] == signals[..n];
      ExitIsFinal(batchSize, front, panics, n);
    }
  }

  // ---- Partition ----------------------------------------------------------------------------------

  function Flatten(batches: seq<seq<Event>>): seq<Event> {
    if batches == [] then [] else Flatten(batches[..|batches| - 1]) + batches[|batches| - 1]
  }

  lemma FlattenSnoc(batches: seq<seq<Event>>, batch: seq<Event>)
    ensures Flatten(batches + [batch]) == Flatten(batches) + batch
  {
    assert (batches + [batch])[..|batches + [batch]| - 1] == batches;
  }

  /** The events that the loop took from the channel. */
  function Taken(signals: seq<Signal>): seq<Event> {
    if signals == [] then [] else
      var front := Taken(signals[..|signals| - 1]);
      if signals[|signals| - 1].Received? then front + [signals[|signals| - 1].event] else front
  }

  predicate SizesOk(batchSize: nat, batches: seq<seq<Event>>) {
    forall i :: 0 <= i < |batches| ==> 1 <= |batches[i]| <= batchSize
  }

  /** A batch in hand is never full while the loop runs, is gone after a clean exit, and is lost in a panic. */
  predicate BatchOk(batchSize: nat, l: Loop) {
    match l.status
    case Running => |l.batch| < batchSize
    case CleanExit => l.batch == []
    case Panicked => 1 <= |l.batch| <= batchSize
  }

  /** One turn neither loses nor reorders events. A full batch is flushed at once, a tick empties the batch. */
  lemma SignalPartition(batchSize: nat, l: Loop, signal: Signal, panics: bool)
    requires batchSize > 0 && l.status == Running && SizesOk(batchSize, l.flushed) && BatchOk(batchSize, l)
    ensures var l' := OnSignal(batchSize, l, signal, panics);
      && SizesOk(batchSize, l'.flushed) && BatchOk(batchSize, l')
      && Flatten(l'.flushed) + l'.batch
        == Flatten(l.flushed) + l.batch + (if signal.Received? then [signal.event] else [])
      && l.flushed <= l'.flushed
      && (signal.Received? ==> forall i :: |l.flushed| <= i < |l'.flushed| ==> |l'.flushed[i]| == batchSize)
      && (signal.Received? && l'.flushed == l.flushed && l'.status == Running ==> l'.batch == l.batch + [signal.event])
      && (signal.Ticked? && l'.status == Running ==> l'.batch == [])
      && (signal.Ticked? && l.batch == [] ==> l' == l)
      && (signal.Ticked? ==> l'.status == if l.batch != [] && panics then Panicked else Running)
      && (signal.Received? ==> l'.status == if |l.batch| + 1 == batchSize && panics then Panicked else Running)
      && (signal.ChannelClosed? || signal.Stopped? ==>
          l'.status == if l.batch != [] && panics then Panicked else CleanExit)
  {
    hide OnSignal, Flatten, BatchOk;
    var more := if signal.Received? then [signal.event] else [];
    var all := l.batch + more;
    SignalShape(batchSize, l, signal, panics, all);
    FlattenSnoc(l.flushed, all);
    ConcatBatches(Flatten(l.flushed), l.batch, more);
  }

  lemma ConcatBatches(a: seq<Event>, b: seq<Event>, c: seq<Event>)
    ensures a + b + c == a + (b + c)
    ensures a + (b + c) + [] == a + (b + c)
  {
  }

  /** After one turn the batch, with what was received, is in hand or the last one flushed. */
  lemma SignalShape(batchSize: nat, l: Loop, signal: Signal, panics: bool, all: seq<Event>)
    requires batchSize > 0 && l.status == Running && BatchOk(batchSize, l)
    requires all == l.batch + (if signal.Received? then [signal.event] else [])
    ensures var l' := OnSignal(batchSize, l, signal, panics);
      && BatchOk(batchSize, l')
      && ( || (l'.flushed == l.flushed && l'.batch == all)
           || (l'.flushed == l.flushed + [all] && l'.batch == [] && 1 <= |all| <= batchSize
               && (signal.Received? ==> |all| == batchSize)))
      && (signal.Ticked? && l'.status == Running ==> l'.batch == [])
      && (signal.Ticked? && l.batch == [] ==> l' == l)
      && (signal.Ticked? ==> l'.status == if l.batch != [] && panics then Panicked else Running)
      && (signal.Received? ==> l'.status == if |l.batch| + 1 == batchSize && panics then Panicked else Running)
      && (signal.ChannelClosed? || signal.Stopped? ==>
          l'.status == if l.batch != [] && panics then Panicked else CleanExit)
  {
    assert l.batch + [] == l.batch;
  }

  /**
   * Partition, for every sequence of select choices. Up to the signal at which the loop exits, the
   * events taken are the flushed batches, in order, followed by the batch in hand; every flushed batch
   * has between 1 and BatchSize events, and a clean exit leaves no batch.
   */
  lemma {:induction false} WorkerPartition(batchSize: nat, signals: seq<Signal>, panics: nat -> bool)
    requires batchSize > 0
    requires forall k :: 0 <= k < |signals| ==> Loops(batchSize, signals[..k], panics).status == Running
    ensures var l := Loops(batchSize, signals, panics);
      && Taken(signals) == Flatten(l.flushed) + l.batch
      && SizesOk(batchSize, l.flushed) && BatchOk(batchSize, l)
  {
    if signals != [] {
      var n := |signals| - 1;
      var front := signals[..n];
      assert forall k :: 0 <= k < n ==> front[..k] == signals[..k];
      WorkerPartition(batchSize, front, panics);
      SignalPartition(batchSize, Loops(batchSize, front, panics), signals[n], panics(n));
      if !signals[n].Received? {
        var l := Loops(batchSize, front, panics);
        assert Flatten(l.flushed) + l.batch + [] == Flatten(l.flushed) + l.batch;
      }
    }
  }

  // ---- Restarts -------------------------------------------------------------------------------------

  const MAX_RESTARTS: nat := 5

  /**
   * Runs the worker until it exits cleanly, has panicked too often, or is stopped during a cooldown.
   * `clean(k)` is how attempt k ends; `stopped(k)` whether the context ends in the cooldown after it.
   */
  method RunWorkerWithRestart(clean: nat -> bool, stopped: nat -> bool) returns (panicCount: nat, exitedClean: bool)
    ensures panicCount <= MAX_RESTARTS
    ensures (forall k :: 0 <= k < 5 ==> !clean(k) && !stopped(k)) ==> panicCount == 5 && !exitedClean
    ensures forall k :: 0 <= k < panicCount ==> !clean(k)
    ensures forall k :: 0 <= k < panicCount - 1 ==> !stopped(k)
    ensures exitedClean ==>
      panicCount < MAX_RESTARTS && clean(panicCount) && (panicCount > 0 ==> !stopped(panicCount - 1))
    ensures !exitedClean ==> 0 < panicCount && (panicCount == MAX_RESTARTS || stopped(panicCount - 1))
  {
    panicCount := 0;
    for attempt := 0 to MAX_RESTARTS
      invariant panicCount == attempt
      invariant forall k :: 0 <= k < attempt ==> !clean(k) && !stopped(k)
    {
      if clean(attempt) {
        return panicCount, true;
      }
      panicCount := panicCount + 1;
      var remaining := MAX_RESTARTS - attempt - 1;
      if remaining == 0 {
        return panicCount, false;
      }
      if stopped(attempt) {
        return panicCount, false;
      }
    }
    exitedClean := false;
  }
}
