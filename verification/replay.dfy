/** Replaying the log at start-up: every recovered event goes through Push once more. */
module Replay {
  import opened Options
  import opened BigEndian
  import opened Events
  import opened WalFormat
  import opened WalSpec
  import opened FileWal
  import opened Tracker
  import opened Channels
  import opened Registries
  import opened Services

  function EventsIn(es: seq<Entry>): (events: seq<Event>)
    ensures |events| == |es|
    ensures forall i :: 0 <= i < |es| ==> events[i] == es[i].event
  {
    seq(|es|, i requires 0 <= i < |es| => es[i].event)
  }

  /** What a restarted process would recover, as events in log order. */
  function Recoverable(codec: Codec, w: Wal): seq<Event> {
    EventsIn(Entries(codec, w.acked, w.log))
  }

  ghost predicate AllMarshal(codec: Codec, events: seq<Event>) {
    forall i :: 0 <= i < |events| ==> codec.marshal(events[i]).Some?
  }

  /** What became of one replayed event: refused before the log, lost in a failed write, or logged again. */
  datatype Fate = Refused | WriteLost | Logged

  function AllLogged(n: nat): seq<Fate> {
    seq(n, _ => Logged)
  }

  function WithFate(codec: Codec, w: Wal, event: Event, fate: Fate): Wal {
    match fate
    case Refused => w
    case WriteLost => Apply(w, FailedAppendOp)
    case Logged => if codec.marshal(event).Some? then Apply(w, AppendOp(codec.marshal(event).value)) else w
  }

  /** The log after the events went through Push one by one. */
  function Replayed(codec: Codec, w: Wal, events: seq<Event>, fates: seq<Fate>): Wal
    requires |fates| == |events|
  {
    if events == [] then w else
      var n := |events| - 1;
      WithFate(codec, Replayed(codec, w, events[..n], fates[..n]), events[n], fates[n])
  }

  /** The events that were logged again. */
  function Copies(codec: Codec, events: seq<Event>, fates: seq<Fate>): seq<Event>
    requires |fates| == |events|
  {
    if events == [] then [] else
      var n := |events| - 1;
      var front := Copies(codec, events[..n], fates[..n]);
      if fates[n].Logged? && codec.marshal(events[n]).Some? then front + [events[n]] else front
  }

  lemma {:induction false} AllCopied(codec: Codec, events: seq<Event>)
    requires AllMarshal(codec, events)
    ensures Copies(codec, events, AllLogged(|events|)) == events
  {
    if events != [] {
      var n := |events| - 1;
      AllCopied(codec, events[..n]);
      assert AllLogged(|events|)[..n] == AllLogged(n);
    }
  }

  /**
   * Replaying loses nothing, whatever becomes of each event: the log keeps every record, recovery still
   * returns all that it returned before, and after that one new copy of each event that was logged.
   */
  lemma {:induction false} ReplayedRecovers(codec: Codec, w: Wal, events: seq<Event>, fates: seq<Fate>)
    requires codec.Sound() && Fresh(w) && |fates| == |events| && w.seqNo + |events| < U64
    ensures var w' := Replayed(codec, w, events, fates);
      && Fresh(w') && w'.acked == w.acked && w.log <= w'.log
      && w.seqNo <= w'.seqNo <= w.seqNo + |events|
      && Recoverable(codec, w') == Recoverable(codec, w) + Copies(codec, events, fates)
  {
    hide Recoverable, Fresh, WithFate;
    if events == [] {
      assert Recoverable(codec, w) + [] == Recoverable(codec, w);
    } else {
      var n := |events| - 1;
      ReplayedRecovers(codec, w, events[..n], fates[..n]);
      var before, copies := Replayed(codec, w, events[..n], fates[..n]), Copies(codec, events[..n], fates[..n]);
      FateRecovers(codec, before, events[n], fates[n]);
      assert Recoverable(codec, w) + copies + [events[n]] == Recoverable(codec, w) + (copies + [events[n]]);
    }
  }

  lemma FateRecovers(codec: Codec, w: Wal, event: Event, fate: Fate)
    requires codec.Sound() && Fresh(w) && w.seqNo + 1 < U64
    ensures var w' := WithFate(codec, w, event, fate);
      && Fresh(w') && w'.acked == w.acked && w.log <= w'.log && w.seqNo <= w'.seqNo <= w.seqNo + 1
      && Recoverable(codec, w') == Recoverable(codec, w)
        + (if fate.Logged? && codec.marshal(event).Some? then [event] else [])
  {
    if fate.Logged? && codec.marshal(event).Some? {
      AppendRecovers(codec, w, event);
    } else {
      assert Recoverable(codec, w) + [] == Recoverable(codec, w);
    }
  }

  lemma AppendRecovers(codec: Codec, w: Wal, event: Event)
    requires codec.Sound() && Fresh(w) && codec.marshal(event).Some? && w.seqNo + 1 < U64
    ensures var w' := Apply(w, AppendOp(codec.marshal(event).value));
      && Fresh(w') && w'.acked == w.acked && w'.seqNo == w.seqNo + 1 && w.log <= w'.log
      && Recoverable(codec, w') == Recoverable(codec, w) + [event]
  {
    var op := AppendOp(codec.marshal(event).value);
    ApplyKeepsFresh(w, op);
    NextNumberIsFresh(w, []);
    var w' := Apply(w, op);
    assert w'.log[..|w'.log| - 1] == w.log;
    assert codec.unmarshal(w'.log[|w.log|].payload) == Some(event);
  }

  // ---- The loop -------------------------------------------------------------------------------------

  function CallsOf(events: seq<Event>, now: nat -> real): (calls: seq<Call>)
    ensures |calls| == |events|
  {
    seq(|events|, i requires 0 <= i < |events| => Call(events[i].tenantId, now(i)))
  }

  /**
   * What becomes of each event: it is refused if its tenant's bucket denies it, after all calls before it,
   * or if it cannot be marshalled, and lost if the write fails. `io(i)` is what the file system answers to
   * the i-th append.
   */
  function Fates(codec: Codec, l: Limits, events: seq<Event>, now: nat -> real, io: nat -> IoOutcome): (fates: seq<Fate>)
    ensures |fates| == |events|
  {
    var ds := CallDecisions(l, CallsOf(events, now));
    seq(|events|, i requires 0 <= i < |events| =>
      if !ds[i] || codec.marshal(events[i]).None? then Refused else if io(i).IoWriteFailed? then WriteLost else Logged)
  }

  /** The service after the events went through Push, in order. */
  function PushedAll(codec: Codec, size: nat, s: Snapshot, events: seq<Event>, now: nat -> real, io: nat -> IoOutcome): Snapshot {
    if events == [] then s else
      var n := |events| - 1;
      PushSpec(codec, size, PushedAll(codec, size, s, events[..n], now, io), events[n], now(n), io(n)).1
  }

  /** One event further. */
  lemma OneMorePush(codec: Codec, size: nat, s: Snapshot, events: seq<Event>, i: nat, now: nat -> real, io: nat -> IoOutcome)
    requires i < |events|
    ensures PushedAll(codec, size, s, events[..i + 1], now, io)
      == PushSpec(codec, size, PushedAll(codec, size, s, events[..i], now, io), events[i], now(i), io(i)).1
    ensures CallsOf(events[..i + 1], now) == CallsOf(events[..i], now) + [Call(events[i].tenantId, now(i))]
  {
    assert events[..i + 1][..i] == events[..i];
  }

  lemma OneMoreCall(l: Limits, calls: seq<Call>, call: Call)
    ensures AfterCalls(l, calls + [call]) == AllowTenant(AfterCalls(l, calls), call.tenantId, call.now).1
    ensures CallDecisions(l, calls + [call]) == CallDecisions(l, calls) + [AllowTenant(AfterCalls(l, calls), call.tenantId, call.now).0]
  {
    assert (calls + [call])[..|calls|] == calls;
  }

  lemma {:induction false} PushedLimits(codec: Codec, size: nat, s: Snapshot, events: seq<Event>, now: nat -> real, io: nat -> IoOutcome)
    ensures PushedAll(codec, size, s, events, now, io).limits == AfterCalls(s.limits, CallsOf(events, now))
  {
    if events != [] {
      var n := |events| - 1;
      assert events[..n + 1] == events;
      PushedLimits(codec, size, s, events[..n], now, io);
      OneMorePush(codec, size, s, events, n, now, io);
      OneMoreCall(s.limits, CallsOf(events[..n], now), Call(events[n].tenantId, now(n)));
      PushEffects(codec, size, PushedAll(codec, size, s, events[..n], now, io), events[n], now(n), io(n));
    }
  }

  lemma OneMoreFate(codec: Codec, l: Limits, events: seq<Event>, i: nat, now: nat -> real, io: nat -> IoOutcome)
    requires i < |events|
    ensures var admitted := AllowTenant(AfterCalls(l, CallsOf(events[..i], now)), events[i].tenantId, now(i)).0;
      Fates(codec, l, events[..i + 1], now, io) == Fates(codec, l, events[..i], now, io)
        + [if !admitted || codec.marshal(events[i]).None? then Refused else if io(i).IoWriteFailed? then WriteLost else Logged]
  {
    hide AllowTenant, AfterCalls;
    OneMoreCall(l, CallsOf(events[..i], now), Call(events[i].tenantId, now(i)));
    assert CallsOf(events[..i + 1], now) == CallsOf(events[..i], now) + [Call(events[i].tenantId, now(i))];
  }

  // ---- What reaches the tracker and the buffer ----------------------------------------------------------

  function Min(a: nat, b: nat): nat {
    if a < b then a else b
  }

  function Room(size: nat, queue: seq<Event>): nat {
    if |queue| < size then size - |queue| else 0
  }

  /** No event after `j` has its id. */
  ghost predicate NewestCopy(events: seq<Event>, j: nat)
    requires j < |events|
  {
    forall i :: j < i < |events| ==> events[i].eventId != events[j].eventId
  }

  ghost predicate HasEventId(events: seq<Event>, id: string) {
    exists i :: 0 <= i < |events| && events[i].eventId == id
  }

  /** Each id is tracked with the number of its newest copy, unless that copy is not among the first `m`. */
  ghost predicate NewestTracked(tracker: map<string, nat>, seqNo: nat, events: seq<Event>, m: nat) {
    forall j :: 0 <= j < |events| && NewestCopy(events, j) ==>
      if j < m then events[j].eventId in tracker && tracker[events[j].eventId] == seqNo + j + 1
      else events[j].eventId !in tracker
  }

  ghost predicate OthersTracked(before: map<string, nat>, tracker: map<string, nat>, events: seq<Event>) {
    forall id :: !HasEventId(events, id) ==>
      && (id in tracker <==> id in before)
      && (id in before ==> tracker[id] == before[id])
  }

  /**
   * The buffer has got the events that it had room for, in order, and each id is tracked with the number of
   * its newest copy, unless that copy found the buffer full and was rolled back.
   */
  ghost predicate HandedOver(s: Snapshot, s': Snapshot, events: seq<Event>, size: nat) {
    var m := Min(Room(size, s.queue), |events|);
    && s'.queue == s.queue + events[..m]
    && s'.seqNo == s.seqNo + |events|
    && NewestTracked(s'.tracker, s.seqNo, events, m)
    && OthersTracked(s.tracker, s'.tracker, events)
  }

  lemma {:induction false} AllHandedOver(codec: Codec, size: nat, s: Snapshot, events: seq<Event>, now: nat -> real, io: nat -> IoOutcome)
    requires !s.limits.enabled && AllMarshal(codec, events) && s.seqNo + |events| < U64
    requires AllSynced(io, |events|)
    ensures HandedOver(s, PushedAll(codec, size, s, events, now, io), events, size)
    ensures PushedAll(codec, size, s, events, now, io).limits == s.limits
  {
    if events == [] {
      NothingHandedOver(s, events, size);
    } else {
      hide NewestTracked, OthersTracked, PushSpec, AllowTenant, PushedAll;
      var n := |events| - 1;
      AllHandedOver(codec, size, s, events[..n], now, io);
      assert events[..n + 1] == events;
      OneMorePush(codec, size, s, events, n, now, io);
      var u := PushedAll(codec, size, s, events[..n], now, io);
      PushHandsOver(codec, size, u, events[n], now(n), io(n));
      OneMoreHandedOver(s, u, PushedAll(codec, size, s, events, now, io), events, size);
    }
  }

  lemma PushHandsOver(codec: Codec, size: nat, u: Snapshot, e: Event, now: real, io: IoOutcome)
    requires !u.limits.enabled && codec.marshal(e).Some? && io == IoOk && u.seqNo + 1 < U64
    ensures var u' := PushSpec(codec, size, u, e, now, io).1;
      && u'.limits == u.limits && u'.seqNo == u.seqNo + 1
      && u'.queue == u.queue + (if |u.queue| < size then [e] else [])
      && u'.tracker == (if |u.queue| < size then u.tracker[e.eventId := u.seqNo + 1] else u.tracker - {e.eventId})
  {
    hide PushSpec, AllowTenant;
    PushEffects(codec, size, u, e, now, io);
    DisabledAdmits(u.limits, e.tenantId, now);
  }

  lemma NothingHandedOver(s: Snapshot, events: seq<Event>, size: nat)
    requires events == []
    ensures HandedOver(s, s, events, size)
  {
    assert s.queue + [] == s.queue;
  }

  lemma OneMoreHandedOver(s: Snapshot, u: Snapshot, u': Snapshot, events: seq<Event>, size: nat)
    requires events != [] && HandedOver(s, u, events[..|events| - 1], size)
    requires var e := events[|events| - 1];
      && u'.seqNo == u.seqNo + 1
      && u'.queue == u.queue + (if |u.queue| < size then [e] else [])
      && u'.tracker == (if |u.queue| < size then u.tracker[e.eventId := u.seqNo + 1] else u.tracker - {e.eventId})
    ensures HandedOver(s, u', events, size)
  {
    hide NewestTracked, OthersTracked;
    var n, id := |events| - 1, events[|events| - 1].eventId;
    var m, m' := Min(Room(size, s.queue), n), Min(Room(size, s.queue), n + 1);
    assert |u.queue| < size <==> n < Room(size, s.queue);
    assert events[..n][..m] == events[..m];
    OneMoreTracked(u.tracker, s.seqNo, events, m, |u.queue| < size);
    OneMoreOther(s.tracker, u.tracker, u'.tracker, events);
  }

  lemma OneMoreTracked(tracker: map<string, nat>, seqNo: nat, events: seq<Event>, m: nat, taken: bool)
    requires events != [] && NewestTracked(tracker, seqNo, events[..|events| - 1], m)
    requires m <= |events| - 1 && (taken ==> m == |events| - 1)
    ensures var id := events[|events| - 1].eventId;
      NewestTracked(if taken then tracker[id := seqNo + |events|] else tracker - {id}, seqNo, events, if taken then m + 1 else m)
  {
    var n := |events| - 1;
    var front, id := events[..n], events[n].eventId;
    var after := if taken then tracker[id := seqNo + |events|] else tracker - {id};
    forall j | 0 <= j < n && NewestCopy(events, j)
      ensures if j < m then events[j].eventId in after && after[events[j].eventId] == seqNo + j + 1
        else events[j].eventId !in after
    {
      assert front[j] == events[j] && events[n].eventId != events[j].eventId;
      assert NewestCopy(front, j);
    }
  }

  lemma OneMoreOther(before: map<string, nat>, tracker: map<string, nat>, after: map<string, nat>, events: seq<Event>)
    requires events != [] && OthersTracked(before, tracker, events[..|events| - 1])
    requires after - {events[|events| - 1].eventId} == tracker - {events[|events| - 1].eventId}
    ensures OthersTracked(before, after, events)
  {
    var n := |events| - 1;
    var last := events[n].eventId;
    forall id | !HasEventId(events, id)
      ensures (id in after <==> id in before) && (id in before ==> after[id] == before[id])
    {
      assert events[n].eventId != id;
      assert forall i :: 0 <= i < n ==> events[..n][i] == events[i];
      assert !HasEventId(events[..n], id);
      assert id in after <==> id in after - {last};
      assert id in tracker <==> id in tracker - {last};
      if id in after {
        assert after[id] == (after - {last})[id] == tracker[id];
      }
    }
  }

  /**
   * The loop as it is written: errors of Push are only reported. The service ends as if the recovered events
   * had been pushed in order, and recovery afterwards returns all that it returned before, and then the
   * events that were logged again. With tenancy disabled and appends that succeed, that is one new copy
   * of each, whether or not the buffer takes it.
   */
  method ReplayWal(core: Service, now: nat -> real, io: nat -> IoOutcome)
    requires core.Valid() && core.wal.Valid() && core.codec.Sound()
    requires core.wal.seqNo + |Recoverable(core.codec, core.wal.View())| < U64
    modifies core.wal`walFile, core.wal`seqNo, core.tracker, core.buf`queue, core.tenants.Buckets()
    ensures core.Valid() && core.wal.Valid()
    ensures core.View() == PushedAll(core.codec, core.buf.size, old(core.View()),
      old(Recoverable(core.codec, core.wal.View())), now, io)
    ensures core.wal.View() == Replayed(core.codec, old(core.wal.View()), old(Recoverable(core.codec, core.wal.View())),
      Fates(core.codec, old(core.View()).limits, old(Recoverable(core.codec, core.wal.View())), now, io))
    ensures ReplayOutcome(core.codec, core.buf.size, old(core.View()), core.View(), old(core.wal.View()), core.wal.View(), now, io)
  {
    hide Service.Valid, Replayed, Registry.Buckets, Fates, PushedAll, AllowTenant, ReplayOutcome;
    ghost var start, view := core.wal.View(), core.View();
    var entries := core.wal.Recover(core.codec);
    assert EventsIn(entries) == Recoverable(core.codec, start) && Fresh(start) && view.seqNo == start.seqNo;
    assert core.wal.View() == start && core.View() == view;
    hide Recoverable, Fresh, Service.View, FileWAL.View, FileWAL.Valid, Registry.View;
    PushEntries(core, entries, now, io);
    OutcomeOfReplay(core.codec, core.buf.size, view, start, now, io);
  }

  ghost predicate AllWritten(io: nat -> IoOutcome, n: nat) {
    forall i :: 0 <= i < n ==> !io(i).IoWriteFailed?
  }

  ghost predicate AllSynced(io: nat -> IoOutcome, n: nat) {
    forall i :: 0 <= i < n ==> io(i) == IoOk
  }

  /**
   * What a replay achieves: recovery returns all that it returned before, then the events logged again. With
   * tenancy disabled and appends that succeed those are all of them, and with fsyncs that succeed the
   * service has handed them over.
   */
  ghost predicate ReplayOutcome(codec: Codec, size: nat, s: Snapshot, s': Snapshot, w: Wal, w': Wal,
    now: nat -> real, io: nat -> IoOutcome)
  {
    var events := Recoverable(codec, w);
    && Recoverable(codec, w') == events + Copies(codec, events, Fates(codec, s.limits, events, now, io))
    && (!s.limits.enabled && AllMarshal(codec, events) && AllWritten(io, |events|) ==>
        Recoverable(codec, w') == events + events)
    && (!s.limits.enabled && AllMarshal(codec, events) && AllSynced(io, |events|) ==>
        HandedOver(s, s', events, size))
  }

  lemma OutcomeOfReplay(codec: Codec, size: nat, s: Snapshot, w: Wal, now: nat -> real, io: nat -> IoOutcome)
    requires codec.Sound() && Fresh(w) && s.seqNo == w.seqNo && w.seqNo + |Recoverable(codec, w)| < U64
    ensures var events := Recoverable(codec, w);
      ReplayOutcome(codec, size, s, PushedAll(codec, size, s, events, now, io),
        w, Replayed(codec, w, events, Fates(codec, s.limits, events, now, io)), now, io)
  {
    hide Fates, PushedAll, Replayed, Recoverable, HandedOver, Fresh, Copies;
    var events := Recoverable(codec, w);
    ReplayedRecovers(codec, w, events, Fates(codec, s.limits, events, now, io));
    Undisturbed(codec, size, s, events, now, io);
  }

  /** With tenancy disabled, every event that can be marshalled and written is logged, and if synced handed over. */
  lemma Undisturbed(codec: Codec, size: nat, s: Snapshot, events: seq<Event>, now: nat -> real, io: nat -> IoOutcome)
    requires s.seqNo + |events| < U64
    ensures !s.limits.enabled && AllMarshal(codec, events) && AllWritten(io, |events|) ==>
      Copies(codec, events, Fates(codec, s.limits, events, now, io)) == events
    ensures !s.limits.enabled && AllMarshal(codec, events) && AllSynced(io, |events|) ==>
      HandedOver(s, PushedAll(codec, size, s, events, now, io), events, size)
  {
    hide Copies, Fates, HandedOver, PushedAll;
    if !s.limits.enabled && AllMarshal(codec, events) {
      if AllWritten(io, |events|) {
        DisabledFates(codec, s.limits, events, now, io);
        AllCopied(codec, events);
      }
      if AllSynced(io, |events|) {
        AllHandedOver(codec, size, s, events, now, io);
      }
    }
  }

  lemma {:induction false} DisabledDecisions(l: Limits, calls: seq<Call>)
    requires !l.enabled
    ensures AfterCalls(l, calls) == l && forall i :: 0 <= i < |calls| ==> CallDecisions(l, calls)[i]
  {
    if calls != [] {
      DisabledDecisions(l, calls[..|calls| - 1]);
    }
  }

  lemma DisabledFates(codec: Codec, l: Limits, events: seq<Event>, now: nat -> real, io: nat -> IoOutcome)
    requires !l.enabled && AllMarshal(codec, events) && AllWritten(io, |events|)
    ensures Fates(codec, l, events, now, io) == AllLogged(|events|)
  {
    DisabledDecisions(l, CallsOf(events, now));
  }

  /** The loop over the recovered entries. */
  method PushEntries(core: Service, entries: seq<Entry>, now: nat -> real, io: nat -> IoOutcome)
    requires core.Valid() && core.wal.Valid() && core.codec.Sound()
    requires core.wal.seqNo + |entries| < U64
    modifies core.wal`walFile, core.wal`seqNo, core.tracker, core.buf`queue, core.tenants.Buckets()
    ensures core.Valid() && core.wal.Valid()
    ensures core.View() == PushedAll(core.codec, core.buf.size, old(core.View()), EventsIn(entries), now, io)
    ensures core.wal.View() == Replayed(core.codec, old(core.wal.View()), EventsIn(entries),
      Fates(core.codec, old(core.View()).limits, EventsIn(entries), now, io))
  {
    hide Recoverable, Service.Valid, FileWAL.Valid, FileWAL.View, Service.View, WithFate, Registry.Buckets, PushSpec, Fates, AllowTenant, Replayed;
    ghost var start, view, startSeq, events := core.wal.View(), core.View(), core.wal.seqNo, EventsIn(entries);
    NoneReplayed(core.codec, start, view.limits, events, now, io);
    for i := 0 to |entries|
      invariant core.Valid() && core.wal.Valid() && core.tenants.Buckets() == old(core.tenants.Buckets())
      invariant core.wal.seqNo <= startSeq + i
      invariant core.View() == PushedAll(core.codec, core.buf.size, view, events[..i], now, io)
      invariant core.wal.View() == Replayed(core.codec, start, events[..i], Fates(core.codec, view.limits, events[..i], now, io))
    {
      PushOne(core, entries[i].event, now(i), io(i));
      OneMorePush(core.codec, core.buf.size, view, events, i, now, io);
      PushedLimits(core.codec, core.buf.size, view, events[..i], now, io);
      ReplayedStep(core.codec, start, view.limits, events, i, now, io);
    }
    assert events[..|entries|] == events;
  }

  lemma NoneReplayed(codec: Codec, w: Wal, l: Limits, events: seq<Event>, now: nat -> real, io: nat -> IoOutcome)
    ensures Replayed(codec, w, events[..0], Fates(codec, l, events[..0], now, io)) == w
  {
  }

  function FateOf(codec: Codec, l: Limits, event: Event, now: real, io: IoOutcome): Fate {
    if !AllowTenant(l, event.tenantId, now).0 || codec.marshal(event).None? then Refused
    else if io.IoWriteFailed? then WriteLost else Logged
  }

  lemma ReplayedStep(codec: Codec, w: Wal, l: Limits, events: seq<Event>, i: nat, now: nat -> real, io: nat -> IoOutcome)
    requires i < |events|
    ensures Replayed(codec, w, events[..i + 1], Fates(codec, l, events[..i + 1], now, io))
      == WithFate(codec, Replayed(codec, w, events[..i], Fates(codec, l, events[..i], now, io)), events[i],
        FateOf(codec, AfterCalls(l, CallsOf(events[..i], now)), events[i], now(i), io(i)))
  {
    hide Fates, AllowTenant, WithFate, AfterCalls;
    OneMoreFate(codec, l, events, i, now, io);
    var front, all := Fates(codec, l, events[..i], now, io), Fates(codec, l, events[..i + 1], now, io);
    assert events[..i + 1][..i] == events[..i] && all[..i] == front;
  }

  /** One turn of the loop. */
  method PushOne(core: Service, event: Event, now: real, io: IoOutcome)
    requires core.Valid() && core.wal.Valid() && core.codec.Sound() && core.wal.seqNo + 1 < U64
    modifies core.wal`walFile, core.wal`seqNo, core.tracker, core.buf`queue, core.tenants.Buckets()
    ensures core.Valid() && core.wal.Valid() && core.tenants.Buckets() == old(core.tenants.Buckets())
    ensures core.wal.seqNo <= old(core.wal.seqNo) + 1
    ensures core.View() == PushSpec(core.codec, core.buf.size, old(core.View()), event, now, io).1
    ensures core.wal.View() == WithFate(core.codec, old(core.wal.View()), event,
      FateOf(core.codec, old(core.View()).limits, event, now, io))
  {
    hide PushSpec, AllowTenant, Registry.Valid, Aligned, ParseLog, ParseAcks, Increasing, Seqs, Fits, EncodeRecord;
    ghost var before, file, data := core.wal.View(), core.wal.walFile, core.codec.marshal(event);
    ghost var admitted := AllowTenant(core.View().limits, event.tenantId, now).0;
    PushEffects(core.codec, core.buf.size, core.View(), event, now, io);
    var _ := core.Push(event, now, io);
    assert core.wal.walFile == core.View().walFile && core.wal.seqNo == core.View().seqNo;
    if admitted && data.Some? && !io.IoWriteFailed? {
      AppendIsAppendOp(before, file, data.value);
      ApplyKeepsFresh(before, AppendOp(data.value));
    }
  }

  // ---- Repeated restarts -----------------------------------------------------------------------

  function Pow2(k: nat): nat {
    if k == 0 then 1 else 2 * Pow2(k - 1)
  }

  lemma MulTwice(n: nat, p: nat)
    ensures n * (2 * p) == n * p + n * p
  {
  }

  /** A restart on whole files with all acknowledgements on disk, then a replay. */
  function RestartAndReplay(codec: Codec, w: Wal): Wal {
    var reopened := Apply(w, ReopenOp(w.acked));
    var events := Recoverable(codec, reopened);
    Replayed(codec, reopened, events, AllLogged(|events|))
  }

  function AfterRestarts(codec: Codec, w: Wal, k: nat): Wal {
    if k == 0 then w else RestartAndReplay(codec, AfterRestarts(codec, w, k - 1))
  }

  lemma RestartDoubles(codec: Codec, w: Wal)
    requires codec.Sound() && Fresh(w) && AllMarshal(codec, Recoverable(codec, w))
    requires w.seqNo + |Recoverable(codec, w)| < U64
    ensures var w' := RestartAndReplay(codec, w);
      && Fresh(w') && w'.seqNo <= w.seqNo + |Recoverable(codec, w)|
      && Recoverable(codec, w') == Recoverable(codec, w) + Recoverable(codec, w)
  {
    ApplyKeepsFresh(w, ReopenOp(w.acked));
    MaxSeqBounds(w.log);
    var reopened := Apply(w, ReopenOp(w.acked));
    assert reopened.seqNo <= w.seqNo;
    var events := Recoverable(codec, reopened);
    ReplayedRecovers(codec, reopened, events, AllLogged(|events|));
    AllCopied(codec, events);
  }

  /**
   * The exact cost: replayed entries are never acknowledged, so k restarts with no delivery in between
   * take n recoverable entries to n * 2^k, each of them still one of the original events.
   */
  lemma {:induction false} RestartsDouble(codec: Codec, w: Wal, k: nat)
    requires codec.Sound() && Fresh(w) && AllMarshal(codec, Recoverable(codec, w))
    requires w.seqNo + |Recoverable(codec, w)| * Pow2(k) < U64
    ensures var w' := AfterRestarts(codec, w, k);
      && Fresh(w') && AllMarshal(codec, Recoverable(codec, w'))
      && |Recoverable(codec, w')| == |Recoverable(codec, w)| * Pow2(k)
      && w'.seqNo + |Recoverable(codec, w)| <= w.seqNo + |Recoverable(codec, w)| * Pow2(k)
      && (forall e :: e in Recoverable(codec, w') <==> e in Recoverable(codec, w))
  {
    var n := |Recoverable(codec, w)|;
    if k > 0 {
      MulTwice(n, Pow2(k - 1));
      RestartsDouble(codec, w, k - 1);
      var v := AfterRestarts(codec, w, k - 1);
      hide Recoverable, Fresh;
      RestartDoubles(codec, v);
    }
  }

  /**
   * A restarted service, from its files to the end of the replay: with tenancy disabled, payloads that marshal
   * and good writes it is the restart that the results above speak of, and what it recovered waits for the
   * workers as far as the buffer has room.
   */
  method RestartService(codec: Codec, wal: FileWAL, size: nat, tenants: Registry, now: nat -> real, io: nat -> IoOutcome)
    returns (core: Service)
    requires codec.Sound() && wal.Valid() && SetOf(ParseAcks(wal.ackFile)) == wal.acked
    requires tenants.Valid() && !tenants.enabled
    requires wal.seqNo + |Recoverable(codec, wal.View())| < U64
    requires AllMarshal(codec, Recoverable(codec, wal.View())) && AllSynced(io, |Recoverable(codec, wal.View())|)
    modifies tenants.Buckets()
    ensures core.Valid() && core.wal.Valid() && core.tenants == tenants && core.buf.size == size
    ensures core.wal.View() == RestartAndReplay(codec, old(wal.View()))
    ensures var events := old(Recoverable(codec, wal.View()));
      var m := Min(size, |events|);
      core.buf.queue == events[..m] && NewestTracked(core.tracker.data, MaxSeq(old(wal.View()).log), events, m)
  {
    hide Recoverable, NewestTracked, Fates, Replayed, AllMarshal, OthersTracked, PushedAll;
    ghost var w, events := wal.View(), Recoverable(codec, wal.View());
    MaxSeqBounds(w.log);
    RecoverableAfterReopen(codec, w);
    var reopened := Reopen(wal, |wal.ackFile|);
    assert wal.ackFile[..|wal.ackFile|] == wal.ackFile;
    assert reopened.View() == Apply(w, ReopenOp(w.acked));
    var tracker := new SeqTracker();
    var buf := new ChannelBuffer(size);
    core := new Service(codec, reopened, tracker, buf, tenants);
    ghost var s := core.View();
    DisabledFates(codec, s.limits, events, now, io);
    ReplayWal(core, now, io);
    assert HandedOver(s, core.View(), events, size);
  }

  lemma RecoverableAfterReopen(codec: Codec, w: Wal)
    ensures Recoverable(codec, Apply(w, ReopenOp(w.acked))) == Recoverable(codec, w)
  {
  }

  // ---- Logs written by the service ---------------------------------------------------------------

  ghost predicate Marshalled(codec: Codec, payload: seq<byte>) {
    exists event :: codec.marshal(event) == Some(payload)
  }

  /** Every payload in the log was produced by marshal. */
  ghost predicate FromMarshal(codec: Codec, rs: seq<Record>) {
    forall i :: 0 <= i < |rs| ==> Marshalled(codec, rs[i].payload)
  }

  ghost predicate AppendsMarshalled(codec: Codec, ops: seq<WalOp>) {
    forall i :: 0 <= i < |ops| && ops[i].AppendOp? ==> Marshalled(codec, ops[i].payload)
  }

  /** What recovery returns from such a log can be marshalled again, so replaying it never fails there. */
  lemma LoggedMarshals(codec: Codec, w: Wal)
    requires codec.Sound() && FromMarshal(codec, w.log)
    ensures AllMarshal(codec, Recoverable(codec, w))
  {
    var es := Entries(codec, w.acked, w.log);
    forall k | 0 <= k < |es| ensures codec.marshal(es[k].event).Some? {
      EntriesMember(codec, w.acked, w.log, es[k]);
      var i :| 0 <= i < |w.log| && codec.unmarshal(w.log[i].payload) == Some(es[k].event);
      assert Marshalled(codec, w.log[i].payload);
      var event :| codec.marshal(event) == Some(w.log[i].payload);
      assert event == es[k].event;
    }
  }

  lemma {:induction false} RunKeepsMarshalled(codec: Codec, w: Wal, ops: seq<WalOp>)
    requires RunOk(w, ops) && FromMarshal(codec, w.log) && AppendsMarshalled(codec, ops)
    ensures FromMarshal(codec, RunOps(w, ops).log)
    decreases |ops|
  {
    if ops != [] {
      var w' := Apply(w, ops[0]);
      forall i | 0 <= i < |w'.log| ensures Marshalled(codec, w'.log[i].payload) {
        if ops[0].CheckpointOp? {
          UnackedMember(w.acked, w.log, w'.log[i]);
        }
      }
      RunKeepsMarshalled(codec, w', ops[1..]);
    }
  }

  /**
   * The cost for any log that the service has written: after whatever run of log operations, k restarts
   * without deliveries multiply the recoverable entries by 2^k.
   */
  lemma RunThenRestartsDouble(codec: Codec, w: Wal, ops: seq<WalOp>, k: nat)
    requires codec.Sound() && Fresh(w) && FromMarshal(codec, w.log)
    requires RunOk(w, ops) && AppendsMarshalled(codec, ops)
    requires RunOps(w, ops).seqNo + |Recoverable(codec, RunOps(w, ops))| * Pow2(k) < U64
    ensures var v := RunOps(w, ops);
      |Recoverable(codec, AfterRestarts(codec, v, k))| == |Recoverable(codec, v)| * Pow2(k)
  {
    NextNumberIsFresh(w, ops);
    RunKeepsMarshalled(codec, w, ops);
    LoggedMarshals(codec, RunOps(w, ops));
    RestartsDouble(codec, RunOps(w, ops), k);
  }
}
