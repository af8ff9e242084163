/** The token bucket. Time and tokens are real numbers. */
module Limiter {
  datatype Bucket = Bucket(rate: real, burst: real, tokens: real, last: real)

  /** A full bucket, with the larger of 1 and the rate as its burst. */
  function NewBucket(rate: real, now: real): (b: Bucket)
    ensures b.rate == rate && b.last == now && b.tokens == b.burst
    ensures b.burst >= 1.0 && b.burst >= rate && (b.burst == 1.0 || b.burst == rate)
  {
    var burst := if rate < 1.0 then 1.0 else rate;
    Bucket(rate, burst, burst, now)
  }

  function Refill(b: Bucket, now: real): Bucket {
    var elapsed := now - b.last;
    if elapsed > 0.0 then
      var filled := b.tokens + elapsed * b.rate;
      b.(last := now, tokens := if filled > b.burst then b.burst else filled)
    else b
  }

  function AllowSpec(b: Bucket, now: real): (bool, Bucket) {
    var filled := Refill(b, now);
    if filled.tokens >= 1.0 then (true, filled.(tokens := filled.tokens - 1.0)) else (false, filled)
  }

  class TokenBucket {
    const rate: real
    const burst: real
    var tokens: real
    var last: real

    function View(): Bucket
      reads this
    {
      Bucket(rate, burst, tokens, last)
    }

    constructor (ratePerSec: real, now: real)
      ensures View() == NewBucket(ratePerSec, now)
      ensures rate == ratePerSec && last == now && tokens == burst
      ensures burst == if ratePerSec < 1.0 then 1.0 else ratePerSec
    {
      rate := ratePerSec;
      var b := ratePerSec;
      if b < 1.0 {
        b := 1.0;
      }
      burst := b;
      tokens := b;
      last := now;
    }

    method Allow(now: real) returns (admitted: bool)
      modifies this
      ensures (admitted, View()) == AllowSpec(old(View()), now)
    {
      var elapsed := now - last;
      if elapsed > 0.0 {
        last := now;
        tokens := tokens + elapsed * rate;
        if tokens > burst {
          tokens := burst;
        }
      }
      assert View() == Refill(old(View()), now);
      if tokens >= 1.0 {
        tokens := tokens - 1.0;
        return true;
      }
      return false;
    }
  }

  // ---- Runs ----------------------------------------------------------------------------------

  /** The bucket after a sequence of clock readings. */
  function After(b: Bucket, calls: seq<real>): Bucket {
    if calls == [] then b else AllowSpec(After(b, calls[..|calls| - 1]), calls[|calls| - 1]).1
  }

  /** Whether call `i` is admitted. */
  predicate Admitted(b: Bucket, calls: seq<real>, i: nat)
    requires i < |calls|
  {
    AllowSpec(After(b, calls[..i]), calls[i]).0
  }

  /** Which calls are admitted. */
  function Decisions(b: Bucket, calls: seq<real>): (ds: seq<bool>)
    ensures |ds| == |calls|
  {
    seq(|calls|, i requires 0 <= i < |calls| => Admitted(b, calls, i))
  }

  /** The largest clock reading so far: a clock that steps back is ignored. */
  function Latest(start: real, calls: seq<real>): real {
    if calls == [] then start else
      var before := Latest(start, calls[..|calls| - 1]);
      if calls[|calls| - 1] > before then calls[|calls| - 1] else before
  }

  /** The effective time of call `i`. */
  function TimeOf(start: real, calls: seq<real>, i: nat): real
    requires i < |calls|
  {
    Latest(start, calls[..i + 1])
  }

  function Count(ds: seq<bool>): nat {
    if ds == [] then 0 else Count(ds[..|ds| - 1]) + (if ds[|ds| - 1] then 1 else 0)
  }

  /** What a window from call `i` to call `n` may admit in total: the burst and what has flowed in since. */
  function Allowance(b: Bucket, calls: seq<real>, i: nat, n: nat): real
    requires i <= n < |calls|
  {
    b.burst + (TimeOf(b.last, calls, n) - TimeOf(b.last, calls, i)) * b.rate
  }

  lemma {:induction false} CountSplit(ds: seq<bool>, i: nat)
    requires i <= |ds|
    ensures Count(ds) == Count(ds[..i]) + Count(ds[i..])
  {
    if i == |ds| {
      assert ds[..i] == ds && ds[i..] == [];
    } else {
      var front := ds[..|ds| - 1];
      CountSplit(front, i);
      assert front[..i] == ds[..i];
      assert ds[i..][..|ds[i..]| - 1] == front[i..];
    }
  }

  lemma DecisionsPrefix(b: Bucket, calls: seq<real>, n: nat)
    requires n <= |calls|
    ensures Decisions(b, calls[..n]) == Decisions(b, calls)[..n]
  {
    hide After, AllowSpec;
    forall i | 0 <= i < n ensures Decisions(b, calls[..n])[i] == Decisions(b, calls)[i] {
      assert calls[..n][..i] == calls[..i];
    }
  }

  lemma DecisionsSnoc(b: Bucket, calls: seq<real>, now: real)
    ensures Decisions(b, calls + [now]) == Decisions(b, calls) + [AllowSpec(After(b, calls), now).0]
    ensures After(b, calls + [now]) == AllowSpec(After(b, calls), now).1
  {
    var all := calls + [now];
    assert all[..|calls|] == calls && all[..|all| - 1] == calls;
    DecisionsPrefix(b, all, |calls|);
  }

  lemma {:induction false} LatestGrows(start: real, calls: seq<real>, i: nat)
    requires i <= |calls|
    ensures start <= Latest(start, calls[..i]) <= Latest(start, calls)
  {
    if calls != [] {
      var front := calls[..|calls| - 1];
      if i < |calls| {
        LatestGrows(start, front, i);
        assert front[..i] == calls[..i];
      } else {
        LatestGrows(start, front, 0);
        assert calls[..i] == calls;
      }
    }
  }

  lemma {:induction false} BucketKeeps(b: Bucket, calls: seq<real>)
    requires b.tokens == b.burst
    ensures After(b, calls).rate == b.rate && After(b, calls).burst == b.burst
    ensures After(b, calls).last == Latest(b.last, calls)
    ensures After(b, calls).tokens <= b.burst
  {
    if calls != [] {
      BucketKeeps(b, calls[..|calls| - 1]);
    }
  }

  /** The tokens at hand when call `n` is decided. */
  function Level(b: Bucket, calls: seq<real>, n: nat): real
    requires n < |calls|
  {
    Refill(After(b, calls[..n]), calls[n]).tokens
  }

  lemma MulDistributes(r: real, x: real, y: real)
    ensures (x + y) * r == x * r + y * r
  {
  }

  lemma MulNonNegative(r: real, x: real)
    requires r >= 0.0 && x >= 0.0
    ensures x * r >= 0.0
  {
  }

  /** A call is admitted when the level is at least one, and then costs one. */
  lemma AfterCall(b: Bucket, calls: seq<real>, n: nat)
    requires n < |calls|
    ensures Decisions(b, calls)[n] <==> Level(b, calls, n) >= 1.0
    ensures After(b, calls[..n + 1]).tokens == Level(b, calls, n) - (if Decisions(b, calls)[n] then 1.0 else 0.0)
  {
    assert calls[..n + 1][..n] == calls[..n];
  }

  lemma TimeStep(b: Bucket, calls: seq<real>, n: nat)
    requires b.tokens == b.burst && 0 < n < |calls|
    ensures After(b, calls[..n]).last == TimeOf(b.last, calls, n - 1)
    ensures TimeOf(b.last, calls, n)
      == if calls[n] > TimeOf(b.last, calls, n - 1) then calls[n] else TimeOf(b.last, calls, n - 1)
  {
    BucketKeeps(b, calls[..n]);
    assert calls[..n + 1][..|calls[..n + 1]| - 1] == calls[..n];
  }

  lemma RefillTokens(b: Bucket, now: real, dt: real)
    requires b.tokens <= b.burst && dt == if now > b.last then now - b.last else 0.0
    ensures var filled := b.tokens + dt * b.rate;
      Refill(b, now).tokens == if filled > b.burst then b.burst else filled
  {
  }

  /** From one call to the next: one token is spent if admitted, then refill up to the burst. */
  lemma NextLevel(b: Bucket, calls: seq<real>, n: nat)
    requires b.tokens == b.burst && b.rate >= 0.0 && 0 < n < |calls|
    ensures var spent := if Decisions(b, calls)[n - 1] then 1.0 else 0.0;
      var filled := Level(b, calls, n - 1) - spent
        + (TimeOf(b.last, calls, n) - TimeOf(b.last, calls, n - 1)) * b.rate;
      Level(b, calls, n) == if filled > b.burst then b.burst else filled
  {
    hide TimeOf, Decisions, After, Refill;
    AfterCall(b, calls, n - 1);
    TimeStep(b, calls, n);
    BucketKeeps(b, calls[..n]);
    assert calls[..n - 1 + 1] == calls[..n];
    RefillTokens(After(b, calls[..n]), calls[n], TimeOf(b.last, calls, n) - TimeOf(b.last, calls, n - 1));
  }

  lemma FirstLevel(b: Bucket, calls: seq<real>)
    requires b.tokens == b.burst && b.rate >= 0.0 && calls != []
    ensures Level(b, calls, 0) == b.burst
  {
    assert calls[..0] == [];
    if calls[0] - b.last > 0.0 {
      MulNonNegative(b.rate, calls[0] - b.last);
    }
  }

  lemma AllowanceStep(b: Bucket, calls: seq<real>, i: nat, n: nat)
    requires i < n < |calls|
    ensures Allowance(b, calls, i, n)
      == Allowance(b, calls, i, n - 1) + (TimeOf(b.last, calls, n) - TimeOf(b.last, calls, n - 1)) * b.rate
  {
    MulDistributes(b.rate,
      TimeOf(b.last, calls, n) - TimeOf(b.last, calls, n - 1),
      TimeOf(b.last, calls, n - 1) - TimeOf(b.last, calls, i));
  }

  lemma CountStep(ds: seq<bool>, i: nat, n: nat)
    requires i < n <= |ds|
    ensures Count(ds[i..n]) == Count(ds[i..n - 1]) + (if ds[n - 1] then 1 else 0)
  {
    assert ds[i..n][..|ds[i..n]| - 1] == ds[i..n - 1];
  }

  /**
   * The level is the tightest of all windows: it is at most what every window still allows, and it
   * equals what one of them allows.
   */
  lemma {:induction false} LevelIsTightest(b: Bucket, calls: seq<real>, n: nat) returns (at: nat)
    requires b.tokens == b.burst && b.rate >= 0.0 && n < |calls|
    ensures forall i :: 0 <= i <= n ==>
      Level(b, calls, n) <= Allowance(b, calls, i, n) - Count(Decisions(b, calls)[i..n]) as real
    ensures at <= n
    ensures Level(b, calls, n) == Allowance(b, calls, at, n) - Count(Decisions(b, calls)[at..n]) as real
  {
    var ds := Decisions(b, calls);
    assert Allowance(b, calls, n, n) == b.burst && ds[n..n] == [];
    if n == 0 {
      FirstLevel(b, calls);
      at := 0;
    } else {
      at := LevelIsTightest(b, calls, n - 1);
      NextLevel(b, calls, n);
      forall i | 0 <= i < n
        ensures Level(b, calls, n) <= Allowance(b, calls, i, n) - Count(ds[i..n]) as real
      {
        AllowanceStep(b, calls, i, n);
        CountStep(ds, i, n);
      }
      if Level(b, calls, n) == b.burst {
        at := n;
      } else {
        AllowanceStep(b, calls, at, n);
        CountStep(ds, at, n);
      }
    }
  }

  /** Every window ending at call `n` has room for one more. */
  ghost predicate RoomForOne(b: Bucket, calls: seq<real>, ds: seq<bool>, n: nat)
    requires n < |calls| && n <= |ds|
  {
    && Count(ds[..n]) as real + 1.0 <= b.burst + (TimeOf(b.last, calls, n) - b.last) * b.rate
    && forall i :: 0 <= i <= n ==> Count(ds[i..n]) as real + 1.0 <= Allowance(b, calls, i, n)
  }

  /**
   * One more admission at call `n` stays, from the start and from every call up to this one, within the
   * burst of a bucket of this rate, which is the larger of 1 and the rate, and what has flowed in.
   */
  ghost predicate HasRoom(rate: real, start: real, calls: seq<real>, ds: seq<bool>, n: nat)
    requires n < |calls| && n <= |ds|
  {
    var burst := if rate < 1.0 then 1.0 else rate;
    && Count(ds[..n]) as real + 1.0 <= burst + (TimeOf(start, calls, n) - start) * rate
    && forall i :: 0 <= i <= n ==>
      Count(ds[i..n]) as real + 1.0 <= burst + (TimeOf(start, calls, n) - TimeOf(start, calls, i)) * rate
  }

  lemma HasRoomIff(rate: real, start: real, calls: seq<real>, ds: seq<bool>, n: nat)
    requires n < |calls| && n <= |ds|
    ensures HasRoom(rate, start, calls, ds, n) <==> RoomForOne(NewBucket(rate, start), calls, ds, n)
  {
    hide Count, TimeOf, Allowance, NewBucket;
    forall i | 0 <= i <= n
      ensures Count(ds[i..n]) as real + 1.0 <= Allowance(NewBucket(rate, start), calls, i, n) <==>
        Count(ds[i..n]) as real + 1.0
          <= (if rate < 1.0 then 1.0 else rate) + (TimeOf(start, calls, n) - TimeOf(start, calls, i)) * rate
    {
      AllowanceOfRate(rate, start, calls, i, n);
    }
  }

  /**
   * Exact characterisation. A call is admitted if and only if, counting from the start and from every
   * call up to this one, the admissions so far plus this one stay within the burst and the inflow.
   */
  lemma AdmittedIff(rate: real, start: real, calls: seq<real>, n: nat)
    requires rate >= 0.0 && n < |calls|
    ensures var ds := Decisions(NewBucket(rate, start), calls);
      ds[n] <==> HasRoom(rate, start, calls, ds, n)
  {
    hide Count, TimeOf, Decisions, Level, After, Allowance, HasRoom, RoomForOne, NewBucket;
    var b := NewBucket(rate, start);
    AfterCall(b, calls, n);
    RoomIffLevel(b, calls, n);
    HasRoomIff(rate, start, calls, Decisions(b, calls), n);
  }

  lemma AllowanceOfRate(rate: real, start: real, calls: seq<real>, i: nat, n: nat)
    requires i <= n < |calls|
    ensures Allowance(NewBucket(rate, start), calls, i, n)
      == (if rate < 1.0 then 1.0 else rate) + (TimeOf(start, calls, n) - TimeOf(start, calls, i)) * rate
  {
  }

  /** Of calls at one instant exactly as many are admitted as whole tokens fit in the bucket. */
  lemma {:induction false} AtOneInstant(rate: real, start: real, calls: seq<real>, t: real)
    requires rate >= 0.0 && forall i :: 0 <= i < |calls| ==> calls[i] == t
    ensures var burst, n := if rate < 1.0 then 1.0 else rate, |calls|;
      && Count(Decisions(NewBucket(rate, start), calls)) == (if n < burst.Floor then n else burst.Floor)
      && After(NewBucket(rate, start), calls).tokens == burst - Count(Decisions(NewBucket(rate, start), calls)) as real
      && (calls != [] ==> After(NewBucket(rate, start), calls).last >= t)
  {
    hide After, Decisions, Count, Latest, AllowSpec, Refill, NewBucket;
    var b := NewBucket(rate, start);
    if calls == [] {
      NoCalls(b);
    } else {
      var front := calls[..|calls| - 1];
      AtOneInstant(rate, start, front, t);
      BucketKeeps(b, front);
      assert front + [t] == calls;
      DecisionsSnoc(b, front, t);
      CountSnoc(Decisions(b, front), AllowSpec(After(b, front), t).0);
      if front == [] {
        NoCalls(b);
      }
      OneCallAt(After(b, front), t);
      FloorRoom(b.burst, Count(Decisions(b, front)));
    }
  }

  lemma NoCalls(b: Bucket)
    ensures After(b, []) == b && Decisions(b, []) == [] && Count([]) == 0
  {
  }

  lemma CountSnoc(ds: seq<bool>, d: bool)
    ensures Count(ds + [d]) == Count(ds) + (if d then 1 else 0)
  {
    assert (ds + [d])[..|ds|] == ds;
  }

  lemma FloorRoom(burst: real, c: nat)
    ensures burst - c as real >= 1.0 <==> c < burst.Floor
  {
    assert burst.Floor as real <= burst < burst.Floor as real + 1.0;
    if c < burst.Floor {
      assert c as real + 1.0 == (c + 1) as real <= burst.Floor as real;
    } else {
      assert burst.Floor as real <= c as real;
    }
  }

  lemma OneCallAt(b: Bucket, t: real)
    requires b.rate >= 0.0 && (b.tokens == b.burst || b.last >= t)
    ensures var (admitted, after) := AllowSpec(b, t);
      && (admitted <==> b.tokens >= 1.0)
      && after.tokens == b.tokens - (if admitted then 1.0 else 0.0) && after.last >= t
  {
    FullOrSettled(b, t);
  }

  /** Refilling changes nothing when the bucket is full or the clock has not moved on. */
  lemma FullOrSettled(b: Bucket, t: real)
    requires b.rate >= 0.0 && (b.tokens == b.burst || b.last >= t)
    ensures Refill(b, t).tokens == b.tokens && Refill(b, t).last >= t
  {
    if t > b.last {
      MulNonNegative(b.rate, t - b.last);
    }
  }

  lemma RoomIffLevel(b: Bucket, calls: seq<real>, n: nat)
    requires b.tokens == b.burst && b.rate >= 0.0 && n < |calls|
    ensures RoomForOne(b, calls, Decisions(b, calls), n) <==> Level(b, calls, n) >= 1.0
  {
    hide Allowance, Level, Decisions, TimeOf;
    var ds := Decisions(b, calls);
    var at := LevelIsTightest(b, calls, n);
    StartAllowance(b, calls, n);
    assert ds[..n] == ds[0..n];
  }

  /** The window from the start allows at least what the window from the first call does. */
  lemma StartAllowance(b: Bucket, calls: seq<real>, n: nat)
    requires b.rate >= 0.0 && n < |calls|
    ensures Allowance(b, calls, 0, n) <= b.burst + (TimeOf(b.last, calls, n) - b.last) * b.rate
  {
    LatestGrows(b.last, calls[..1], 0);
    MulNonNegative(b.rate, TimeOf(b.last, calls, 0) - b.last);
    MulDistributes(b.rate, TimeOf(b.last, calls, n) - TimeOf(b.last, calls, 0), TimeOf(b.last, calls, 0) - b.last);
  }

  /** A pattern of admissions in which no window that ends in an admission exceeds its allowance. */
  ghost predicate Obeys(b: Bucket, calls: seq<real>, ds: seq<bool>)
    requires |ds| == |calls|
  {
    forall i, n :: 0 <= i <= n < |calls| && ds[n] ==> Count(ds[i..n + 1]) as real <= Allowance(b, calls, i, n)
  }

  /** The bound as it applies to a bucket of a rate: its burst is the larger of 1 and the rate. */
  ghost predicate ObeysRate(rate: real, start: real, calls: seq<real>, ds: seq<bool>)
    requires |ds| == |calls|
  {
    var burst := if rate < 1.0 then 1.0 else rate;
    forall i, n :: 0 <= i <= n < |calls| && ds[n] ==>
      Count(ds[i..n + 1]) as real <= burst + (TimeOf(start, calls, n) - TimeOf(start, calls, i)) * rate
  }

  lemma ObeysRateIff(rate: real, start: real, calls: seq<real>, ds: seq<bool>)
    requires |ds| == |calls|
    ensures ObeysRate(rate, start, calls, ds) <==> Obeys(NewBucket(rate, start), calls, ds)
  {
    hide Count, TimeOf, Allowance, NewBucket;
    var b := NewBucket(rate, start);
    forall i, n | 0 <= i <= n < |calls|
      ensures Allowance(b, calls, i, n)
        == (if rate < 1.0 then 1.0 else rate) + (TimeOf(start, calls, n) - TimeOf(start, calls, i)) * rate
    {
      AllowanceOfRate(rate, start, calls, i, n);
    }
  }

  /** The bucket obeys the bound in every window. */
  lemma BucketObeys(rate: real, start: real, calls: seq<real>)
    requires rate >= 0.0
    ensures ObeysRate(rate, start, calls, Decisions(NewBucket(rate, start), calls))
  {
    var b := NewBucket(rate, start);
    var ds := Decisions(b, calls);
    ObeysRateIff(rate, start, calls, ds);
    forall i, n | 0 <= i <= n < |calls| && ds[n] ensures Count(ds[i..n + 1]) as real <= Allowance(b, calls, i, n) {
      AfterCall(b, calls, n);
      RoomIffLevel(b, calls, n);
      CountStep(ds, i, n + 1);
    }
  }

  /**
   * Optimality. No pattern that obeys the bound admits more, over any prefix of the calls, than the
   * bucket does.
   */
  lemma {:induction false} BucketDominates(rate: real, start: real, calls: seq<real>, other: seq<bool>, n: nat)
    requires rate >= 0.0 && |other| == |calls| && n <= |calls|
    requires ObeysRate(rate, start, calls, other)
    ensures forall m :: 0 <= m <= n ==> Count(other[..m]) <= Count(Decisions(NewBucket(rate, start), calls)[..m])
  {
    var b := NewBucket(rate, start);
    var ds := Decisions(b, calls);
    if n > 0 {
      BucketDominates(rate, start, calls, other, n - 1);
      CountStep(other, 0, n);
      CountStep(ds, 0, n);
      assert other[0..n] == other[..n] && ds[0..n] == ds[..n];
      assert other[0..n - 1] == other[..n - 1] && ds[0..n - 1] == ds[..n - 1];
      if other[n - 1] && !ds[n - 1] && Count(other[..n - 1]) == Count(ds[..n - 1]) {
        DeniedWindow(rate, start, calls, other, n - 1);
      }
    }
  }

  /** Where the bucket denies, a pattern with as many admissions so far and one more breaks the bound. */
  lemma {:induction false} DeniedWindow(rate: real, start: real, calls: seq<real>, other: seq<bool>, n: nat)
    requires rate >= 0.0 && |other| == |calls| && n < |calls|
    requires var ds := Decisions(NewBucket(rate, start), calls);
      !ds[n] && other[n] && Count(other[..n]) == Count(ds[..n])
    requires forall m :: 0 <= m <= n ==> Count(other[..m]) <= Count(Decisions(NewBucket(rate, start), calls)[..m])
    ensures !ObeysRate(rate, start, calls, other)
  {
    hide Decisions, After, Level, Allowance, Count, NewBucket, ObeysRate;
    ObeysRateIff(rate, start, calls, other);
    var b := NewBucket(rate, start);
    var ds := Decisions(b, calls);
    var at := LevelIsTightest(b, calls, n);
    AfterCall(b, calls, n);
    CountSplit(ds[..n], at);
    CountSplit(other[..n], at);
    assert ds[..n][..at] == ds[..at] && ds[..n][at..] == ds[at..n];
    assert other[..n][..at] == other[..at] && other[..n][at..] == other[at..n];
    CountStep(other, at, n + 1);
    assert Count(other[at..n + 1]) as real > Allowance(b, calls, at, n);
  }

  /** Given the same past, nobody who obeys the bound admits what the bucket denies. */
  lemma DenialIsForced(rate: real, start: real, calls: seq<real>, other: seq<bool>, n: nat)
    requires rate >= 0.0 && |other| == |calls| && n < |calls|
    requires ObeysRate(rate, start, calls, other)
    requires other[..n] == Decisions(NewBucket(rate, start), calls)[..n]
    ensures other[n] ==> Decisions(NewBucket(rate, start), calls)[n]
  {
    BucketDominates(rate, start, calls, other, n + 1);
    var ds := Decisions(NewBucket(rate, start), calls);
    CountStep(other, 0, n + 1);
    CountStep(ds, 0, n + 1);
    assert other[0..n + 1] == other[..n + 1] && ds[0..n + 1] == ds[..n + 1];
    assert other[0..n] == other[..n] && ds[0..n] == ds[..n];
  }
}
