/** Per-tenant rate limits: one bucket per limited tenant and one shared by all unknown tenants. */
module Registries {
  import opened Options
  import opened Limiter

  /** Rates are validated to be non-negative; 0 means "inherit" for a tenant and "none" by default. */
  datatype Tenant = Tenant(id: string, rateLimit: nat)

  datatype Tenancy = Tenancy(enabled: bool, defaultRateLimit: nat, tenants: seq<Tenant>)

  /** The limits in force, as values. */
  datatype Limits = Limits(
    enabled: bool,
    known: set<string>,
    limiters: map<string, Bucket>,
    defaultLim: Option<Bucket>)

  function EffectiveRate(defaultRate: nat, t: Tenant): nat {
    if t.rateLimit == 0 then defaultRate else t.rateLimit
  }

  function WithTenant(l: Limits, t: Tenant, defaultRate: nat, now: real): Limits {
    var rate := EffectiveRate(defaultRate, t);
    if t.id == "" then l
    else if rate > 0 then
      l.(known := l.known + {t.id}, limiters := l.limiters[t.id := NewBucket(rate as real, now)])
    else l.(known := l.known + {t.id})
  }

  class Registry {
    const enabled: bool
    var known: set<string>
    var limiters: map<string, TokenBucket>
    var defaultLim: TokenBucket?

    /** No two tenants share a bucket, and none shares the default bucket. */
    ghost predicate Valid()
      reads this
    {
      && (forall s, t :: s in limiters && t in limiters && s != t ==> limiters[s] != limiters[t])
      && (forall t :: t in limiters ==> limiters[t] != defaultLim)
    }

    ghost function Buckets(): set<object>
      reads this
    {
      (set t | t in limiters :: limiters[t] as object) + (if defaultLim == null then {} else {defaultLim})
    }

    function View(): Limits
      reads this, Buckets()
    {
      Limits(enabled, known, map t | t in limiters :: limiters[t].View(),
        if defaultLim == null then None else Some(defaultLim.View()))
    }

    /** `now` is the clock when the default bucket is made and `clock[i]` when tenant i's is made. */
    constructor (cfg: Tenancy, now: real, clock: seq<real>)
      requires |clock| == |cfg.tenants|
      ensures Valid() && enabled == cfg.enabled
      ensures View() == Configured(cfg, now, clock, |cfg.tenants|)
      ensures fresh(Buckets())
    {
      enabled := cfg.enabled;
      known := {};
      limiters := map[];
      defaultLim := null;
      new;
      if cfg.defaultRateLimit > 0 {
        defaultLim := new TokenBucket(cfg.defaultRateLimit as real, now);
      }
      for i := 0 to |cfg.tenants|
        invariant Valid() && fresh(Buckets())
        invariant View() == Configured(cfg, now, clock, i)
      {
        AddTenant(cfg.tenants[i], cfg.defaultRateLimit, clock[i]);
      }
    }

    /** One turn of the constructor's loop. */
    method AddTenant(t: Tenant, defaultRate: nat, now: real)
      requires Valid()
      modifies this`known, this`limiters
      ensures Valid() && fresh(Buckets() - old(Buckets()))
      ensures View() == WithTenant(old(View()), t, defaultRate, now)
    {
      if t.id == "" {
        return;
      }
      known := known + {t.id};
      ghost var listed := View();
      assert listed == old(View()).(known := old(View()).known + {t.id});
      var rate := t.rateLimit;
      if rate == 0 {
        rate := defaultRate;
      }
      hide Registry.View;
      if rate > 0 {
        var bucket := new TokenBucket(rate as real, now);
        assert View() == listed;
        Install(t.id, bucket);
      }
    }

    method Install(id: string, bucket: TokenBucket)
      requires Valid() && bucket !in Buckets()
      modifies this`limiters
      ensures Valid() && Buckets() <= old(Buckets()) + {bucket}
      ensures View() == old(View()).(limiters := old(View()).limiters[id := bucket.View()])
    {
      limiters := limiters[id := bucket];
    }

    method Allow(tenantId: string, now: real) returns (admitted: bool)
      requires Valid()
      modifies Buckets()
      ensures Valid() && Buckets() == old(Buckets())
      ensures (admitted, View()) == AllowTenant(old(View()), tenantId, now)
    {
      if !enabled {
        return true;
      }
      if tenantId in known {
        if tenantId in limiters {
          admitted := limiters[tenantId].Allow(now);
          assert forall t :: t in limiters && t != tenantId ==> limiters[t].View() == old(limiters[t].View());
          assert View().limiters == old(View()).limiters[tenantId := limiters[tenantId].View()];
          return;
        }
        return true;
      }
      if defaultLim != null {
        admitted := defaultLim.Allow(now);
        assert forall t :: t in limiters ==> limiters[t].View() == old(limiters[t].View());
        assert View().limiters == old(View()).limiters;
        return;
      }
      return true;
    }
  }

  /** The limits after the first `n` configured tenants. */
  function Configured(cfg: Tenancy, now: real, clock: seq<real>, n: nat): Limits
    requires n <= |cfg.tenants| == |clock|
  {
    if n == 0 then
      Limits(cfg.enabled, {}, map[],
        if cfg.defaultRateLimit > 0 then Some(NewBucket(cfg.defaultRateLimit as real, now)) else None)
    else
      WithTenant(Configured(cfg, now, clock, n - 1), cfg.tenants[n - 1], cfg.defaultRateLimit, clock[n - 1])
  }

  function AllowTenant(l: Limits, tenantId: string, now: real): (bool, Limits) {
    if !l.enabled then (true, l)
    else if tenantId in l.known then
      if tenantId in l.limiters then
        var (admitted, after) := AllowSpec(l.limiters[tenantId], now);
        (admitted, l.(limiters := l.limiters[tenantId := after]))
      else (true, l)
    else match l.defaultLim
      case None => (true, l)
      case Some(b) =>
        var (admitted, after) := AllowSpec(b, now);
        (admitted, l.(defaultLim := Some(after)))
  }

  lemma DisabledAdmits(l: Limits, tenantId: string, now: real)
    ensures !l.enabled ==> AllowTenant(l, tenantId, now) == (true, l)
  {
  }

  /** The tenant with this id among the first `n`, if any. */
  ghost predicate Listed(cfg: Tenancy, n: nat, id: string)
    requires n <= |cfg.tenants|
  {
    exists i :: 0 <= i < n && cfg.tenants[i].id == id
  }

  /** What the limits hold for configured tenant `i`. */
  ghost predicate LimitFor(cfg: Tenancy, clock: seq<real>, l: Limits, i: nat)
    requires i < |cfg.tenants| == |clock|
  {
    var t := cfg.tenants[i];
    var rate := if t.rateLimit > 0 then t.rateLimit else cfg.defaultRateLimit;
    && (t.id in l.limiters <==> rate > 0)
    && (rate > 0 ==> l.limiters[t.id] == NewBucket(rate as real, clock[i]))
  }

  /**
   * What a valid configuration means: with distinct ids, a tenant is known when it is listed, and it
   * has a bucket of its own exactly when its rate, or the inherited one, is positive.
   */
  lemma {:induction false} ConfiguredMeaning(cfg: Tenancy, now: real, clock: seq<real>, n: nat)
    requires n <= |cfg.tenants| == |clock|
    requires forall i, j :: 0 <= i < j < |cfg.tenants| ==> cfg.tenants[i].id != cfg.tenants[j].id
    ensures var l := Configured(cfg, now, clock, n);
      && (forall id :: id in l.known <==> id != "" && Listed(cfg, n, id))
      && (forall i :: 0 <= i < n && cfg.tenants[i].id != "" ==> LimitFor(cfg, clock, l, i))
      && l.limiters.Keys <= l.known
      && (cfg.defaultRateLimit > 0 ==> l.defaultLim == Some(NewBucket(cfg.defaultRateLimit as real, now)))
      && (cfg.defaultRateLimit == 0 ==> l.defaultLim == None)
      && l.enabled == cfg.enabled
  {
    hide Configured, Listed, LimitFor, NewBucket, WithTenant, EffectiveRate;
    if n == 0 {
      NothingConfigured(cfg, now, clock);
    } else {
      ConfiguredMeaning(cfg, now, clock, n - 1);
      ConfiguredStep(cfg, now, clock, n);
      TenantKnown(cfg, Configured(cfg, now, clock, n - 1), clock, n);
      TenantLimited(cfg, Configured(cfg, now, clock, n - 1), clock, n);
    }
  }

  lemma NothingConfigured(cfg: Tenancy, now: real, clock: seq<real>)
    requires |clock| == |cfg.tenants|
    ensures var l := Configured(cfg, now, clock, 0);
      && (forall id :: id !in l.known && !Listed(cfg, 0, id)) && l.limiters == map[] && l.enabled == cfg.enabled
      && (cfg.defaultRateLimit > 0 ==> l.defaultLim == Some(NewBucket(cfg.defaultRateLimit as real, now)))
      && (cfg.defaultRateLimit == 0 ==> l.defaultLim == None)
  {
  }

  lemma TenantKnown(cfg: Tenancy, before: Limits, clock: seq<real>, n: nat)
    requires 0 < n <= |cfg.tenants| == |clock|
    requires (forall id :: id in before.known <==> id != "" && Listed(cfg, n - 1, id)) && before.limiters.Keys <= before.known
    ensures var l := WithTenant(before, cfg.tenants[n - 1], cfg.defaultRateLimit, clock[n - 1]);
      && (forall id :: id in l.known <==> id != "" && Listed(cfg, n, id))
      && l.limiters.Keys <= l.known && l.enabled == before.enabled && l.defaultLim == before.defaultLim
  {
    ListedStep(cfg, n);
    hide Listed, NewBucket;
  }

  lemma TenantLimited(cfg: Tenancy, before: Limits, clock: seq<real>, n: nat)
    requires 0 < n <= |cfg.tenants| == |clock|
    requires forall i, j :: 0 <= i < j < |cfg.tenants| ==> cfg.tenants[i].id != cfg.tenants[j].id
    requires (forall id :: id in before.known <==> id != "" && Listed(cfg, n - 1, id)) && before.limiters.Keys <= before.known
    requires forall i :: 0 <= i < n - 1 && cfg.tenants[i].id != "" ==> LimitFor(cfg, clock, before, i)
    ensures var l := WithTenant(before, cfg.tenants[n - 1], cfg.defaultRateLimit, clock[n - 1]);
      forall i :: 0 <= i < n && cfg.tenants[i].id != "" ==> LimitFor(cfg, clock, l, i)
  {
    hide Listed, LimitFor, WithTenant;
    NotYetLimited(cfg, before, n);
    forall i | 0 <= i < n && cfg.tenants[i].id != ""
      ensures LimitFor(cfg, clock, WithTenant(before, cfg.tenants[n - 1], cfg.defaultRateLimit, clock[n - 1]), i)
    {
      LimitStep(cfg, clock, before, n, i);
    }
  }

  lemma ConfiguredStep(cfg: Tenancy, now: real, clock: seq<real>, n: nat)
    requires 0 < n <= |cfg.tenants| == |clock|
    ensures Configured(cfg, now, clock, n)
      == WithTenant(Configured(cfg, now, clock, n - 1), cfg.tenants[n - 1], cfg.defaultRateLimit, clock[n - 1])
  {
  }

  lemma ListedStep(cfg: Tenancy, n: nat)
    requires 0 < n <= |cfg.tenants|
    ensures forall id :: Listed(cfg, n, id) <==> Listed(cfg, n - 1, id) || id == cfg.tenants[n - 1].id
  {
    forall id ensures Listed(cfg, n, id) <==> Listed(cfg, n - 1, id) || id == cfg.tenants[n - 1].id {
      if Listed(cfg, n, id) && id != cfg.tenants[n - 1].id {
        var i :| 0 <= i < n && cfg.tenants[i].id == id;
        assert i < n - 1;
      }
    }
  }

  lemma NotYetLimited(cfg: Tenancy, l: Limits, n: nat)
    requires 0 < n <= |cfg.tenants|
    requires forall i, j :: 0 <= i < j < |cfg.tenants| ==> cfg.tenants[i].id != cfg.tenants[j].id
    requires l.limiters.Keys <= l.known && forall id :: id in l.known ==> Listed(cfg, n - 1, id)
    ensures cfg.tenants[n - 1].id !in l.limiters
  {
    var id := cfg.tenants[n - 1].id;
    assert !Listed(cfg, n - 1, id);
    assert id !in l.known;
  }

  lemma LimitStep(cfg: Tenancy, clock: seq<real>, before: Limits, n: nat, i: nat)
    requires i < n <= |cfg.tenants| == |clock| && cfg.tenants[i].id != ""
    requires forall i, j :: 0 <= i < j < |cfg.tenants| ==> cfg.tenants[i].id != cfg.tenants[j].id
    requires if i < n - 1 then LimitFor(cfg, clock, before, i) else cfg.tenants[i].id !in before.limiters
    ensures LimitFor(cfg, clock, WithTenant(before, cfg.tenants[n - 1], cfg.defaultRateLimit, clock[n - 1]), i)
  {
  }

  // ---- Non-interference ------------------------------------------------------------------------

  datatype Call = Call(tenantId: string, now: real)

  /** Which bucket a tenant's calls are charged to. */
  datatype Account = Own(id: string) | Shared | Unlimited

  function AccountOf(l: Limits, tenantId: string): Account {
    if !l.enabled then Unlimited
    else if tenantId in l.known then (if tenantId in l.limiters then Own(tenantId) else Unlimited)
    else if l.defaultLim.Some? then Shared else Unlimited
  }

  function BucketOf(l: Limits, a: Account): Option<Bucket> {
    match a
    case Own(id) => if id in l.limiters then Some(l.limiters[id]) else None
    case Shared => l.defaultLim
    case Unlimited => None
  }

  function AfterCalls(l: Limits, calls: seq<Call>): Limits {
    if calls == [] then l else
      var last := calls[|calls| - 1];
      AllowTenant(AfterCalls(l, calls[..|calls| - 1]), last.tenantId, last.now).1
  }

  function CallDecisions(l: Limits, calls: seq<Call>): (ds: seq<bool>)
    ensures |ds| == |calls|
  {
    if calls == [] then [] else
      var front, last := calls[..|calls| - 1], calls[|calls| - 1];
      CallDecisions(l, front) + [AllowTenant(AfterCalls(l, front), last.tenantId, last.now).0]
  }

  /** The clock readings of the calls charged to account `a`, and the decisions on them. */
  function TimesFor(l: Limits, calls: seq<Call>, a: Account): seq<real> {
    if calls == [] then [] else
      var front := TimesFor(l, calls[..|calls| - 1], a);
      var last := calls[|calls| - 1];
      if AccountOf(l, last.tenantId) == a then front + [last.now] else front
  }

  function DecisionsFor(l: Limits, calls: seq<Call>, ds: seq<bool>, a: Account): seq<bool>
    requires |ds| == |calls|
  {
    if calls == [] then [] else
      var front := DecisionsFor(l, calls[..|calls| - 1], ds[..|ds| - 1], a);
      if AccountOf(l, calls[|calls| - 1].tenantId) == a then front + [ds[|ds| - 1]] else front
  }

  /** No call moves a tenant to another account. */
  lemma {:induction false} AccountsFixed(l: Limits, calls: seq<Call>)
    ensures forall id :: AccountOf(AfterCalls(l, calls), id) == AccountOf(l, id)
    ensures AfterCalls(l, calls).enabled == l.enabled
  {
    if calls != [] {
      AccountsFixed(l, calls[..|calls| - 1]);
    }
  }

  /**
   * Non-interference. However the calls of all tenants are interleaved, the decisions on one account
   * are those of a standalone bucket fed with that account's calls only: a limited tenant has such a
   * bucket to itself, and all unknown tenants together share one.
   */
  lemma {:induction false} AccountsDoNotInterfere(l: Limits, calls: seq<Call>, a: Account)
    requires BucketOf(l, a).Some?
    ensures var b, times := BucketOf(l, a).value, TimesFor(l, calls, a);
      && BucketOf(AfterCalls(l, calls), a) == Some(After(b, times))
      && DecisionsFor(l, calls, CallDecisions(l, calls), a) == Decisions(b, times)
  {
    if calls != [] {
      var front, last := calls[..|calls| - 1], calls[|calls| - 1];
      AccountsDoNotInterfere(l, front, a);
      AccountsFixed(l, front);
      var ds := CallDecisions(l, calls);
      assert ds[..|ds| - 1] == CallDecisions(l, front);
      assert AccountOf(AfterCalls(l, front), last.tenantId) == AccountOf(l, last.tenantId);
      if AccountOf(l, last.tenantId) == a {
        DecisionsSnoc(BucketOf(l, a).value, TimesFor(l, front, a), last.now);
      }
    }
  }

  /** Calls with no effective limit are always admitted, whatever the others do. */
  lemma {:induction false} UnlimitedAlwaysAdmitted(l: Limits, calls: seq<Call>, i: nat)
    requires i < |calls| && AccountOf(l, calls[i].tenantId) == Unlimited
    ensures CallDecisions(l, calls)[i]
  {
    var front := calls[..|calls| - 1];
    if i < |front| {
      UnlimitedAlwaysAdmitted(l, front, i);
    } else {
      AccountsFixed(l, front);
      assert AccountOf(AfterCalls(l, front), calls[i].tenantId) == Unlimited;
    }
  }

  /** Which bucket a call is charged to, from the configuration alone. */
  lemma WhoIsCharged(cfg: Tenancy, now: real, clock: seq<real>, id: string)
    requires |clock| == |cfg.tenants|
    requires forall i, j :: 0 <= i < j < |cfg.tenants| ==> cfg.tenants[i].id != cfg.tenants[j].id
    ensures var l := Configured(cfg, now, clock, |clock|);
      && (!cfg.enabled ==> AccountOf(l, id) == Unlimited)
      && (cfg.enabled && (id == "" || !Listed(cfg, |clock|, id)) ==>
          AccountOf(l, id) == if cfg.defaultRateLimit > 0 then Shared else Unlimited)
      && (cfg.enabled && id != "" ==> forall i :: 0 <= i < |clock| && cfg.tenants[i].id == id ==>
          AccountOf(l, id) == if cfg.tenants[i].rateLimit > 0 || cfg.defaultRateLimit > 0 then Own(id) else Unlimited)
  {
    ConfiguredMeaning(cfg, now, clock, |clock|);
    hide Configured;
    forall i | 0 <= i < |clock| && cfg.tenants[i].id == id && id != ""
      ensures Listed(cfg, |clock|, id) && LimitFor(cfg, clock, Configured(cfg, now, clock, |clock|), i)
    {
    }
  }

  /** An account with a bucket of some rate gets what that rate allows, no more and no less. */
  lemma AccountBucket(l: Limits, a: Account, rate: nat, start: real, calls: seq<Call>, other: seq<bool>)
    requires rate > 0 && BucketOf(l, a) == Some(NewBucket(rate as real, start))
    ensures var times, ds := TimesFor(l, calls, a), DecisionsFor(l, calls, CallDecisions(l, calls), a);
      && |ds| == |times| && ObeysRate(rate as real, start, times, ds)
      && (|other| == |times| && ObeysRate(rate as real, start, times, other) ==> Count(other) <= Count(ds))
  {
    hide Count, Decisions, NewBucket, ObeysRate;
    AccountsDoNotInterfere(l, calls, a);
    var times := TimesFor(l, calls, a);
    BucketObeys(rate as real, start, times);
    if |other| == |times| && ObeysRate(rate as real, start, times, other) {
      BucketDominates(rate as real, start, times, other, |times|);
      var ds := Decisions(NewBucket(rate as real, start), times);
      assert other[..|times|] == other && ds[..|times|] == ds;
    }
  }

  /**
   * The two halves together: a configured tenant with a positive rate is held to the bound of its own
   * rate, or of the inherited one, in every window of its own calls, and no pattern within that bound
   * admits more.
   */
  lemma TenantGetsItsRate(cfg: Tenancy, now: real, clock: seq<real>, calls: seq<Call>, i: nat, other: seq<bool>)
    requires i < |cfg.tenants| == |clock| && cfg.enabled
    requires forall i, j :: 0 <= i < j < |cfg.tenants| ==> cfg.tenants[i].id != cfg.tenants[j].id
    requires cfg.tenants[i].id != "" && (cfg.tenants[i].rateLimit > 0 || cfg.defaultRateLimit > 0)
    ensures var l := Configured(cfg, now, clock, |clock|);
      var own := Own(cfg.tenants[i].id);
      var rate := (if cfg.tenants[i].rateLimit > 0 then cfg.tenants[i].rateLimit else cfg.defaultRateLimit) as real;
      var times := TimesFor(l, calls, own);
      var ds := DecisionsFor(l, calls, CallDecisions(l, calls), own);
      && AccountOf(l, cfg.tenants[i].id) == own
      && |ds| == |times| && ObeysRate(rate, clock[i], times, ds)
      && (|other| == |times| && ObeysRate(rate, clock[i], times, other) ==> Count(other) <= Count(ds))
  {
    hide Configured, NewBucket, ObeysRate, Count;
    ConfiguredMeaning(cfg, now, clock, |clock|);
    WhoIsCharged(cfg, now, clock, cfg.tenants[i].id);
    var l := Configured(cfg, now, clock, |clock|);
    var rate := if cfg.tenants[i].rateLimit > 0 then cfg.tenants[i].rateLimit else cfg.defaultRateLimit;
    assert LimitFor(cfg, clock, l, i);
    AccountBucket(l, Own(cfg.tenants[i].id), rate, clock[i], calls, other);
  }

  /** All tenants that are not listed share the default rate, together. */
  lemma OthersShareDefaultRate(cfg: Tenancy, now: real, clock: seq<real>, calls: seq<Call>, other: seq<bool>)
    requires |cfg.tenants| == |clock| && cfg.enabled && cfg.defaultRateLimit > 0
    requires forall i, j :: 0 <= i < j < |cfg.tenants| ==> cfg.tenants[i].id != cfg.tenants[j].id
    ensures var l := Configured(cfg, now, clock, |clock|);
      var times := TimesFor(l, calls, Shared);
      var ds := DecisionsFor(l, calls, CallDecisions(l, calls), Shared);
      && (forall id :: !Listed(cfg, |clock|, id) ==> AccountOf(l, id) == Shared)
      && |ds| == |times| && ObeysRate(cfg.defaultRateLimit as real, now, times, ds)
      && (|other| == |times| && ObeysRate(cfg.defaultRateLimit as real, now, times, other) ==> Count(other) <= Count(ds))
  {
    hide Configured, NewBucket, ObeysRate, Count;
    ConfiguredMeaning(cfg, now, clock, |clock|);
    var l := Configured(cfg, now, clock, |clock|);
    forall id | !Listed(cfg, |clock|, id) ensures AccountOf(l, id) == Shared {
      WhoIsCharged(cfg, now, clock, id);
    }
    AccountBucket(l, Shared, cfg.defaultRateLimit, now, calls, other);
  }
}
