/**
 Token-bucket rate limiting with eviction of idle visitors (middleware/ratelimit.go).

 Times and tokens are reals. A request reads the clock up to three times: when it
 creates a visitor, when it measures the elapsed time, and when it stores the visit.
 */
module RateLimit {
  /** `rate` is computed once, as limit / window. */
  datatype Config = Config(limit: nat, window: real, rate: real) {
    ghost predicate Valid() { window > 0.0 && rate >= 0.0 && Gain(window) == Cap() }

    function Cap(): real { limit as real }

    /** Tokens earned in a span of time. */
    function Gain(d: real): real { d * rate }
  }

  lemma GainGrows(cfg: Config, a: real, b: real)
    requires a <= b && cfg.rate >= 0.0
    ensures cfg.Gain(a) <= cfg.Gain(b)
  {
  }

  lemma GainAdds(cfg: Config, a: real, b: real, c: real)
    requires c == a + b
    ensures cfg.Gain(c) == cfg.Gain(a) + cfg.Gain(b)
  {
  }

  datatype Visitor = Visitor(tokens: real, last: real)

  type Visitors = map<string, Visitor>

  datatype Event =
    | Request(ip: string, created: real, measured: real, stored: real)
    | Evict(ip: string, now: real)

  function Min(a: real, b: real): real { if a < b then a else b }

  /** Tokens after refilling for the time since the last visit, capped. */
  function Refilled(cfg: Config, v: Visitor, now: real): real
    requires cfg.Valid()
  {
    Min(cfg.Cap(), v.tokens + cfg.Gain(now - v.last))
  }

  function Seen(cfg: Config, vs: Visitors, ip: string, created: real): Visitor {
    if ip in vs then vs[ip] else Visitor(cfg.Cap(), created)
  }

  predicate Admits(cfg: Config, vs: Visitors, r: Event)
    requires cfg.Valid() && r.Request?
  {
    Refilled(cfg, Seen(cfg, vs, r.ip, r.created), r.measured) >= 1.0
  }

  function Handle(cfg: Config, vs: Visitors, r: Event): Visitors
    requires cfg.Valid() && r.Request?
  {
    var tokens := Refilled(cfg, Seen(cfg, vs, r.ip, r.created), r.measured);
    vs[r.ip := Visitor(if Admits(cfg, vs, r) then tokens - 1.0 else tokens, r.stored)]
  }

  /** The cleanup drops a visitor idle for more than two windows. */
  predicate Idle(cfg: Config, v: Visitor, now: real) { now - v.last > 2.0 * cfg.window }

  function Dropped(cfg: Config, vs: Visitors, ip: string, now: real): Visitors {
    if ip in vs && Idle(cfg, vs[ip], now) then vs - {ip} else vs
  }

  function Step(cfg: Config, vs: Visitors, e: Event): Visitors
    requires cfg.Valid()
  {
    if e.Request? then Handle(cfg, vs, e) else Dropped(cfg, vs, e.ip, e.now)
  }

  function Begins(e: Event): real { if e.Request? then e.created else e.now }
  function Ends(e: Event): real { if e.Request? then e.stored else e.now }

  /** Clock readings do not go back, starting from `clock`. */
  ghost predicate Monotone(clock: real, es: seq<Event>)
    decreases |es|
  {
    es == [] || (
      && clock <= Begins(es[0]) <= Ends(es[0])
      && (es[0].Request? ==> es[0].created <= es[0].measured <= es[0].stored)
      && Monotone(Ends(es[0]), es[1..]))
  }

  /** The verdicts on the requests of a run, in order. */
  function Verdicts(cfg: Config, vs: Visitors, es: seq<Event>): seq<bool>
    requires cfg.Valid()
    decreases |es|
  {
    if es == [] then []
    else (if es[0].Request? then [Admits(cfg, vs, es[0])] else []) + Verdicts(cfg, Step(cfg, vs, es[0]), es[1..])
  }

  function Run(cfg: Config, vs: Visitors, es: seq<Event>): Visitors
    requires cfg.Valid()
    decreases |es|
  {
    if es == [] then vs else Run(cfg, Step(cfg, vs, es[0]), es[1..])
  }

  // ------------------------------------------------------------ tokens stay within the bucket

  ghost predicate Sound(cfg: Config, vs: Visitors, clock: real) {
    forall ip :: ip in vs ==> 0.0 <= vs[ip].tokens <= cfg.Cap() && vs[ip].last <= clock
  }

  lemma StepSound(cfg: Config, vs: Visitors, e: Event, clock: real)
    requires cfg.Valid() && Sound(cfg, vs, clock) && Monotone(clock, [e])
    ensures Sound(cfg, Step(cfg, vs, e), Ends(e))
  {
    if e.Request? {
      GainGrows(cfg, 0.0, e.measured - Seen(cfg, vs, e.ip, e.created).last);
    }
  }

  /** Over every run on a monotone clock the tokens of every visitor stay in [0, limit]. */
  lemma {:induction false} RunSound(cfg: Config, vs: Visitors, es: seq<Event>, clock: real)
    requires cfg.Valid() && Sound(cfg, vs, clock) && Monotone(clock, es)
    ensures forall ip :: ip in Run(cfg, vs, es) ==> 0.0 <= Run(cfg, vs, es)[ip].tokens <= cfg.Cap()
    decreases |es|
  {
    if es != [] {
      assert [es[0]][1..] == [];
      StepSound(cfg, vs, es[0], clock);
      RunSound(cfg, Step(cfg, vs, es[0]), es[1..], Ends(es[0]));
    }
  }

  // ------------------------------------------------------------ the rate bound

  /** Number of requests of one client admitted in a run. */
  function Admitted(cfg: Config, vs: Visitors, es: seq<Event>, ip: string): nat
    requires cfg.Valid()
    decreases |es|
  {
    if es == [] then 0
    else (if es[0].Request? && es[0].ip == ip && Admits(cfg, vs, es[0]) then 1 else 0)
         + Admitted(cfg, Step(cfg, vs, es[0]), es[1..], ip)
  }

  /** What a client could spend at a given time. */
  function Credit(cfg: Config, vs: Visitors, ip: string, now: real): real
    requires cfg.Valid()
  {
    if ip in vs then Refilled(cfg, vs[ip], now) else cfg.Cap()
  }

  /** The time an event leaves the client's account settled at. */
  function Settled(e: Event, ip: string, clock: real): real {
    if e.ip != ip then clock else Ends(e)
  }

  /** One event spends at most what the credit and the passing time allow. */
  lemma StepSpends(cfg: Config, vs: Visitors, e: Event, ip: string, clock: real)
    requires cfg.Valid() && Sound(cfg, vs, clock) && Monotone(clock, [e])
    ensures
      var spent := if e.Request? && e.ip == ip && Admits(cfg, vs, e) then 1.0 else 0.0;
      var settled := Settled(e, ip, clock);
      spent + Credit(cfg, Step(cfg, vs, e), ip, settled) <= Credit(cfg, vs, ip, clock) + cfg.Gain(settled - clock)
  {
    if e.ip != ip {
      GainAdds(cfg, 0.0, 0.0, 0.0);
    } else if e.Request? {
      RequestSpends(cfg, vs, e, clock);
    } else {
      CreditGrows(cfg, vs, ip, clock, e.now);
      if ip in vs && Idle(cfg, vs[ip], e.now) { IdleIsFull(cfg, vs[ip], e.now); }
    }
  }

  lemma RequestSpends(cfg: Config, vs: Visitors, e: Event, clock: real)
    requires cfg.Valid() && Sound(cfg, vs, clock) && e.Request? && Monotone(clock, [e])
    ensures
      (if Admits(cfg, vs, e) then 1.0 else 0.0) + Credit(cfg, Handle(cfg, vs, e), e.ip, e.stored)
        <= Credit(cfg, vs, e.ip, clock) + cfg.Gain(e.stored - clock)
  {
    var v := Seen(cfg, vs, e.ip, e.created);
    GainAdds(cfg, 0.0, 0.0, e.stored - e.stored);
    GainGrows(cfg, 0.0, e.measured - clock);
    GainGrows(cfg, e.measured - clock, e.stored - clock);
    if e.ip in vs { GainAdds(cfg, clock - v.last, e.measured - clock, e.measured - v.last); }
  }

  /** After more than two windows the bucket is full again. */
  lemma IdleIsFull(cfg: Config, v: Visitor, now: real)
    requires cfg.Valid() && v.tokens >= 0.0 && Idle(cfg, v, now)
    ensures Refilled(cfg, v, now) == cfg.Cap()
  {
    GainGrows(cfg, cfg.window, now - v.last);
  }

  lemma {:induction false} SpendingBound(cfg: Config, vs: Visitors, es: seq<Event>, ip: string, clock: real, end: real)
    requires cfg.Valid() && Sound(cfg, vs, clock) && Monotone(clock, es) && clock <= end
    requires forall i :: 0 <= i < |es| ==> Ends(es[i]) <= end
    ensures Admitted(cfg, vs, es, ip) as real <= Credit(cfg, vs, ip, clock) + cfg.Gain(end - clock)
    decreases |es|
  {
    if es == [] {
      GainGrows(cfg, 0.0, end - clock);
      if ip in vs { GainGrows(cfg, 0.0, clock - vs[ip].last); }
    } else {
      var e, rest := es[0], es[1..];
      var vs', settled := Step(cfg, vs, e), Settled(e, ip, clock);
      assert Monotone(clock, [e]) by { assert [e][1..] == []; }
      StepSound(cfg, vs, e, clock);
      StepSpends(cfg, vs, e, ip, clock);
      assert forall i :: 0 <= i < |rest| ==> rest[i] == es[i + 1];
      SpendingBound(cfg, vs', rest, ip, Ends(e), end);
      CreditGrows(cfg, vs', ip, settled, Ends(e));
      GainAdds(cfg, settled - clock, Ends(e) - settled, Ends(e) - clock);
      GainAdds(cfg, Ends(e) - clock, end - Ends(e), end - clock);
    }
  }

  lemma CreditGrows(cfg: Config, vs: Visitors, ip: string, t: real, u: real)
    requires cfg.Valid() && t <= u
    ensures Credit(cfg, vs, ip, u) <= Credit(cfg, vs, ip, t) + cfg.Gain(u - t)
  {
    GainGrows(cfg, 0.0, u - t);
    if ip in vs { GainAdds(cfg, t - vs[ip].last, u - t, u - vs[ip].last); }
  }

  /** `before` and then `es` happen on one monotone clock, `es` between start and end. */
  ghost predicate Timeline(before: seq<Event>, es: seq<Event>, start: real, end: real) {
    && (before != [] ==> Monotone(Begins(before[0]), before))
    && (forall i :: 0 <= i < |before| ==> Begins(before[i]) <= Ends(before[i]) <= start)
    && start <= end && Monotone(start, es) && forall i :: 0 <= i < |es| ==> Ends(es[i]) <= end
  }

  /** In every interval of length T = end - start a client has at most limit + Gain(T)
      requests admitted, that is limit + limit * T / window (GainIsShare), whatever
      happened before and evictions included. */
  lemma RateBound(cfg: Config, before: seq<Event>, es: seq<Event>, ip: string, start: real, end: real)
    requires cfg.Valid() && Timeline(before, es, start, end)
    ensures Admitted(cfg, Run(cfg, map[], before), es, ip) as real <= cfg.Cap() + cfg.Gain(end - start)
  {
    if before != [] { RunClock(cfg, map[], before, Begins(before[0]), start); }
    SpendingBound(cfg, Run(cfg, map[], before), es, ip, start, end);
  }

  /** What a span of time earns is its share of the window. */
  lemma GainIsShare(cfg: Config, d: real)
    requires cfg.Valid()
    ensures cfg.Gain(d) == cfg.Cap() * d / cfg.window
  {
    assert (d * cfg.rate) * cfg.window == d * (cfg.rate * cfg.window);
  }

  lemma {:induction false} RunClock(cfg: Config, vs: Visitors, es: seq<Event>, clock: real, end: real)
    requires cfg.Valid() && Sound(cfg, vs, clock) && Monotone(clock, es) && clock <= end
    requires forall i :: 0 <= i < |es| ==> Ends(es[i]) <= end
    ensures Sound(cfg, Run(cfg, vs, es), end)
    decreases |es|
  {
    if es != [] {
      assert [es[0]][1..] == [];
      StepSound(cfg, vs, es[0], clock);
      assert forall i :: 0 <= i < |es[1..]| ==> es[1..][i] == es[i + 1];
      RunClock(cfg, Step(cfg, vs, es[0]), es[1..], Ends(es[0]), end);
    }
  }

  // ------------------------------------------------------------ eviction is unobservable

  function Requests(es: seq<Event>): seq<Event> {
    if es == [] then [] else (if es[0].Request? then [es[0]] else []) + Requests(es[1..])
  }

  /** The evicting limiter knows a part of what the other one knows; the visitors it has
      forgotten have been idle for more than two windows. */
  ghost predicate Similar(cfg: Config, vs: Visitors, all: Visitors, clock: real) {
    && Sound(cfg, all, clock)
    && (forall ip :: ip in vs ==> ip in all && all[ip] == vs[ip])
    && (forall ip :: ip in all && ip !in vs ==> Idle(cfg, all[ip], clock))
  }

  lemma SimilarRequest(cfg: Config, vs: Visitors, all: Visitors, r: Event, clock: real)
    requires cfg.Valid() && Similar(cfg, vs, all, clock) && r.Request? && Monotone(clock, [r])
    ensures Admits(cfg, vs, r) == Admits(cfg, all, r)
    ensures Similar(cfg, Handle(cfg, vs, r), Handle(cfg, all, r), r.stored)
  {
    StepSound(cfg, all, r, clock);
    if r.ip in all && r.ip !in vs {
      IdleIsFull(cfg, all[r.ip], r.measured);
    }
    if r.ip !in vs { GainGrows(cfg, 0.0, r.measured - r.created); }
    assert Refilled(cfg, Seen(cfg, vs, r.ip, r.created), r.measured) == Refilled(cfg, Seen(cfg, all, r.ip, r.created), r.measured);
  }

  lemma {:induction false} SimilarRun(cfg: Config, vs: Visitors, all: Visitors, es: seq<Event>, clock: real)
    requires cfg.Valid() && Similar(cfg, vs, all, clock) && Monotone(clock, es)
    ensures Verdicts(cfg, vs, es) == Verdicts(cfg, all, Requests(es))
    decreases |es|
  {
    if es != [] {
      var e := es[0];
      assert [e][1..] == [];
      if e.Request? {
        SimilarRequest(cfg, vs, all, e, clock);
        SimilarRun(cfg, Handle(cfg, vs, e), Handle(cfg, all, e), es[1..], e.stored);
        assert Requests(es)[1..] == Requests(es[1..]);
      } else {
        SimilarRun(cfg, Step(cfg, vs, e), all, es[1..], e.now);
        assert Requests(es) == Requests(es[1..]);
        assert Verdicts(cfg, vs, es) == Verdicts(cfg, Step(cfg, vs, e), es[1..]);
      }
    }
  }

  /** A limiter that evicts gives the same verdicts as one that never does. */
  lemma EvictionIsUnobservable(cfg: Config, es: seq<Event>, clock: real)
    requires cfg.Valid() && Monotone(clock, es)
    ensures Verdicts(cfg, map[], es) == Verdicts(cfg, map[], Requests(es))
  {
    SimilarRun(cfg, map[], map[], es, clock);
  }

  // ------------------------------------------------------------ the middleware

  class Limiter {
    const cfg: Config
    var visitors: Visitors

    constructor (cfg: Config)
      ensures this.cfg == cfg && visitors == map[]
    {
      this.cfg, visitors := cfg, map[];
    }

    /** The handler up to its decision; t1 <= t2 <= t3 are its clock readings. */
    method Allow(ip: string, t1: real, t2: real, t3: real) returns (ok: bool)
      requires cfg.Valid()
      modifies this`visitors
      ensures ok == Admits(cfg, old(visitors), Request(ip, t1, t2, t3))
      ensures visitors == Step(cfg, old(visitors), Request(ip, t1, t2, t3))
    {
      var v := if ip in visitors then visitors[ip] else Visitor(cfg.limit as real, t1);
      var tokens := v.tokens + (t2 - v.last) * cfg.rate;
      if tokens > cfg.limit as real { tokens := cfg.limit as real; }
      if tokens < 1.0 {
        visitors := visitors[ip := Visitor(tokens, t3)];
        return false;
      }
      visitors := visitors[ip := Visitor(tokens - 1.0, t3)];
      ok := true;
    }

    /** One round of the cleanup goroutine: every visitor is looked at once, in any order, and the
        clock is read again for each of them. It amounts to evictions, and exactly the visitors
        that are idle at their reading are gone. */
    method Cleanup(clock: nat -> real) returns (ghost es: seq<Event>)
      requires cfg.Valid()
      modifies this`visitors
      ensures visitors == Run(cfg, old(visitors), es)
      ensures Swept(cfg, old(visitors), visitors, es, clock, {})
    {
      es := [];
      var left, k := visitors.Keys, 0;
      while left != {}
        invariant visitors == Run(cfg, old(visitors), es) && |es| == k
        invariant Swept(cfg, old(visitors), visitors, es, clock, left)
      {
        var ip :| ip in left;
        var now := clock(k);
        RunAppend(cfg, old(visitors), es, Evict(ip, now));
        SweepOne(cfg, old(visitors), visitors, es, clock, left, ip);
        if now - visitors[ip].last > 2.0 * cfg.window { visitors := visitors - {ip}; }
        left, k, es := left - {ip}, k + 1, es + [Evict(ip, now)];
      }
    }
  }

  /** The visitors were looked at once each, at the times of the clock, except those still left; those
      that were idle then are gone, and the others are as they were. */
  ghost predicate Swept(cfg: Config, before: Visitors, vs: Visitors, es: seq<Event>, clock: nat -> real, left: set<string>) {
    && left <= before.Keys && vs.Keys <= before.Keys
    && (forall i :: 0 <= i < |es| ==> es[i].Evict? && es[i].now == clock(i) && es[i].ip in before && es[i].ip !in left)
    && (forall i, j :: 0 <= i < j < |es| ==> es[i].ip != es[j].ip)
    && (forall ip :: ip in before && ip !in left ==> LookedAt(es, ip))
    && (forall ip :: ip in left ==> ip in vs)
    && (forall ip :: ip in vs ==> vs[ip] == before[ip])
    && (forall i :: 0 <= i < |es| ==> (es[i].ip in vs <==> clock(i) - before[es[i].ip].last <= 2.0 * cfg.window))
  }

  ghost predicate LookedAt(es: seq<Event>, ip: string) { exists i :: 0 <= i < |es| && es[i].ip == ip }

  lemma SweepOne(cfg: Config, before: Visitors, vs: Visitors, es: seq<Event>, clock: nat -> real, left: set<string>, ip: string)
    requires Swept(cfg, before, vs, es, clock, left) && ip in left
    ensures Swept(cfg, before, Dropped(cfg, vs, ip, clock(|es|)), es + [Evict(ip, clock(|es|))], clock, left - {ip})
  {
    var es' := es + [Evict(ip, clock(|es|))];
    assert forall i :: 0 <= i < |es| ==> es'[i] == es[i];
    forall x | x in before && x !in left - {ip}
      ensures LookedAt(es', x)
    {
      if x == ip {
        assert es'[|es|].ip == x;
      } else {
        var i :| 0 <= i < |es| && es[i].ip == x;
        assert es'[i].ip == x;
      }
    }
  }

  lemma {:induction false} RunAppend(cfg: Config, vs: Visitors, es: seq<Event>, e: Event)
    requires cfg.Valid()
    ensures Run(cfg, vs, es + [e]) == Step(cfg, Run(cfg, vs, es), e)
    decreases |es|
  {
    if es == [] {
      assert [e][1..] == [] && [] + [e] == [e];
    } else {
      assert (es + [e])[0] == es[0] && (es + [e])[1..] == es[1..] + [e];
      RunAppend(cfg, Step(cfg, vs, es[0]), es[1..], e);
    }
  }
}
