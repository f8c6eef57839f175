/**
 The law of the token bucket (middleware/ratelimit.go), both ways: whether a request is admitted,
 said of the clock readings and verdicts of the client's earlier requests alone.
 */
module RateLaw {
  import opened RateLimit

  /** The requests of one client. */
  function Own(es: seq<Event>, ip: string): seq<Event> {
    if es == [] then []
    else Own(es[..|es| - 1], ip) + if es[|es| - 1].Request? && es[|es| - 1].ip == ip then [es[|es| - 1]] else []
  }

  /** The verdicts on them, from an empty limiter on. */
  function OwnVerdicts(cfg: Config, es: seq<Event>, ip: string): seq<bool>
    requires cfg.Valid()
  {
    if es == [] then []
    else
      var init, e := es[..|es| - 1], es[|es| - 1];
      OwnVerdicts(cfg, init, ip) + if e.Request? && e.ip == ip then [Admits(cfg, Run(cfg, map[], init), e)] else []
  }

  lemma {:induction false} SameLength(cfg: Config, es: seq<Event>, ip: string)
    requires cfg.Valid()
    ensures |OwnVerdicts(cfg, es, ip)| == |Own(es, ip)|
  {
    if es != [] { SameLength(cfg, es[..|es| - 1], ip); }
  }

  /** How many were admitted. */
  function Yes(vs: seq<bool>): nat { if vs == [] then 0 else Yes(vs[..|vs| - 1]) + if vs[|vs| - 1] then 1 else 0 }

  /** The time credited from the first request to the last: a request stores a later reading than it
      measures with, and the time between the two is lost. */
  function Credited(rs: seq<Event>): real
    requires forall i :: 0 <= i < |rs| ==> rs[i].Request?
  {
    if |rs| <= 1 then 0.0
    else Credited(rs[..|rs| - 1]) + (rs[|rs| - 1].measured - rs[|rs| - 2].stored)
  }

  ghost predicate AllRequests(rs: seq<Event>) { forall i :: 0 <= i < |rs| ==> rs[i].Request? }

  /** From the k-th request on, the bucket and the credited time pay for the admitted requests and for
      the last one. */
  ghost predicate Pays(cfg: Config, rs: seq<Event>, vs: seq<bool>, k: nat)
    requires k <= |vs| && |rs| == |vs| + 1 && AllRequests(rs)
  {
    Yes(vs[k..]) as real + 1.0 <= cfg.Cap() + cfg.Gain(Credited(rs[k..]))
  }

  // ------------------------------------------------------------ the level of the bucket

  /** The tokens found by the last of the requests. */
  function Level(cfg: Config, rs: seq<Event>, vs: seq<bool>): real
    requires |rs| == |vs| + 1 && AllRequests(rs)
  {
    if vs == [] then cfg.Cap()
    else
      var n := |vs|;
      Min(cfg.Cap(), Left(cfg, rs[..n], vs) + cfg.Gain(rs[n].measured - rs[n - 1].stored))
  }

  /** The tokens left by the last of the requests. */
  function Left(cfg: Config, rs: seq<Event>, vs: seq<bool>): real
    requires |rs| == |vs| > 0 && AllRequests(rs)
  {
    Level(cfg, rs, vs[..|vs| - 1]) - if vs[|vs| - 1] then 1.0 else 0.0
  }

  /** What would be in the bucket if it had been full at the k-th request and had no brim since. */
  function Since(cfg: Config, rs: seq<Event>, vs: seq<bool>, k: nat): real
    requires k <= |vs| && |rs| == |vs| + 1 && AllRequests(rs)
  {
    cfg.Cap() + cfg.Gain(Credited(rs[k..])) - Yes(vs[k..]) as real
  }

  lemma SinceLast(cfg: Config, rs: seq<Event>, vs: seq<bool>)
    requires |rs| == |vs| + 1 && AllRequests(rs)
    ensures Since(cfg, rs, vs, |vs|) == cfg.Cap()
  {
    assert vs[|vs|..] == [] && |rs[|vs|..]| == 1;
    GainAdds(cfg, 0.0, 0.0, 0.0);
  }

  lemma SinceStep(cfg: Config, rs: seq<Event>, vs: seq<bool>, k: nat)
    requires k < |vs| && |rs| == |vs| + 1 && AllRequests(rs)
    ensures
      var n := |vs|;
      Since(cfg, rs, vs, k) == Since(cfg, rs[..n], vs[..n - 1], k) - (if vs[n - 1] then 1.0 else 0.0) + cfg.Gain(rs[n].measured - rs[n - 1].stored)
  {
    var n := |vs|;
    assert vs[k..][..|vs[k..]| - 1] == vs[..n - 1][k..];
    assert rs[k..][..|rs[k..]| - 1] == rs[..n][k..];
    GainAdds(cfg, Credited(rs[..n][k..]), rs[n].measured - rs[n - 1].stored, Credited(rs[k..]));
  }

  /** The level is the least of these. */
  lemma {:induction false} LevelIff(cfg: Config, rs: seq<Event>, vs: seq<bool>, x: real)
    requires |rs| == |vs| + 1 && AllRequests(rs)
    ensures Level(cfg, rs, vs) >= x <==> forall k :: 0 <= k <= |vs| ==> Since(cfg, rs, vs, k) >= x
    decreases |vs|
  {
    var n := |vs|;
    SinceLast(cfg, rs, vs);
    if n > 0 {
      var gain, spent := cfg.Gain(rs[n].measured - rs[n - 1].stored), if vs[n - 1] then 1.0 else 0.0;
      var y := x - gain + spent;
      LevelIff(cfg, rs[..n], vs[..n - 1], y);
      LevelStep(cfg, rs, vs, x, y);
      var rs', vs' := rs[..n], vs[..n - 1];
      forall k | 0 <= k < n ensures Since(cfg, rs, vs, k) >= x <==> Since(cfg, rs', vs', k) >= y { SinceStep(cfg, rs, vs, k); }
      if forall k :: 0 <= k <= n ==> Since(cfg, rs, vs, k) >= x {
        forall k | 0 <= k <= |vs'| ensures Since(cfg, rs', vs', k) >= y { assert Since(cfg, rs, vs, k) >= x; }
      }
    }
  }

  lemma LevelStep(cfg: Config, rs: seq<Event>, vs: seq<bool>, x: real, y: real)
    requires |rs| == |vs| + 1 && AllRequests(rs) && vs != []
    requires y == x - cfg.Gain(rs[|vs|].measured - rs[|vs| - 1].stored) + if vs[|vs| - 1] then 1.0 else 0.0
    ensures Level(cfg, rs, vs) >= x <==> cfg.Cap() >= x && Level(cfg, rs[..|vs|], vs[..|vs| - 1]) >= y
  {
  }

  // ------------------------------------------------------------ the limiter keeps that level

  /** What the limiter knows of a client is what its last request left, unless it was dropped for being
      idle since. */
  ghost predicate Keeps(cfg: Config, vs: Visitors, ip: string, rs: seq<Event>, verdicts: seq<bool>, clock: real) {
    && |rs| == |verdicts| && AllRequests(rs)
    && if rs == [] then ip !in vs
       else
         var v := Visitor(Left(cfg, rs, verdicts), rs[|rs| - 1].stored);
         && 0.0 <= v.tokens <= cfg.Cap() && v.last <= clock
         && if ip in vs then vs[ip] == v else Idle(cfg, v, clock)
  }

  /** The tokens a request finds are the level. */
  lemma FindsLevel(cfg: Config, vs: Visitors, rs: seq<Event>, verdicts: seq<bool>, r: Event, clock: real)
    requires cfg.Valid() && r.Request? && Keeps(cfg, vs, r.ip, rs, verdicts, clock) && Monotone(clock, [r])
    ensures Refilled(cfg, Seen(cfg, vs, r.ip, r.created), r.measured) == Level(cfg, rs + [r], verdicts)
    ensures 0.0 <= Level(cfg, rs + [r], verdicts) <= cfg.Cap()
  {
    var all := rs + [r];
    assert all[..|rs|] == rs;
    if rs == [] {
      GainGrows(cfg, 0.0, r.measured - r.created);
      GainAdds(cfg, 0.0, 0.0, 0.0);
    } else {
      var v := Visitor(Left(cfg, rs, verdicts), rs[|rs| - 1].stored);
      GainGrows(cfg, 0.0, r.measured - v.last);
      GainAdds(cfg, 0.0, 0.0, 0.0);
      if r.ip !in vs {
        IdleIsFull(cfg, v, r.measured);
        GainGrows(cfg, 0.0, r.measured - r.created);
      }
    }
  }

  lemma KeepsRequest(cfg: Config, vs: Visitors, rs: seq<Event>, verdicts: seq<bool>, r: Event, clock: real)
    requires cfg.Valid() && r.Request? && Keeps(cfg, vs, r.ip, rs, verdicts, clock) && Monotone(clock, [r])
    ensures Admits(cfg, vs, r) <==> Level(cfg, rs + [r], verdicts) >= 1.0
    ensures Keeps(cfg, Handle(cfg, vs, r), r.ip, rs + [r], verdicts + [Admits(cfg, vs, r)], r.stored)
  {
    FindsLevel(cfg, vs, rs, verdicts, r, clock);
    var vs' := verdicts + [Admits(cfg, vs, r)];
    assert vs'[..|verdicts|] == verdicts;
    assert (rs + [r])[|rs|] == r;
  }

  lemma KeepsOther(cfg: Config, vs: Visitors, ip: string, rs: seq<Event>, verdicts: seq<bool>, e: Event, clock: real)
    requires cfg.Valid() && !(e.Request? && e.ip == ip) && Keeps(cfg, vs, ip, rs, verdicts, clock) && Monotone(clock, [e])
    ensures Keeps(cfg, Step(cfg, vs, e), ip, rs, verdicts, Ends(e))
  {
  }

  /** The clock after the events. */
  function Last(es: seq<Event>, clock: real): real { if es == [] then clock else Ends(es[|es| - 1]) }

  lemma {:induction false} MonotoneSplit(clock: real, es: seq<Event>, e: Event)
    requires Monotone(clock, es + [e])
    ensures Monotone(clock, es) && Monotone(Last(es, clock), [e])
    decreases |es|
  {
    var all := es + [e];
    if es == [] {
      assert all == [e];
    } else {
      assert all[0] == es[0] && all[1..] == es[1..] + [e];
      MonotoneSplit(Ends(es[0]), es[1..], e);
      assert Last(es[1..], Ends(es[0])) == Last(es, clock);
    }
  }

  lemma {:induction false} RunKeeps(cfg: Config, es: seq<Event>, ip: string, clock: real)
    requires cfg.Valid() && Monotone(clock, es)
    ensures Keeps(cfg, Run(cfg, map[], es), ip, Own(es, ip), OwnVerdicts(cfg, es, ip), Last(es, clock))
    decreases |es|
  {
    if es != [] {
      var init, e := es[..|es| - 1], es[|es| - 1];
      assert es == init + [e];
      MonotoneSplit(clock, init, e);
      RunKeeps(cfg, init, ip, clock);
      RunAppend(cfg, map[], init, e);
      RunKeepsOne(cfg, Run(cfg, map[], init), ip, Own(init, ip), OwnVerdicts(cfg, init, ip), e, Last(init, clock));
    }
  }

  lemma RunKeepsOne(cfg: Config, vs: Visitors, ip: string, rs: seq<Event>, verdicts: seq<bool>, e: Event, clock: real)
    requires cfg.Valid() && Keeps(cfg, vs, ip, rs, verdicts, clock) && Monotone(clock, [e])
    ensures
      if e.Request? && e.ip == ip then Keeps(cfg, Step(cfg, vs, e), ip, rs + [e], verdicts + [Admits(cfg, vs, e)], Ends(e))
      else Keeps(cfg, Step(cfg, vs, e), ip, rs + [], verdicts + [], Ends(e))
  {
    if e.Request? && e.ip == ip {
      KeepsRequest(cfg, vs, rs, verdicts, e, clock);
    } else {
      KeepsOther(cfg, vs, ip, rs, verdicts, e, clock);
      assert rs + [] == rs && verdicts + [] == verdicts;
    }
  }

  // ------------------------------------------------------------ the law

  /** After any run, evictions included, a request is admitted exactly if, from each of the client's
      requests on, this one included, a full bucket and the time credited since pay for those admitted
      and for this one. */
  lemma AdmittedIff(cfg: Config, es: seq<Event>, r: Event, clock: real)
    requires cfg.Valid() && r.Request? && Monotone(clock, es + [r])
    ensures |Own(es, r.ip)| == |OwnVerdicts(cfg, es, r.ip)| && AllRequests(Own(es, r.ip) + [r])
    ensures
      var rs, vs := Own(es, r.ip) + [r], OwnVerdicts(cfg, es, r.ip);
      Admits(cfg, Run(cfg, map[], es), r) <==> forall k :: 0 <= k <= |vs| ==> Pays(cfg, rs, vs, k)
  {
    MonotoneSplit(clock, es, r);
    RunKeeps(cfg, es, r.ip, clock);
    var rs, vs := Own(es, r.ip) + [r], OwnVerdicts(cfg, es, r.ip);
    KeepsRequest(cfg, Run(cfg, map[], es), Own(es, r.ip), vs, r, Last(es, clock));
    LevelIff(cfg, rs, vs, 1.0);
    forall k | 0 <= k <= |vs| ensures Pays(cfg, rs, vs, k) <==> Since(cfg, rs, vs, k) >= 1.0 {}
  }

  /** With a limit of at least 1 a client's first request is admitted. */
  lemma FirstIsAdmitted(cfg: Config, es: seq<Event>, r: Event, clock: real)
    requires cfg.Valid() && cfg.limit >= 1 && r.Request? && Monotone(clock, es + [r]) && Own(es, r.ip) == []
    ensures Admits(cfg, Run(cfg, map[], es), r)
  {
    AdmittedIff(cfg, es, r, clock);
    GainAdds(cfg, 0.0, 0.0, 0.0);
  }

  /** The client lets window / limit pass before each of its requests. */
  ghost predicate Patient(cfg: Config, rs: seq<Event>)
    requires AllRequests(rs)
  {
    forall i :: 0 < i < |rs| ==> cfg.Gain(rs[i].measured - rs[i - 1].stored) >= 1.0
  }

  lemma {:induction false} PatientEarns(cfg: Config, rs: seq<Event>)
    requires AllRequests(rs) && Patient(cfg, rs) && rs != []
    ensures cfg.Gain(Credited(rs)) >= (|rs| - 1) as real
    decreases |rs|
  {
    GainAdds(cfg, 0.0, 0.0, 0.0);
    if |rs| > 1 {
      var init, n := rs[..|rs| - 1], |rs| - 1;
      PatientEarns(cfg, init);
      GainAdds(cfg, Credited(init), rs[n].measured - rs[n - 1].stored, Credited(rs));
    }
  }

  lemma {:induction false} AtMostAll(vs: seq<bool>)
    ensures Yes(vs) <= |vs|
  {
    if vs != [] { AtMostAll(vs[..|vs| - 1]); }
  }

  /** A patient client is always admitted. */
  lemma PatientIsAdmitted(cfg: Config, es: seq<Event>, r: Event, clock: real)
    requires cfg.Valid() && cfg.limit >= 1 && r.Request? && Monotone(clock, es + [r])
    requires AllRequests(Own(es, r.ip) + [r]) && Patient(cfg, Own(es, r.ip) + [r])
    ensures Admits(cfg, Run(cfg, map[], es), r)
  {
    AdmittedIff(cfg, es, r, clock);
    var rs, vs := Own(es, r.ip) + [r], OwnVerdicts(cfg, es, r.ip);
    forall k | 0 <= k <= |vs| ensures Pays(cfg, rs, vs, k) {
      assert Patient(cfg, rs[k..]);
      PatientEarns(cfg, rs[k..]);
      AtMostAll(vs[k..]);
    }
  }

  /** A client that waits window / limit is patient. */
  lemma WaitingIsPatient(cfg: Config, d: real)
    requires cfg.Valid() && cfg.limit >= 1 && d >= cfg.window / cfg.Cap()
    ensures cfg.Gain(d) >= 1.0
  {
    GainGrows(cfg, cfg.window / cfg.Cap(), d);
    GainIsShare(cfg, cfg.window / cfg.Cap());
  }
}
