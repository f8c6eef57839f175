/**
 What issuing, exchanging and logging out do to the parses that follow (auth/jwt.go,
 auth/token.go): which tokens there are, and which of them parse.
 */
module TokenEffects {
  import opened GoTypes
  import opened TokenRotation

  // ------------------------------------------------------------ which tokens parse

  /** The action trades the token in, or logs it out: a logout needs a token that parses, or claims
      that were cached before. */
  predicate Hits(s: State, a: Action, j: nat) {
    && (a.Exchange? || a.Logout?) && a.p.jti == j && j < |s.issued|
    && if a.Exchange? then Accepts(s, a.p) && s.issued[j].kind.Refresh? else a.cached || Accepts(s, a.p)
  }

  ghost predicate HitBefore(run: Run, m: nat, j: nat)
    requires m <= |run.actions| < |run.states|
  {
    exists k :: 0 <= k < m && Hits(run.states[k], run.actions[k], j)
  }

  lemma StepHits(cfg: Config, s: State, a: Action, j: nat)
    ensures j in Step(cfg, s, a).revoked <==> j in s.revoked || Hits(s, a, j)
  {
  }

  lemma {:induction false} RevokedIff(cfg: Config, run: Run, m: nat, j: nat)
    requires run.Legal(cfg) && m <= |run.actions|
    ensures j in run.states[m].revoked <==> HitBefore(run, m, j)
  {
    if m > 0 {
      RevokedIff(cfg, run, m - 1, j);
      assert Goes(cfg, run.states[m - 1], run.actions[m - 1], run.states[m]);
      StepHits(cfg, run.states[m - 1], run.actions[m - 1], j);
      assert HitBefore(run, m, j) <==> HitBefore(run, m - 1, j) || Hits(run.states[m - 1], run.actions[m - 1], j);
    }
  }

  /** At every point of every run a token parses exactly if it was issued, has not expired at the first
      reading, and was neither traded in nor logged out before, or expires between the readings. */
  lemma ParsesIff(cfg: Config, run: Run, m: nat, q: Presented)
    requires run.Legal(cfg) && m <= |run.actions| && run.states[m].clock <= q.t1 <= q.t2
    ensures
      var s := run.states[m];
      Accepts(s, q) <==> q.jti < |s.issued| && q.t1 < s.issued[q.jti].exp && (!HitBefore(run, m, q.jti) || s.issued[q.jti].exp < q.t2)
  {
    RevokedIff(cfg, run, m, q.jti);
    RunCovered(cfg, run, m);
  }

  lemma {:induction false} IssuedStays(cfg: Config, run: Run, k: nat, m: nat)
    requires run.Legal(cfg) && k <= m <= |run.actions|
    ensures run.states[k].issued <= run.states[m].issued
    decreases m
  {
    if k < m {
      IssuedStays(cfg, run, k, m - 1);
      assert Goes(cfg, run.states[m - 1], run.actions[m - 1], run.states[m]);
    }
  }

  /** After a logout that parses its token, or finds its claims cached, every later parse of that token
      is refused, unless it expires between the two readings. */
  lemma LogoutRefuses(cfg: Config, run: Run, k: nat, m: nat, q: Presented)
    requires run.Legal(cfg) && k < m <= |run.actions| && run.actions[k].Logout?
    requires
      var s, a := run.states[k], run.actions[k];
      a.p.jti == q.jti && a.p.jti < |s.issued| && (a.cached || Accepts(s, a.p))
    requires run.states[m].clock <= q.t1 <= q.t2
    ensures q.jti < |run.states[m].issued| && (Accepts(run.states[m], q) <==> q.t1 < run.states[m].issued[q.jti].exp < q.t2)
  {
    assert Hits(run.states[k], run.actions[k], q.jti);
    assert HitBefore(run, m, q.jti);
    ParsesIff(cfg, run, m, q);
    IssuedStays(cfg, run, k, m);
  }

  /** Every other token parses as before, and so does every token at all if the logout found nothing. */
  lemma LogoutSparesOthers(cfg: Config, run: Run, k: nat, q: Presented)
    requires run.Legal(cfg) && k < |run.actions| && run.actions[k].Logout? && run.states[k + 1].clock <= q.t1 <= q.t2
    requires
      var s, a := run.states[k], run.actions[k];
      a.p.jti != q.jti || a.p.jti >= |s.issued| || !(a.cached || Accepts(s, a.p))
    ensures Accepts(run.states[k + 1], q) <==> Accepts(run.states[k], q)
  {
    var s, a := run.states[k], run.actions[k];
    assert Goes(cfg, s, a, run.states[k + 1]);
    StepCovered(cfg, s, a) by { RunCovered(cfg, run, k); }
  }

  // ------------------------------------------------------------ which tokens there are

  /** A token issued at time t for the given lifetime expires at the last whole second within it. */
  predicate ExpiresWithin(exp: int, t: int, ttl: int) { exp % SECOND == 0 && exp <= t + ttl < exp + SECOND }

  /** A lifetime, or what stands for one that is not positive. */
  function Lifetime(ttl: int): int { if ttl <= 0 then 2 * 3600 * SECOND else ttl }

  /** An access and a refresh token of one family, at the end of the list. */
  ghost predicate PairAdded(cfg: Config, before: seq<Token>, after: seq<Token>, family: nat, t: int, u: int) {
    && |after| == |before| + 2 && after[..|before|] == before
    && var access, refresh := after[|before|], after[|before| + 1];
       && access.kind.Access? && refresh.kind.Refresh? && access.family == family && refresh.family == family
       && ExpiresWithin(access.exp, t, Lifetime(cfg.ttl))
       && ExpiresWithin(refresh.exp, u, RefreshLifetime(cfg))
  }

  /** The refresh lifetime, or 24 access lifetimes, or a week. */
  function RefreshLifetime(cfg: Config): int {
    if cfg.refreshTtl > 0 then cfg.refreshTtl else if cfg.ttl > 0 then 24 * cfg.ttl else 168 * 3600 * SECOND
  }

  lemma ExpiryWithin(now: int, ttl: int)
    ensures ExpiresWithin(Expiry(now, ttl), now, Lifetime(ttl))
  {
  }

  /** What an action issues: a pair or an access token of a new family, or, for an accepted refresh token,
      a pair of that token's family; nothing else. */
  lemma NewTokens(cfg: Config, run: Run, k: nat)
    requires run.Legal(cfg) && k < |run.actions|
    ensures
      var s, a, next := run.states[k], run.actions[k], run.states[k + 1];
      if a.Issue? then PairAdded(cfg, s.issued, next.issued, s.families, a.t, a.u) && forall j :: 0 <= j < |s.issued| ==> s.issued[j].family < s.families
      else if a.IssueAccess? then
        && |next.issued| == |s.issued| + 1 && next.issued[..|s.issued|] == s.issued
        && next.issued[|s.issued|].kind.Access? && ExpiresWithin(next.issued[|s.issued|].exp, a.t, Lifetime(cfg.ttl))
      else if a.Exchange? && Accepts(s, a.p) && s.issued[a.p.jti].kind.Refresh? then
        PairAdded(cfg, s.issued, next.issued, s.issued[a.p.jti].family, a.t, a.u) && next.exchanged == s.exchanged + [a.p.jti]
      else next.issued == s.issued && next.exchanged == s.exchanged
  {
    var s, a := run.states[k], run.actions[k];
    assert Goes(cfg, s, a, run.states[k + 1]);
    FamiliesUpTo(cfg, run, k);
    if a.Issue? || a.Exchange? {
      ExpiryWithin(a.t, cfg.ttl);
      ExpiryWithin(a.u, RefreshTtl(cfg));
    } else if a.IssueAccess? {
      ExpiryWithin(a.t, cfg.ttl);
    }
  }
}
