/**
 Refresh-token rotation (auth/jwt.go, auth/token.go, auth/revoke.go).

 Signatures are ideal, so a token that verifies has been issued; the jti of a token is
 its number in the order of issue. Calls are sequential. Parsing reads the clock twice:
 first for the expiry check, then for the blacklist, which forgets entries whose time
 is over. A family is everything descended by refreshing from one issued pair.
 */
module TokenRotation {
  import opened GoTypes

  const TWO_HOURS := 7200 * SECOND

  datatype Kind = Access | Refresh

  datatype Token = Token(kind: Kind, exp: int, family: nat)

  datatype Config = Config(ttl: int, refreshTtl: int)

  function RefreshTtl(cfg: Config): int {
    if cfg.refreshTtl > 0 then cfg.refreshTtl
    else if cfg.ttl > 0 then cfg.ttl * 24
    else 7 * 24 * 3600 * SECOND
  }

  /** The expiry written into a token: whole seconds, two hours for a non-positive lifetime. */
  function Expiry(now: int, ttl: int): int {
    (now + (if ttl <= 0 then TWO_HOURS else ttl)) / SECOND * SECOND
  }

  /** `revoked` and `exchanged` are history: the tokens ever revoked, and the refresh tokens
      ever traded in, in order. */
  datatype State = State(
    clock: int, issued: seq<Token>, items: map<nat, int>, families: nat, revoked: set<nat>, exchanged: seq<nat>)

  /** A parse with its two clock readings. */
  datatype Presented = Presented(jti: nat, t1: int, t2: int)

  datatype Action =
    | Issue(t: int, u: int)
    | IssueAccess(t: int)
    | Check(p: Presented)
    | Exchange(p: Presented, t: int, u: int)
    | Logout(p: Presented, cached: bool)

  /** Whether the blacklist, asked at time t, says the jti is revoked. */
  predicate Revoked(items: map<nat, int>, jti: nat, t: int) { jti in items && t <= items[jti] }

  /** The blacklist after being asked: an entry whose time is over is deleted. */
  function Pruned(items: map<nat, int>, jti: nat, t: int): map<nat, int> {
    if jti in items && t > items[jti] then items - {jti} else items
  }

  predicate Fresh(s: State, p: Presented) { p.jti < |s.issued| && p.t1 < s.issued[p.jti].exp }

  /** ParseToken succeeds. */
  predicate Accepts(s: State, p: Presented) { Fresh(s, p) && !Revoked(s.items, p.jti, p.t2) }

  function Parsed(s: State, p: Presented): State {
    s.(clock := p.t2, items := if Fresh(s, p) then Pruned(s.items, p.jti, p.t2) else s.items)
  }

  function Revoke(s: State, jti: nat): State
    requires jti < |s.issued|
  {
    s.(items := s.items[jti := s.issued[jti].exp], revoked := s.revoked + {jti})
  }

  /** GenerateTokenPair: the access token at time t and the refresh token at time u. */
  function WithPair(cfg: Config, s: State, t: int, u: int, family: nat): State {
    s.(clock := u, issued := s.issued + [Token(Access, Expiry(t, cfg.ttl), family), Token(Refresh, Expiry(u, RefreshTtl(cfg)), family)])
  }

  predicate Exchanges(s: State, p: Presented) { Accepts(s, p) && s.issued[p.jti].kind.Refresh? }

  function Step(cfg: Config, s: State, a: Action): State {
    match a
    case Issue(t, u) => WithPair(cfg, s, t, u, s.families).(families := s.families + 1)
    case IssueAccess(t) =>
      s.(clock := t, issued := s.issued + [Token(Access, Expiry(t, cfg.ttl), s.families)], families := s.families + 1)
    case Check(p) => Parsed(s, p)
    case Exchange(p, t, u) =>
      if Exchanges(s, p) then
        WithPair(cfg, Revoke(Parsed(s, p), p.jti), t, u, s.issued[p.jti].family).(exchanged := s.exchanged + [p.jti])
      else Parsed(s, p)
    case Logout(p, cached) =>
      // Claims kept from an earlier parse of the same request are revoked without another parse.
      if cached && p.jti < |s.issued| then Revoke(s.(clock := p.t2), p.jti)
      else if Accepts(s, p) then Revoke(Parsed(s, p), p.jti)
      else Parsed(s, p)
  }

  const START := State(0, [], map[], 0, {}, [])

  /** The clock readings of an action do not go back. */
  predicate Timed(s: State, a: Action) {
    match a
    case Issue(t, u) => s.clock <= t <= u
    case IssueAccess(t) => s.clock <= t
    case Check(p) => s.clock <= p.t1 <= p.t2
    case Exchange(p, t, u) => s.clock <= p.t1 <= p.t2 <= t <= u
    case Logout(p, _) => s.clock <= p.t1 <= p.t2
  }

  /** The expiry of the presented token does not fall between the two readings of a parse. */
  predicate Steady(s: State, a: Action) {
    a.Issue? || a.IssueAccess? || a.p.jti >= |s.issued| || !(a.p.t1 < s.issued[a.p.jti].exp < a.p.t2)
  }

  ghost predicate Goes(cfg: Config, s: State, a: Action, after: State) { Timed(s, a) && after == Step(cfg, s, a) }

  /** A run: its actions, and the states before, between and after them. */
  datatype Run = Run(actions: seq<Action>, states: seq<State>) {
    ghost predicate Legal(cfg: Config) {
      && |states| == |actions| + 1 && states[0] == START
      && forall k :: 0 <= k < |actions| ==> Goes(cfg, states[k], actions[k], states[k + 1])
    }

    function End(): State
      requires states != []
    {
      states[|states| - 1]
    }
  }

  /** In no parse of the run does the presented token expire. */
  ghost predicate SteadyRun(run: Run)
    requires |run.states| == |run.actions| + 1
  {
    forall k :: 0 <= k < |run.actions| ==> Steady(run.states[k], run.actions[k])
  }

  // ------------------------------------------------------------ the blacklist covers until expiry

  /** A revoked token is blacklisted up to its expiry, or it has expired. */
  ghost predicate Covered(s: State) {
    && (forall j :: j in s.revoked ==> j < |s.issued|)
    && (forall j :: j in s.items ==> j in s.revoked)
    && (forall j :: j in s.revoked ==> (j in s.items && s.items[j] == s.issued[j].exp) || s.issued[j].exp < s.clock)
  }

  lemma StepCovered(cfg: Config, s: State, a: Action)
    requires Covered(s) && Timed(s, a)
    ensures Covered(Step(cfg, s, a)) && s.clock <= Step(cfg, s, a).clock
    ensures s.revoked <= Step(cfg, s, a).revoked
  {
  }

  lemma {:induction false} RunCovered(cfg: Config, run: Run, k: nat)
    requires run.Legal(cfg) && k <= |run.actions|
    ensures Covered(run.states[k])
  {
    if k > 0 {
      RunCovered(cfg, run, k - 1);
      assert Goes(cfg, run.states[k - 1], run.actions[k - 1], run.states[k]);
      StepCovered(cfg, run.states[k - 1], run.actions[k - 1]);
    }
  }

  /** After any run, although the blacklist forgets, a revoked token parses again exactly if
      its expiry falls strictly between the two clock readings of the parse. */
  lemma RevokedParsesIff(cfg: Config, run: Run, p: Presented)
    requires run.Legal(cfg)
    requires var s := run.End(); s.clock <= p.t1 <= p.t2 && p.jti in s.revoked
    ensures
      var s := run.End();
      && p.jti < |s.issued|
      && (Accepts(s, p) <==> p.t1 < s.issued[p.jti].exp < p.t2)
  {
    RunCovered(cfg, run, |run.actions|);
  }

  // ------------------------------------------------------------ each refresh token is good for one exchange

  ghost predicate AllDifferent(s: seq<nat>) { forall i, j :: 0 <= i < j < |s| ==> s[i] != s[j] }

  /** A refresh token that has not been revoked. */
  predicate Live(s: State, j: nat) { j < |s.issued| && s.issued[j].kind.Refresh? && j !in s.revoked }

  /** A refresh token that was traded in before is presented while it expires. */
  predicate Straddles(s: State, a: Action) {
    a.Exchange? && a.p.jti in s.exchanged && a.p.jti < |s.issued| && a.p.t1 < s.issued[a.p.jti].exp < a.p.t2
  }

  /** What was traded in is a refresh token, and revoked. */
  ghost predicate TradedIn(s: State) {
    forall j :: j in s.exchanged ==> j in s.revoked && j < |s.issued| && s.issued[j].kind.Refresh?
  }

  lemma StepTradedIn(cfg: Config, s: State, a: Action)
    requires Covered(s) && TradedIn(s) && Timed(s, a)
    ensures TradedIn(Step(cfg, s, a))
    ensures
      var u := Step(cfg, s, a);
      u.exchanged == s.exchanged || (a.Exchange? && u.exchanged == s.exchanged + [a.p.jti] && (a.p.jti in s.exchanged <==> Straddles(s, a)))
    ensures Straddles(s, a) ==> Step(cfg, s, a).exchanged == s.exchanged + [a.p.jti]
  {
    var u := Step(cfg, s, a);
    if a.Exchange? && Exchanges(s, a.p) {
      assert u.exchanged == s.exchanged + [a.p.jti];
      forall j | j in u.exchanged
        ensures j in u.revoked && j < |u.issued| && u.issued[j].kind.Refresh?
      {
        if j != a.p.jti { assert j in s.exchanged; }
      }
    }
  }

  lemma StepExchanges(cfg: Config, s: State, a: Action)
    requires Covered(s) && TradedIn(s) && Timed(s, a)
    ensures TradedIn(Step(cfg, s, a))
    ensures AllDifferent(Step(cfg, s, a).exchanged) <==> AllDifferent(s.exchanged) && !Straddles(s, a)
  {
    StepTradedIn(cfg, s, a);
    OneMoreExchange(s.exchanged, Step(cfg, s, a).exchanged, if a.Exchange? then a.p.jti else 0, Straddles(s, a));
  }

  /** None of the first k actions presents a traded-in token while it expires. */
  ghost predicate NoneStraddles(run: Run, k: nat)
    requires k <= |run.actions| < |run.states|
  {
    forall i :: 0 <= i < k ==> !Straddles(run.states[i], run.actions[i])
  }

  lemma NextExchange(cfg: Config, run: Run, k: nat)
    requires run.Legal(cfg) && k < |run.actions| && TradedIn(run.states[k])
    ensures TradedIn(run.states[k + 1])
    ensures AllDifferent(run.states[k + 1].exchanged) <==>
            AllDifferent(run.states[k].exchanged) && !Straddles(run.states[k], run.actions[k])
  {
    RunCovered(cfg, run, k);
    assert Goes(cfg, run.states[k], run.actions[k], run.states[k + 1]);
    StepExchanges(cfg, run.states[k], run.actions[k]);
  }

  lemma NoneStraddlesNext(run: Run, k: nat)
    requires k < |run.actions| < |run.states|
    ensures NoneStraddles(run, k + 1) <==> NoneStraddles(run, k) && !Straddles(run.states[k], run.actions[k])
  {
  }

  lemma {:induction false} ExchangedOnceUpTo(cfg: Config, run: Run, k: nat)
    requires run.Legal(cfg) && k <= |run.actions|
    ensures TradedIn(run.states[k])
    ensures AllDifferent(run.states[k].exchanged) <==> NoneStraddles(run, k)
  {
    if k > 0 {
      ExchangedOnceUpTo(cfg, run, k - 1);
      NextExchange(cfg, run, k - 1);
      NoneStraddlesNext(run, k - 1);
    }
  }

  lemma OneMoreExchange(before: seq<nat>, after: seq<nat>, jti: nat, again: bool)
    requires after == before || (after == before + [jti] && (jti in before <==> again))
    requires again ==> after == before + [jti]
    ensures AllDifferent(after) <==> AllDifferent(before) && !again
  {
    if after == before + [jti] {
      assert forall i :: 0 <= i < |before| ==> after[i] == before[i];
      if again {
        var i :| 0 <= i < |before| && before[i] == jti;
        assert after[i] == after[|before|];
      }
    }
  }

  /** Over every sequential run each refresh token is exchanged at most once exactly if none that
      was traded in is presented again while it expires. */
  lemma ExchangedOnceIff(cfg: Config, run: Run)
    requires run.Legal(cfg)
    ensures AllDifferent(run.End().exchanged)
            <==> NoneStraddles(run, |run.actions|)
  {
    ExchangedOnceUpTo(cfg, run, |run.actions|);
  }

  /** In particular in every run in which no token expires during its own parse. */
  lemma ExchangedOnce(cfg: Config, run: Run)
    requires run.Legal(cfg) && SteadyRun(run)
    ensures AllDifferent(run.End().exchanged)
  {
    ExchangedOnceIff(cfg, run);
  }

  /** A token that expires between the two readings parses although it is revoked, and a refresh token
      is then traded in again. */
  lemma StraddledTokenExchangedAgain(cfg: Config, s: State, p: Presented, t: int, u: int)
    requires Covered(s) && p.jti in s.revoked && s.issued[p.jti].kind.Refresh?
    requires s.clock <= p.t1 < s.issued[p.jti].exp < p.t2 <= t
    ensures Exchanges(s, p) && Step(cfg, s, Exchange(p, t, u)).exchanged == s.exchanged + [p.jti]
  {
  }

  // ------------------------------------------------------------ each family has one live refresh token

  ghost predicate OneLive(s: State) {
    forall i: nat, j: nat :: Live(s, i) && Live(s, j) && s.issued[i].family == s.issued[j].family ==> i == j
  }

  ghost predicate HasLive(s: State, family: nat) { exists j: nat :: Live(s, j) && s.issued[j].family == family }

  /** A revoked refresh token is exchanged while it expires, and its family has a live one already. */
  ghost predicate Doubles(s: State, a: Action) {
    && a.Exchange? && a.p.jti in s.revoked && a.p.jti < |s.issued| && s.issued[a.p.jti].kind.Refresh?
    && a.p.t1 < s.issued[a.p.jti].exp < a.p.t2 && HasLive(s, s.issued[a.p.jti].family)
  }

  ghost predicate FamiliesKnown(s: State) { forall j :: 0 <= j < |s.issued| ==> s.issued[j].family < s.families }

  lemma StepFamilies(cfg: Config, s: State, a: Action)
    requires FamiliesKnown(s)
    ensures FamiliesKnown(Step(cfg, s, a))
  {
  }

  /** An exchange replaces one live token by another, unless the token presented was not live. */
  lemma ExchangeOneLive(cfg: Config, s: State, a: Action)
    requires Covered(s) && OneLive(s) && Timed(s, a) && a.Exchange? && Exchanges(s, a.p)
    ensures OneLive(Step(cfg, s, a)) <==> !Doubles(s, a)
  {
    var after, n, jti := Step(cfg, s, a), |s.issued|, a.p.jti;
    forall i: nat
      ensures Live(after, i) <==> i == n + 1 || (Live(s, i) && i != jti)
      ensures i < n ==> after.issued[i] == s.issued[i]
    {
    }
    assert after.issued[n + 1].family == s.issued[jti].family;
    if jti in s.revoked {
      if HasLive(s, s.issued[jti].family) {
        var j: nat :| Live(s, j) && s.issued[j].family == s.issued[jti].family;
        assert Live(after, j) && Live(after, n + 1) && j != n + 1;
      }
    } else {
      assert Live(s, jti);
    }
  }

  lemma IssueOneLive(cfg: Config, s: State, a: Action)
    requires Covered(s) && FamiliesKnown(s) && OneLive(s) && (a.Issue? || a.IssueAccess?)
    ensures OneLive(Step(cfg, s, a))
  {
    var after := Step(cfg, s, a);
    forall i: nat | Live(after, i)
      ensures (Live(s, i) && after.issued[i] == s.issued[i]) || (i == |s.issued| + 1 && after.issued[i].family == s.families)
    {
    }
  }

  lemma StepOneLive(cfg: Config, s: State, a: Action)
    requires Covered(s) && FamiliesKnown(s) && OneLive(s) && Timed(s, a)
    ensures OneLive(Step(cfg, s, a)) <==> !Doubles(s, a)
  {
    if a.Issue? || a.IssueAccess? {
      IssueOneLive(cfg, s, a);
    } else if a.Exchange? && Exchanges(s, a.p) {
      ExchangeOneLive(cfg, s, a);
    } else {
      var after := Step(cfg, s, a);
      forall i: nat | Live(after, i)
        ensures Live(s, i) && after.issued[i] == s.issued[i]
      {
      }
    }
  }

  ghost predicate NoneDoubles(run: Run, k: nat)
    requires k <= |run.actions| < |run.states|
  {
    forall i :: 0 <= i < k ==> !Doubles(run.states[i], run.actions[i])
  }

  lemma {:induction false} FamiliesUpTo(cfg: Config, run: Run, k: nat)
    requires run.Legal(cfg) && k <= |run.actions|
    ensures FamiliesKnown(run.states[k])
  {
    if k > 0 {
      FamiliesUpTo(cfg, run, k - 1);
      assert Goes(cfg, run.states[k - 1], run.actions[k - 1], run.states[k]);
      StepFamilies(cfg, run.states[k - 1], run.actions[k - 1]);
    }
  }

  /** One more action keeps one live token per family exactly if it does not double one. */
  lemma NextOneLive(cfg: Config, run: Run, k: nat)
    requires run.Legal(cfg) && k < |run.actions| && OneLive(run.states[k])
    ensures OneLive(run.states[k + 1]) <==> !Doubles(run.states[k], run.actions[k])
  {
    FamiliesUpTo(cfg, run, k);
    RunCovered(cfg, run, k);
    assert Goes(cfg, run.states[k], run.actions[k], run.states[k + 1]);
    StepOneLive(cfg, run.states[k], run.actions[k]);
  }

  lemma {:induction false} OneLiveUpTo(cfg: Config, run: Run, k: nat)
    requires run.Legal(cfg) && k <= |run.actions| && NoneDoubles(run, k)
    ensures OneLive(run.states[k])
  {
    if k > 0 {
      OneLiveUpTo(cfg, run, k - 1);
      NextOneLive(cfg, run, k - 1);
    }
  }

  /** Over every sequential run each family has at most one live refresh token at every step exactly
      if no step exchanges a revoked refresh token, while it expires, whose family has a live one. */
  lemma OneLiveIff(cfg: Config, run: Run)
    requires run.Legal(cfg)
    ensures (forall k :: 0 <= k <= |run.actions| ==> OneLive(run.states[k])) <==> NoneDoubles(run, |run.actions|)
  {
    if NoneDoubles(run, |run.actions|) {
      forall k | 0 <= k <= |run.actions|
        ensures OneLive(run.states[k])
      {
        OneLiveUpTo(cfg, run, k);
      }
    }
    if forall k :: 0 <= k <= |run.actions| ==> OneLive(run.states[k]) {
      forall i | 0 <= i < |run.actions|
        ensures !Doubles(run.states[i], run.actions[i])
      {
        NextOneLive(cfg, run, i);
        var next := i + 1;
        assert OneLive(run.states[next]);
      }
    }
  }

  /** Then, of two refresh tokens of a family that would both be exchanged if presented next, neither of
      them while it expires, both are the same. */
  lemma OneUsablePerFamily(cfg: Config, run: Run, p: Presented, q: Presented)
    requires run.Legal(cfg) && NoneDoubles(run, |run.actions|)
    requires var s := run.End();
      && Timed(s, Check(p)) && Timed(s, Check(q)) && Steady(s, Check(p)) && Steady(s, Check(q))
      && Exchanges(s, p) && Exchanges(s, q) && s.issued[p.jti].family == s.issued[q.jti].family
    ensures p.jti == q.jti
  {
    RunCovered(cfg, run, |run.actions|);
    OneLiveUpTo(cfg, run, |run.actions|);
    var s := run.End();
    assert Live(s, p.jti) && Live(s, q.jti);
  }

  const SHORT := Config(3600 * SECOND, 10 * SECOND)
  const FIRST := Presented(1, 5 * SECOND, 5 * SECOND)
  const AGAIN := Presented(1, 10 * SECOND - 1, 10 * SECOND + 1)
  const DOUBLING := [Issue(0, 0), Exchange(FIRST, 5 * SECOND, 5 * SECOND), Exchange(AGAIN, 10 * SECOND + 1, 10 * SECOND + 1)]

  lemma Issued() returns (s: State)
    ensures s == Step(SHORT, START, DOUBLING[0])
    ensures |s.issued| == 2 && s.issued[1] == Token(Refresh, 10 * SECOND, 0) && s.items == map[] && s.clock == 0
  {
    s := Step(SHORT, START, DOUBLING[0]);
  }

  lemma TradedInOnce(s: State) returns (after: State)
    requires |s.issued| == 2 && s.issued[1] == Token(Refresh, 10 * SECOND, 0) && s.items == map[]
    ensures after == Step(SHORT, s, DOUBLING[1]) && |after.issued| == 4 && after.clock == 5 * SECOND
    ensures after.issued[1] == s.issued[1] && after.issued[3] == Token(Refresh, 15 * SECOND, 0) && after.items == map[1 := 10 * SECOND]
  {
    after := Step(SHORT, s, DOUBLING[1]);
    assert Exchanges(s, FIRST);
  }

  lemma TradedInTwice(s: State) returns (after: State)
    requires |s.issued| == 4 && s.issued[1] == Token(Refresh, 10 * SECOND, 0) && s.items == map[1 := 10 * SECOND]
    ensures after == Step(SHORT, s, DOUBLING[2]) && |after.issued| == 6 && after.clock == 10 * SECOND + 1
    ensures after.issued[3] == s.issued[3] && after.issued[5] == Token(Refresh, 20 * SECOND, 0) && after.items == map[1 := 10 * SECOND]
  {
    after := Step(SHORT, s, DOUBLING[2]);
    assert Exchanges(s, AGAIN);
  }

  /** A run that reaches two usable refresh tokens of one family: the first one is traded in after five
      seconds, and again while it expires. */
  lemma TwoUsable() returns (run: Run, p: Presented, q: Presented)
    ensures run.Legal(SHORT) && run.actions == DOUBLING
    ensures
      var s := run.End();
      && Timed(s, Check(p)) && Timed(s, Check(q)) && Steady(s, Check(p)) && Steady(s, Check(q))
      && Exchanges(s, p) && Exchanges(s, q) && s.issued[p.jti].family == s.issued[q.jti].family && p.jti != q.jti
  {
    var s1 := Issued();
    var s2 := TradedInOnce(s1);
    var s3 := TradedInTwice(s2);
    run := Run(DOUBLING, [START, s1, s2, s3]);
    assert Goes(SHORT, START, DOUBLING[0], s1) && Goes(SHORT, s1, DOUBLING[1], s2) && Goes(SHORT, s2, DOUBLING[2], s3);
    p, q := Presented(3, 11 * SECOND, 11 * SECOND), Presented(5, 11 * SECOND, 11 * SECOND);
  }

  // ------------------------------------------------------------ the code

  class MemoryRevoker {
    var items: map<nat, int>

    constructor ()
      ensures items == map[]
    {
      items := map[];
    }

    method Revoke(jti: nat, until: int)
      modifies this
      ensures items == old(items)[jti := until]
    {
      items := items[jti := until];
    }

    method IsRevoked(jti: nat, now: int) returns (r: bool)
      modifies this
      ensures r == Revoked(old(items), jti, now) && items == Pruned(old(items), jti, now)
    {
      if jti !in items { return false; }
      if now > items[jti] {
        items := items - {jti};
        return false;
      }
      r := true;
    }
  }

  class JWTGuard {
    const cfg: Config
    const revoker: MemoryRevoker
    var issued: seq<Token>
    ghost var families: nat
    ghost var revoked: set<nat>
    ghost var exchanged: seq<nat>

    constructor (cfg: Config)
      ensures this.cfg == cfg && fresh(revoker) && View(0) == START
    {
      this.cfg := cfg;
      revoker := new MemoryRevoker();
      issued, families, revoked, exchanged := [], 0, {}, [];
    }

    ghost function View(clock: int): State
      reads this, revoker
    {
      State(clock, issued, revoker.items, families, revoked, exchanged)
    }

    method ParseToken(p: Presented) returns (ok: bool)
      modifies revoker
      ensures ok == Accepts(old(View(0)), p)
      ensures View(p.t2) == Parsed(old(View(0)), p)
    {
      if p.jti >= |issued| || p.t1 >= issued[p.jti].exp { return false; }
      var r := revoker.IsRevoked(p.jti, p.t2);
      ok := !r;
    }

    method GenerateTokenPair(t: int, u: int, family: nat)
      modifies this`issued
      ensures View(u) == WithPair(cfg, old(View(0)), t, u, family)
    {
      issued := issued + [Token(Access, Expiry(t, cfg.ttl), family)];
      issued := issued + [Token(Refresh, Expiry(u, RefreshTtl(cfg)), family)];
    }

    /** Refresh: parse, check the kind, revoke up to the token's own expiry, issue a new pair. */
    method RefreshPair(p: Presented, t: int, u: int) returns (ok: bool)
      modifies this`issued, this`revoked, this`exchanged, revoker
      ensures ok == Exchanges(old(View(0)), p)
      ensures View(if ok then u else p.t2) == Step(cfg, old(View(0)), Exchange(p, t, u))
    {
      ok := ParseToken(p);
      if !ok { return; }
      if issued[p.jti].kind != Refresh { return false; }
      revoker.Revoke(p.jti, issued[p.jti].exp);
      revoked := revoked + {p.jti};
      GenerateTokenPair(t, u, issued[p.jti].family);
      exchanged := exchanged + [p.jti];
    }

    /** Logout of a request: claims cached by an earlier parse are used as they are. */
    method LogoutToken(p: Presented, cached: bool)
      modifies this`revoked, revoker
      ensures View(p.t2) == Step(cfg, old(View(0)), Logout(p, cached))
    {
      if !(cached && p.jti < |issued|) {
        var ok := ParseToken(p);
        if !ok { return; }
      }
      revoker.Revoke(p.jti, issued[p.jti].exp);
      revoked := revoked + {p.jti};
    }
  }
}
