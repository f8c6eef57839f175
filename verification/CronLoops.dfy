/**
 The counting loops of cron fields (schedule/schedule.go). Their counters are 64-bit integers
 that wrap around, and such a loop need not end, so it is followed for a number of rounds.
 */
module CronLoops {
  import opened GoTypes
  import opened Powers

  /** 64-bit addition of a positive step. */
  function Add(v: int, step: int): int { if v + step > MAX_INT then v + step - 2 * (MAX_INT + 1) else v + step }

  /** The counter after k rounds. */
  function Counter(v: int, step: int, k: nat): int { if k == 0 then v else Add(Counter(v, step, k - 1), step) }

  /** The counters a loop has gone through, and whether it has ended. */
  datatype Visited = Visited(seen: set<int>, ended: bool)

  /** for v <= b { visit v; v += step }, for at most the given number of rounds. */
  function Visit(v: int, b: int, step: int, rounds: nat): Visited
    decreases rounds
  {
    if v > b then Visited({}, true)
    else if rounds == 0 then Visited({}, false)
    else
      var r := Visit(Add(v, step), b, step, rounds - 1);
      Visited({v} + r.seen, r.ended)
  }

  /** Once ended, more rounds change nothing. */
  lemma {:induction false} VisitStable(v: int, b: int, step: int, r1: nat, r2: nat)
    requires Visit(v, b, step, r1).ended && Visit(v, b, step, r2).ended
    ensures Visit(v, b, step, r1) == Visit(v, b, step, r2)
    decreases r1
  {
    if v <= b { VisitStable(Add(v, step), b, step, r1 - 1, r2 - 1); }
  }

  lemma {:induction false} MoreRounds(v: int, b: int, step: int, rounds: nat, more: nat)
    requires Visit(v, b, step, rounds).ended && rounds <= more
    ensures Visit(v, b, step, more) == Visit(v, b, step, rounds)
    decreases rounds
  {
    if v <= b { MoreRounds(Add(v, step), b, step, rounds - 1, more - 1); }
  }

  lemma {:induction false} CounterFirst(v: int, step: int, k: nat)
    ensures Counter(Add(v, step), step, k) == Counter(v, step, k + 1)
  {
    if k > 0 { CounterFirst(v, step, k - 1); }
  }

  ghost predicate WithinBound(v: int, b: int, step: int, rounds: nat) { forall k: nat :: k <= rounds ==> Counter(v, step, k) <= b }

  lemma WithinStep(v: int, b: int, step: int, rounds: nat)
    requires rounds > 0
    ensures WithinBound(v, b, step, rounds) <==> v <= b && WithinBound(Add(v, step), b, step, rounds - 1)
  {
    assert Counter(v, step, 0) == v;
    if WithinBound(v, b, step, rounds) {
      forall k: nat | k <= rounds - 1
        ensures Counter(Add(v, step), step, k) <= b
      {
        CounterFirst(v, step, k);
        var next: nat := k + 1;
        assert Counter(v, step, next) <= b;
      }
    }
    if v <= b && WithinBound(Add(v, step), b, step, rounds - 1) {
      forall k: nat | k <= rounds
        ensures Counter(v, step, k) <= b
      {
        if k > 0 {
          CounterFirst(v, step, k - 1);
          var before: nat := k - 1;
          assert Counter(Add(v, step), step, before) <= b;
        }
      }
    }
  }

  /** A loop has not ended after some rounds exactly if all counters up to then are within its bound. */
  lemma {:induction false} EndsIff(v: int, b: int, step: int, rounds: nat)
    ensures !Visit(v, b, step, rounds).ended <==> WithinBound(v, b, step, rounds)
    decreases rounds
  {
    assert Counter(v, step, 0) == v;
    if rounds > 0 {
      WithinStep(v, b, step, rounds);
      EndsIff(Add(v, step), b, step, rounds - 1);
    }
  }

  // ------------------------------------------------------------ the numbers that are meant

  predicate OnGrid(a: int, step: int, v: int)
    requires step > 0
  {
    (v - a) % step == 0
  }

  predicate Progression(a: int, b: int, step: int, v: int)
    requires step > 0
  {
    a <= v <= b && OnGrid(a, step, v)
  }

  function ProgressionSet(a: int, b: int, step: int): set<int>
    requires step > 0
  {
    set v: int | a <= v <= b && OnGrid(a, step, v)
  }

  /** The last number counted from a up to b. */
  function Last(a: int, b: int, step: int): int
    requires step > 0
  {
    b - (b - a) % step
  }

  /** Whether counting from a to b passes the largest integer. */
  predicate Overruns(a: int, b: int, step: int)
    requires step > 0
  {
    a <= b && Last(a, b, step) + step > MAX_INT
  }

  lemma RemainderUnique(n: nat, s: nat, q: nat, r: nat)
    requires n == q * s + r && r < s
    ensures n % s == r
  {
    var p := n / s;
    assert n == p * s + n % s;
    if p < q { NextMultiple(p, q, s); }
    if q < p { NextMultiple(q, p, s); }
  }

  lemma {:induction false} NextMultiple(p: nat, q: nat, s: nat)
    requires p < q
    ensures p * s + s <= q * s
  {
    if p + 1 < q { NextMultiple(p, q - 1, s); }
  }

  lemma RemainderBounds(n: nat, s: nat)
    requires s > 0
    ensures 0 <= n % s < s && n % s <= n
  {
    assert n == (n / s) * s + n % s;
  }

  /** One step further, the remainder is the same. */
  lemma RemainderShift(n: nat, s: nat)
    requires s > 0
    ensures (n + s) % s == n % s
  {
    var q := n / s;
    assert n + s == (q + 1) * s + n % s;
    RemainderUnique(n + s, s, q + 1, n % s);
  }

  lemma SmallRemainder(n: nat, s: nat)
    requires n < s
    ensures n % s == n
  {
    RemainderUnique(n, s, 0, n);
  }

  /** The numbers from a on are a and those from a + step on. */
  lemma ProgressionStep(a: int, b: int, step: int)
    requires step > 0 && a <= b
    ensures ProgressionSet(a, b, step) == {a} + ProgressionSet(a + step, b, step)
    ensures a + step <= b ==> Last(a + step, b, step) == Last(a, b, step)
    ensures a + step > b ==> Last(a, b, step) == a
  {
    forall v | v in ProgressionSet(a, b, step)
      ensures v == a || v in ProgressionSet(a + step, b, step)
    {
      if a < v < a + step { SmallRemainder(v - a, step); }
      if v >= a + step { RemainderShift(v - a - step, step); }
    }
    forall v | v in ProgressionSet(a + step, b, step)
      ensures v in ProgressionSet(a, b, step)
    {
      RemainderShift(v - a - step, step);
    }
    SmallRemainder(0, step);
    if a + step <= b { RemainderShift(b - a - step, step); } else { SmallRemainder(b - a, step); }
  }

  /** A counter that does not overrun goes through exactly the numbers that are meant, and ends. */
  lemma {:induction false} VisitExact(a: int, b: int, step: int, rounds: nat)
    requires 0 < step && !Overruns(a, b, step) && b - a < rounds
    ensures Visit(a, b, step, rounds) == Visited(ProgressionSet(a, b, step), true)
    decreases rounds
  {
    if a <= b {
      ProgressionStep(a, b, step);
      RemainderBounds(b - a, step);
      VisitExact(a + step, b, step, rounds - 1);
    }
  }

  // ------------------------------------------------------------ counters that overrun

  /** A counter that overruns goes on, below zero and so below b, where the loop should have
      ended; one that does not overrun ends it. */
  lemma OverrunGoesOn(a: int, b: int, step: int)
    requires MIN_INT <= a <= b <= MAX_INT && 0 < step <= MAX_INT
    ensures var last := Last(a, b, step); a <= last <= b && (if Overruns(a, b, step) then Add(last, step) < 0 < b else Add(last, step) > b)
  {
    RemainderBounds(b - a, step);
  }

  /** A star with step n overruns exactly if n is within min of the largest integer. */
  lemma StarOverrunsIff(min: int, max: int, step: int)
    requires 0 <= min <= max <= MAX_INT / 2 && 0 < step <= MAX_INT
    ensures Overruns(min, max, step) <==> step > MAX_INT - min
  {
    RemainderBounds(max - min, step);
    if step > max - min { SmallRemainder(max - min, step); }
  }

  /** Of the five fields those that count from 1 overrun for one step only. Their loop then goes
      through 1, the smallest integer and -1, and ends. */
  lemma StarOverrun(max: int, rounds: nat)
    requires 1 <= max <= MAX_INT / 2 && rounds >= 3
    ensures Visit(1, max, MAX_INT, rounds) == Visited({1, MIN_INT, -1}, true)
  {
    assert Add(1, MAX_INT) == MIN_INT && Add(MIN_INT, MAX_INT) == -1 && Add(-1, MAX_INT) == MAX_INT - 1;
    var r3 := Visit(MAX_INT - 1, max, MAX_INT, rounds - 3);
    var r2 := Visit(-1, max, MAX_INT, rounds - 2);
    assert r3 == Visited({}, true) && r2 == Visited({-1}, true);
    var r1 := Visit(MIN_INT, max, MAX_INT, rounds - 1);
    assert r1.seen == {MIN_INT} + r2.seen;
    assert {1} + ({MIN_INT} + {-1}) == {1, MIN_INT, -1};
  }

  /** Every star loop of a field ends, and among the numbers in range it goes through exactly those
      that are meant. */
  lemma StarVisits(min: int, max: int, step: int, rounds: nat)
    requires 0 <= min <= 1 <= max <= MAX_INT / 2 && 0 < step <= MAX_INT && rounds >= max - min + 1 && rounds >= 3
    ensures Visit(min, max, step, rounds) ==
            Visited(ProgressionSet(min, max, step) + (if Overruns(min, max, step) then {MIN_INT, -1} else {}), true)
  {
    StarOverrunsIff(min, max, step);
    if Overruns(min, max, step) {
      StarOverrun(max, rounds);
      ProgressionStep(1, max, step);
      assert ProgressionSet(1 + step, max, step) == {};
    } else {
      VisitExact(min, max, step, rounds);
    }
  }

  lemma {:induction false} CounterInRange(v: int, step: int, k: nat)
    requires MIN_INT <= v <= MAX_INT && 0 < step <= MAX_INT
    ensures MIN_INT <= Counter(v, step, k) <= MAX_INT
  {
    if k > 0 { CounterInRange(v, step, k - 1); }
  }

  // ------------------------------------------------------------ loops that end

  /** The largest power of two that divides the step. */
  function TwoPart(step: nat): nat
    requires step > 0
  {
    Pow2(Twos(step))
  }

  /** The largest integer a counter can come to: it keeps its remainder modulo that power of two. */
  function Top(a: int, step: nat): int
    requires step > 0
  {
    MAX_INT - (MAX_INT - a) % TwoPart(step)
  }

  /** The counter is what it would be without wrapping around, less some multiple of 2^64. */
  lemma {:induction false} CounterWraps(a: int, step: int, k: nat) returns (turns: nat)
    ensures Counter(a, step, k) == a + k * step - turns * TWO64
  {
    if k == 0 {
      turns := 0;
    } else {
      turns := CounterWraps(a, step, k - 1);
      NextProduct(k, step);
      if Counter(a, step, k - 1) + step > MAX_INT { turns := turns + 1; }
    }
  }

  lemma NextProduct(k: nat, step: int)
    requires k > 0
    ensures k * step == (k - 1) * step + step
  {
  }

  /** The power of two divides 2^64 as well. */
  lemma TwoPartDivides(step: nat) returns (odd: nat, rest: nat)
    requires 0 < step <= MAX_INT
    ensures step == TwoPart(step) * odd && odd % 2 == 1 && rest <= 64 && TWO64 == TwoPart(step) * Pow2(rest)
  {
    odd := TwosDivide(step);
    var t := Twos(step);
    Pow2Of64();
    if t > 64 {
      Pow2Monotone(64, t);
      Times(Pow2(t), odd);
    }
    rest := 64 - t;
    Pow2Adds(t, rest);
  }

  lemma Times(x: nat, y: nat)
    requires y > 0
    ensures x <= x * y
  {
    assert x * (y - 1) >= 0;
  }

  /** Taking away a multiple of g keeps the remainder. */
  lemma RemainderKept(x: nat, y: nat, z: int, g: nat)
    requires g > 0 && y == x - g * z
    ensures y % g == x % g
  {
    var q, r := x / g, x % g;
    assert x == q * g + r && r < g;
    Distribute(q, z, g);
    if q < z {
      NegativeProduct(q - z, g);
      assert false;
    }
    RemainderUnique(y, g, q - z, r);
  }

  lemma Distribute(q: int, z: int, g: int)
    ensures (q - z) * g == q * g - g * z
  {
  }

  lemma NegativeProduct(x: int, g: nat)
    requires x < 0
    ensures x * g + g <= 0
  {
    NextMultiple(0, -x, g);
    assert (-x) * g == -(x * g);
  }

  /** No counter passes the top. */
  lemma BelowTop(a: int, step: int, k: nat)
    requires MIN_INT <= a <= MAX_INT && 0 < step <= MAX_INT
    ensures Counter(a, step, k) <= Top(a, step)
  {
    var g, c := TwoPart(step), Counter(a, step, k);
    CounterInRange(a, step, k);
    var turns := CounterWraps(a, step, k);
    var odd, rest := TwoPartDivides(step);
    Factor(k, g, odd, turns, Pow2(rest));
    RemainderKept(MAX_INT - a, MAX_INT - c, k * odd - turns * Pow2(rest), g);
    RemainderBounds(MAX_INT - c, g);
  }

  lemma Factor(k: int, g: int, odd: int, turns: int, p: int)
    ensures k * (g * odd) - turns * (g * p) == g * (k * odd - turns * p)
  {
  }

  /** And some counter comes to it: the odd part of the step has an inverse modulo a power of two. */
  lemma ReachesTop(a: int, step: int) returns (k: nat)
    requires MIN_INT <= a <= MAX_INT && 0 < step <= MAX_INT
    ensures Counter(a, step, k) == Top(a, step)
  {
    var g := TwoPart(step);
    var odd, rest := TwoPartDivides(step);
    var inv, c := OddInverse(odd, rest);
    var d := Gap(a, step);
    k := inv * d;
    Solves(g, odd, inv, d, c, Pow2(rest));
    var turns := CounterWraps(a, step, k);
    CounterInRange(a, step, k);
    SameTurn(Counter(a, step, k), Top(a, step), c * d, turns);
  }

  /** The top is a multiple of the power of two away. */
  lemma Gap(a: int, step: nat) returns (d: nat)
    requires MIN_INT <= a <= MAX_INT && 0 < step
    ensures Top(a, step) == a + d * TwoPart(step) && a <= Top(a, step) <= MAX_INT
  {
    var g := TwoPart(step);
    d := (MAX_INT - a) / g;
    RemainderBounds(MAX_INT - a, g);
    assert MAX_INT - a == d * g + (MAX_INT - a) % g;
  }

  lemma Solves(g: nat, odd: nat, inv: nat, d: nat, c: nat, p: nat)
    requires odd * inv == 1 + c * p
    ensures (inv * d) * (g * odd) == d * g + (c * d) * (g * p)
  {
    calc {
      (inv * d) * (g * odd);
      (odd * inv) * (d * g);
      (1 + c * p) * (d * g);
      d * g + (c * p) * (d * g);
      d * g + (c * d) * (g * p);
    }
  }

  /** Two 64-bit integers that differ by a multiple of 2^64 are the same. */
  lemma SameTurn(x: int, y: int, m: int, n: int)
    requires MIN_INT <= x <= MAX_INT && MIN_INT <= y <= MAX_INT && x == y + m * TWO64 - n * TWO64
    ensures x == y
  {
    assert x - y == (m - n) * TWO64;
  }

  ghost predicate EverEnds(a: int, b: int, step: int) { exists rounds: nat :: Visit(a, b, step, rounds).ended }

  /** The loop of a range ends exactly if its bound is below the top its counter can come to. */
  lemma EverEndsIff(a: int, b: int, step: int)
    requires MIN_INT <= a <= MAX_INT && 0 < step <= MAX_INT
    ensures EverEnds(a, b, step) <==> b < Top(a, step)
  {
    if rounds: nat :| Visit(a, b, step, rounds).ended {
      EndsIff(a, b, step, rounds);
      var k: nat :| k <= rounds && Counter(a, step, k) > b;
      BelowTop(a, step, k);
    }
    if b < Top(a, step) {
      var k := ReachesTop(a, step);
      EndsIff(a, b, step, k);
      assert Visit(a, b, step, k).ended;
    }
  }

  // ------------------------------------------------------------ what an ended loop went through

  /** The counter comes to x before it is above b. */
  ghost predicate Passes(a: int, b: int, step: int, x: int) {
    exists k: nat :: Counter(a, step, k) == x && WithinBound(a, b, step, k)
  }

  lemma PassesFirst(a: int, b: int, step: int, x: int)
    ensures Passes(a, b, step, x) <==> a <= b && (x == a || Passes(Add(a, step), b, step, x))
  {
    assert Counter(a, step, 0) == a;
    if k: nat :| Counter(a, step, k) == x && WithinBound(a, b, step, k) {
      if k > 0 {
        WithinStep(a, b, step, k);
        CounterFirst(a, step, k - 1);
      }
    }
    if a <= b {
      if x == a { assert WithinBound(a, b, step, 0); }
      if k: nat :| Counter(Add(a, step), step, k) == x && WithinBound(Add(a, step), b, step, k) {
        WithinStep(a, b, step, k + 1);
        CounterFirst(a, step, k);
      }
    }
  }

  lemma {:induction false} SeenIff(a: int, b: int, step: int, rounds: nat, x: int)
    requires Visit(a, b, step, rounds).ended
    ensures x in Visit(a, b, step, rounds).seen <==> Passes(a, b, step, x)
    decreases rounds
  {
    PassesFirst(a, b, step, x);
    if a <= b { SeenIff(Add(a, step), b, step, rounds - 1, x); }
  }

  /** The numbers that are meant are among them. */
  lemma {:induction false} MeantIsSeen(a: int, b: int, step: int, rounds: nat, x: int)
    requires 0 < step && b <= MAX_INT && Visit(a, b, step, rounds).ended && Progression(a, b, step, x)
    ensures x in Visit(a, b, step, rounds).seen
    decreases rounds
  {
    if x != a {
      ProgressionStep(a, b, step);
      assert x in ProgressionSet(a, b, step);
      MeantIsSeen(a + step, b, step, rounds - 1, x);
    }
  }
}
