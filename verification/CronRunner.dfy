/**
 Whole cron expressions and the loop that runs a cron task (schedule/schedule.go). Time is
 counted in nanoseconds; which minute, hour, day, month and weekday a moment falls on is a
 function of its minute.
 */
module CronRunner {
  import opened Wrappers
  import opened Strings
  import opened Numerals
  import opened Cron

  datatype Expr = Expr(minute: Field, hour: Field, day: Field, month: Field, week: Field)

  datatype Parse = Ok(expr: Expr) | Fails | Unfinished

  /** The calendar reading of a minute. */
  datatype Moment = Moment(minute: int, hour: int, day: int, month: int, week: int)

  predicate OnCalendar(t: Moment) {
    0 <= t.minute <= 59 && 0 <= t.hour <= 23 && 1 <= t.day <= 31 && 1 <= t.month <= 12 && 0 <= t.week <= 6
  }

  // ------------------------------------------------------------ five fields

  function Refused(o: Outcome): Parse { if o.Bad? then Fails else Unfinished }

  /** The fields in order, up to the first one that is not accepted. */
  function CronOf(expr: string, rounds: nat): Parse {
    var parts := Fields(expr);
    if |parts| != 5 then Fails
    else Combine(FieldOf(parts[0], 0, 59, rounds), FieldOf(parts[1], 0, 23, rounds), FieldOf(parts[2], 1, 31, rounds), FieldOf(parts[3], 1, 12, rounds), FieldOf(parts[4], 0, 6, rounds))
  }

  function Combine(minute: Outcome, hour: Outcome, day: Outcome, month: Outcome, week: Outcome): Parse {
    if !minute.Parsed? then Refused(minute)
    else if !hour.Parsed? then Refused(hour)
    else if !day.Parsed? then Refused(day)
    else if !month.Parsed? then Refused(month)
    else if !week.Parsed? then Refused(week)
    else Ok(Expr(minute.field, hour.field, day.field, month.field, week.field))
  }

  predicate Matches(x: Expr, t: Moment) {
    Match(x.minute, t.minute) && Match(x.hour, t.hour) && Match(x.day, t.day) && Match(x.month, t.month) && Match(x.week, t.week)
  }

  /** A field text lets a number through: it is "*", or one of its parts does. */
  ghost predicate Lets(text: string, min: int, max: int, v: int) { text == "*" || SomePartAdmits(Split(text, ','), min, max, v) }

  /** An accepted expression matches a moment exactly if each of its five texts lets through the
      reading it stands for. */
  lemma CronMatchesIff(expr: string, rounds: nat, t: Moment)
    requires CronOf(expr, rounds).Ok? && OnCalendar(t)
    ensures
      var parts := Fields(expr);
      && |parts| == 5
      && (Matches(CronOf(expr, rounds).expr, t) <==>
          && Lets(parts[0], 0, 59, t.minute) && Lets(parts[1], 0, 23, t.hour) && Lets(parts[2], 1, 31, t.day)
          && Lets(parts[3], 1, 12, t.month) && Lets(parts[4], 0, 6, t.week))
  {
    var parts := Fields(expr);
    FieldsParsed(expr, rounds);
    FieldMatchesIff(parts[0], 0, 59, rounds, t.minute);
    FieldMatchesIff(parts[1], 0, 23, rounds, t.hour);
    FieldMatchesIff(parts[2], 1, 31, rounds, t.day);
    FieldMatchesIff(parts[3], 1, 12, rounds, t.month);
    FieldMatchesIff(parts[4], 0, 6, rounds, t.week);
  }

  lemma FieldsParsed(expr: string, rounds: nat)
    requires CronOf(expr, rounds).Ok?
    ensures
      var parts, x := Fields(expr), CronOf(expr, rounds).expr;
      && |parts| == 5
      && FieldOf(parts[0], 0, 59, rounds) == Parsed(x.minute) && FieldOf(parts[1], 0, 23, rounds) == Parsed(x.hour)
      && FieldOf(parts[2], 1, 31, rounds) == Parsed(x.day) && FieldOf(parts[3], 1, 12, rounds) == Parsed(x.month) && FieldOf(parts[4], 0, 6, rounds) == Parsed(x.week)
  {
  }

  lemma FieldMatchesIff(text: string, min: int, max: int, rounds: nat, v: int)
    requires FieldBounds(min, max) && FieldOf(text, min, max, rounds).Parsed? && min <= v <= max
    ensures Match(FieldOf(text, min, max, rounds).field, v) <==> Lets(text, min, max, v)
  {
    AcceptedMatches(text, min, max, rounds, v);
  }

  /** parseCron. */
  method ParseCron(expr: string, rounds: nat) returns (r: Parse)
    ensures r == CronOf(expr, rounds)
  {
    var parts := Fields(expr);
    if |parts| != 5 { return Fails; }
    var minute := ParseField(parts[0], 0, 59, rounds);
    if !minute.Parsed? { return Refused(minute); }
    var hour := ParseField(parts[1], 0, 23, rounds);
    if !hour.Parsed? { return Refused(hour); }
    var day := ParseField(parts[2], 1, 31, rounds);
    if !day.Parsed? { return Refused(day); }
    var month := ParseField(parts[3], 1, 12, rounds);
    if !month.Parsed? { return Refused(month); }
    var week := ParseField(parts[4], 0, 6, rounds);
    if !week.Parsed? { return Refused(week); }
    return Ok(Expr(minute.field, hour.field, day.field, month.field, week.field));
  }

  /** Words with single spaces between them. */
  function JoinWords(ws: seq<string>): string
    requires ws != []
  {
    if |ws| == 1 then ws[0] else ws[0] + (" " + JoinWords(ws[1..]))
  }

  /** Reading the words of a line that was joined from words gives them back: in particular five
      field texts make up an expression with those fields. */
  lemma {:induction false} FieldsOfWords(ws: seq<string>)
    requires ws != [] && forall i :: 0 <= i < |ws| ==> ws[i] != "" && NoSpace(ws[i])
    ensures Fields(JoinWords(ws)) == ws
    decreases |ws|
  {
    if |ws| == 1 {
      FieldsFirst(ws[0], "");
      assert ws[0] + "" == ws[0] && Fields("") == [] && [ws[0]] + [] == ws;
    } else {
      NextField(ws[0], JoinWords(ws[1..]));
      FieldsOfWords(ws[1..]);
      assert [ws[0]] + ws[1..] == ws;
    }
  }

  lemma NextField(w: string, rest: string)
    requires w != "" && NoSpace(w)
    ensures Fields(w + (" " + rest)) == [w] + Fields(rest)
  {
    assert (" " + rest)[0] == ' ';
    FieldsFirst(w, " " + rest);
    FieldsSkip(' ', rest);
  }

  // ------------------------------------------------------------ the loop

  const MINUTE := 60_000_000_000

  function MinuteOf(t: nat): nat { t / MINUTE }

  /** now.Truncate(time.Minute).Add(time.Minute) */
  function NextMinute(now: nat): nat { (MinuteOf(now) + 1) * MINUTE }

  /** The outside world in one turn: the clock before the wait, and how much time passes until the
      length of the wait is computed, from its end until the timer fires, and until the
      expression is matched. */
  datatype Turn = Turn(now: nat, toCompute: nat, late: nat, toMatch: nat)

  /** When the expression is matched: time.Until gives the rest of the minute, or a wait that is
      over already. */
  function MatchedAt(t: Turn): nat {
    var until := t.now + t.toCompute;
    var wait := NextMinute(t.now) - until;
    until + (if wait > 0 then wait else 0) + t.late + t.toMatch
  }

  /** Time does not run backwards from one turn to the next. */
  ghost predicate Clock(turns: seq<Turn>) {
    forall i :: 0 < i < |turns| ==> MatchedAt(turns[i - 1]) <= turns[i].now
  }

  type Calendar = nat -> Moment

  /** runCron: the moments at which the task is invoked. */
  method RunCron(x: Expr, cal: Calendar, turns: seq<Turn>) returns (fired: seq<nat>)
    ensures fired == Firings(x, cal, turns)
  {
    fired := [];
    assert turns[..0] == [];
    for i := 0 to |turns|
      invariant fired == Firings(x, cal, turns[..i])
    {
      assert turns[..i + 1][..i] == turns[..i];
      var now := turns[i].now;
      var next := now - now % MINUTE + MINUTE;
      TruncatedIs(now);
      now := now + turns[i].toCompute;
      if next > now { now := next; }
      now := now + turns[i].late + turns[i].toMatch;
      if Matches(x, cal(MinuteOf(now))) { fired := fired + [now]; }
    }
    assert turns[..|turns|] == turns;
  }

  lemma TruncatedIs(now: nat)
    ensures now - now % MINUTE + MINUTE == NextMinute(now)
  {
  }

  function Firings(x: Expr, cal: Calendar, turns: seq<Turn>): seq<nat> {
    if turns == [] then []
    else
      var n := |turns| - 1;
      Firings(x, cal, turns[..n]) + if Matches(x, cal(MinuteOf(MatchedAt(turns[n])))) then [MatchedAt(turns[n])] else []
  }

  lemma LaterMinute(a: nat, b: nat)
    requires a <= b
    ensures MinuteOf(a) <= MinuteOf(b)
  {
  }

  /** Each turn ends in a later minute than it began in. */
  lemma WakesLater(t: Turn)
    ensures MinuteOf(MatchedAt(t)) > MinuteOf(t.now)
  {
    assert MatchedAt(t) >= NextMinute(t.now);
    LaterMinute(NextMinute(t.now), MatchedAt(t));
  }

  /** How far into the next minute, or past it, the expression is matched: what the wait could not make up
      for, the timer's delay, and the time until the match. */
  function Lateness(t: Turn): nat {
    var left := MINUTE - t.now % MINUTE;
    (if t.toCompute > left then t.toCompute - left else 0) + t.late + t.toMatch
  }

  /** A turn ends in the very next minute exactly if it is less than a minute late; and that many nanoseconds
      after its start. */
  lemma EndsNextMinuteIff(t: Turn)
    ensures MatchedAt(t) == t.now - t.now % MINUTE + 60_000_000_000 + Lateness(t)
    ensures MinuteOf(MatchedAt(t)) == MinuteOf(t.now) + 1 <==> Lateness(t) < 60_000_000_000
  {
    TruncatedIs(t.now);
    var base := NextMinute(t.now);
    assert MatchedAt(t) == base + Lateness(t);
    InMinute(MinuteOf(t.now) + 1, Lateness(t));
  }

  lemma InMinute(k: nat, d: nat)
    ensures MinuteOf(k * MINUTE + d) == k <==> d < MINUTE
  {
    var t := k * MINUTE + d;
    assert t == MinuteOf(t) * MINUTE + t % MINUTE;
  }

  /** All within their own minutes, none later than `last`, and each matching. */
  ghost predicate OncePerMinute(x: Expr, cal: Calendar, fired: seq<nat>, last: nat) {
    && (forall i, j :: 0 <= i < j < |fired| ==> MinuteOf(fired[i]) < MinuteOf(fired[j]))
    && (forall i :: 0 <= i < |fired| ==> MinuteOf(fired[i]) <= MinuteOf(last) && Matches(x, cal(MinuteOf(fired[i]))))
  }

  lemma OneMoreFiring(x: Expr, cal: Calendar, fired: seq<nat>, last: nat, t: nat)
    requires OncePerMinute(x, cal, fired, last) && MinuteOf(last) < MinuteOf(t)
    ensures OncePerMinute(x, cal, fired, t)
    ensures Matches(x, cal(MinuteOf(t))) ==> OncePerMinute(x, cal, fired + [t], t)
  {
  }

  /** A cron task runs at most once per minute, in order, and only in matching minutes. */
  lemma {:induction false} FiresOncePerMinute(x: Expr, cal: Calendar, turns: seq<Turn>)
    requires turns != [] && Clock(turns)
    ensures OncePerMinute(x, cal, Firings(x, cal, turns), MatchedAt(turns[|turns| - 1]))
    decreases |turns|
  {
    var n := |turns| - 1;
    WakesLater(turns[n]);
    if n > 0 {
      FiresOncePerMinute(x, cal, turns[..n]);
      LaterMinute(MatchedAt(turns[n - 1]), turns[n].now);
      OneMoreFiring(x, cal, Firings(x, cal, turns[..n]), MatchedAt(turns[n - 1]), MatchedAt(turns[n]));
    } else {
      assert Firings(x, cal, turns[..0]) == [];
    }
  }

  /** A punctual loop reads the clock in the minute it waited for, and begins its next turn in
      that same minute. */
  ghost predicate Punctual(turns: seq<Turn>) {
    && (forall i :: 0 <= i < |turns| ==> MinuteOf(MatchedAt(turns[i])) == MinuteOf(turns[i].now) + 1)
    && (forall i :: 0 < i < |turns| ==> MinuteOf(turns[i].now) == MinuteOf(MatchedAt(turns[i - 1])))
  }

  /** The matching minutes after `from`, up to `n` of them later. */
  function MatchingMinutes(x: Expr, cal: Calendar, from: nat, n: nat): seq<nat> {
    if n == 0 then [] else MatchingMinutes(x, cal, from, n - 1) + if Matches(x, cal(from + n)) then [from + n] else []
  }

  function MinutesOf(ts: seq<nat>): (r: seq<nat>)
    ensures |r| == |ts| && forall i :: 0 <= i < |ts| ==> r[i] == MinuteOf(ts[i])
  {
    seq(|ts|, i requires 0 <= i < |ts| => MinuteOf(ts[i]))
  }

  lemma {:induction false} PunctualMinutes(turns: seq<Turn>, i: nat)
    requires Punctual(turns) && i < |turns|
    ensures MinuteOf(MatchedAt(turns[i])) == MinuteOf(turns[0].now) + i + 1
    decreases i
  {
    if i > 0 { PunctualMinutes(turns, i - 1); }
  }

  /** A punctual loop misses nothing: the task runs once in every matching minute it passes. */
  lemma {:induction false} PunctualMissesNothing(x: Expr, cal: Calendar, turns: seq<Turn>)
    requires turns != [] && Punctual(turns)
    ensures MinutesOf(Firings(x, cal, turns)) == MatchingMinutes(x, cal, MinuteOf(turns[0].now), |turns|)
    decreases |turns|
  {
    var n := |turns| - 1;
    PunctualMinutes(turns, n);
    if n > 0 {
      PunctualMissesNothing(x, cal, turns[..n]);
    } else {
      assert Firings(x, cal, turns[..0]) == [];
    }
  }
}
