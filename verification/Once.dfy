/**
 Once over an expiring lock (cache/cache.go, lock/lock.go).

 Any number of callers, on any keys, take their steps in any order. Every Store and
 Locker call is one atomic step at the current clock reading; time passes between
 steps. Locks and markers carry expiry times, and release deletes the lock entry
 of its key without asking whose it is.
 */
module Once {
  import opened Wrappers

  const TEN_SECONDS := 10_000_000_000

  /** Lifetime of a lock: a non-positive ttl means ten seconds. */
  function LockTtl(ttl: int): (d: int)
    ensures d > 0
  {
    if ttl <= 0 then TEN_SECONDS else ttl
  }

  /** Expiry of a marker: a non-positive ttl means never (None). */
  function MarkerExpiry(now: int, ttl: int): Option<int> {
    if ttl > 0 then Some(now + ttl) else None
  }

  /** Where a caller is inside Once; from Checking on it holds a lock expiring at `exp`. */
  datatype Pc =
    | Start | Locking
    | Checking(exp: int) | Ready(exp: int) | Running(exp: int) | Storing(exp: int) | Releasing(exp: int)
    | Done
  {
    predicate Holds() { !Start? && !Locking? && !Done? }
    predicate Clear() { Ready? || Running? || Storing? }
  }

  datatype Caller = Caller(key: string, ttl: int, pc: Pc)

  datatype State = State(now: int, held: map<string, int>, markers: map<string, Option<int>>, callers: seq<Caller>)

  /** One step. `err` says that the backend call of the step failed; `ok` is fn's result. */
  datatype Action =
    | Check(i: nat, err: bool)
    | Acquire(i: nat, err: bool)
    | Recheck(i: nat, err: bool)
    | Begin(i: nat)
    | Finish(i: nat, ok: bool)
    | Mark(i: nat, err: bool)
    | Release(i: nat)
    | Tick(d: nat)
    | Purge(key: string)

  predicate Live(markers: map<string, Option<int>>, key: string, now: int) {
    key in markers && (markers[key].None? || now <= markers[key].value)
  }

  predicate Locked(held: map<string, int>, key: string, now: int) { key in held && now < held[key] }

  function Goto(s: State, i: nat, pc: Pc): State
    requires i < |s.callers|
  {
    s.(callers := s.callers[i := s.callers[i].(pc := pc)])
  }

  predicate Enabled(s: State, a: Action) {
    match a
    case Tick(_) => true
    case Purge(key) => key in s.markers && !Live(s.markers, key, s.now)
    case Check(i, _) => i < |s.callers| && s.callers[i].pc.Start?
    case Acquire(i, _) => i < |s.callers| && s.callers[i].pc.Locking?
    case Recheck(i, _) => i < |s.callers| && s.callers[i].pc.Checking?
    case Begin(i) => i < |s.callers| && s.callers[i].pc.Ready?
    case Finish(i, _) => i < |s.callers| && s.callers[i].pc.Running?
    case Mark(i, _) => i < |s.callers| && s.callers[i].pc.Storing?
    case Release(i) => i < |s.callers| && s.callers[i].pc.Releasing?
  }

  /** The effect of a step; a step that is not enabled does nothing. */
  function Step(s: State, a: Action): (t: State)
    ensures |t.callers| == |s.callers|
  {
    if !Enabled(s, a) then s
    else
      match a
      case Tick(d) => s.(now := s.now + d)
      case Purge(key) => s.(markers := s.markers - {key})
      case Check(i, err) =>
        Goto(s, i, if err || Live(s.markers, s.callers[i].key, s.now) then Done else Locking)
      case Acquire(i, err) =>
        var c := s.callers[i];
        if err || Locked(s.held, c.key, s.now) then Goto(s, i, Done)
        else
          var exp := s.now + LockTtl(c.ttl);
          Goto(s.(held := s.held[c.key := exp]), i, Checking(exp))
      case Recheck(i, err) =>
        var c := s.callers[i];
        Goto(s, i, if err || Live(s.markers, c.key, s.now) then Releasing(c.pc.exp) else Ready(c.pc.exp))
      case Begin(i) => Goto(s, i, Running(s.callers[i].pc.exp))
      case Finish(i, ok) =>
        var exp := s.callers[i].pc.exp;
        Goto(s, i, if ok then Storing(exp) else Releasing(exp))
      case Mark(i, err) =>
        var c := s.callers[i];
        Goto(if err then s else s.(markers := s.markers[c.key := MarkerExpiry(s.now, c.ttl)]), i, Releasing(c.pc.exp))
      case Release(i) => Goto(s.(held := s.held - {s.callers[i].key}), i, Done)
  }

  function Run(s: State, actions: seq<Action>): (t: State)
    ensures |t.callers| == |s.callers|
  {
    if actions == [] then s else Step(Run(s, actions[..|actions| - 1]), actions[|actions| - 1])
  }

  // ------------------------------------------------------------ hypotheses and invariant

  /** Nobody has called yet; locks and markers may be left over from earlier. */
  ghost predicate Initial(s: State) {
    forall i :: 0 <= i < |s.callers| ==> s.callers[i].pc.Start?
  }

  /** No lock has expired under its holder. */
  ghost predicate Timely(s: State) {
    forall i :: 0 <= i < |s.callers| && s.callers[i].pc.Holds() ==> s.now < s.callers[i].pc.exp
  }

  /** Every holder releases its lock before it expires. */
  ghost predicate TimelyRun(s: State, actions: seq<Action>) {
    forall k :: 0 <= k <= |actions| ==> Timely(Run(s, actions[..k]))
  }

  ghost predicate Safe(s: State) {
    && (forall i :: 0 <= i < |s.callers| && s.callers[i].pc.Holds() ==>
          s.callers[i].key in s.held && s.held[s.callers[i].key] == s.callers[i].pc.exp)
    && (forall i, j :: 0 <= i < j < |s.callers| && s.callers[i].pc.Holds() && s.callers[j].pc.Holds() ==>
          s.callers[i].key != s.callers[j].key)
    && (forall i :: 0 <= i < |s.callers| && s.callers[i].pc.Clear() ==> !Live(s.markers, s.callers[i].key, s.now))
  }

  /** A step that moves one caller on, without gaining a lock, and touches neither table. */
  lemma GotoSafe(s: State, i: nat, pc: Pc)
    requires Safe(s) && i < |s.callers|
    requires pc.Holds() ==> s.callers[i].pc.Holds() && pc.exp == s.callers[i].pc.exp
    requires pc.Clear() ==> !Live(s.markers, s.callers[i].key, s.now)
    ensures Safe(Goto(s, i, pc))
  {
  }

  lemma AcquireSafe(s: State, i: nat)
    requires Safe(s) && Timely(s) && Enabled(s, Acquire(i, false)) && !Locked(s.held, s.callers[i].key, s.now)
    ensures Safe(Step(s, Acquire(i, false)))
  {
    var t := Step(s, Acquire(i, false));
    forall j | 0 <= j < |s.callers| && s.callers[j].pc.Holds() ensures s.callers[j].key != s.callers[i].key {}
  }

  lemma MarkSafe(s: State, i: nat)
    requires Safe(s) && Enabled(s, Mark(i, false))
    ensures Safe(Step(s, Mark(i, false)))
  {
  }

  lemma ReleaseSafe(s: State, i: nat)
    requires Safe(s) && Enabled(s, Release(i))
    ensures Safe(Step(s, Release(i)))
  {
  }

  lemma StepSafe(s: State, a: Action)
    requires Safe(s) && Timely(s)
    ensures Safe(Step(s, a))
  {
    if Enabled(s, a) {
      match a
      case Tick(_) =>
      case Purge(_) =>
      case Check(i, err) => GotoSafe(s, i, Done); GotoSafe(s, i, Locking);
      case Acquire(i, err) =>
        if err || Locked(s.held, s.callers[i].key, s.now) { GotoSafe(s, i, Done); } else { AcquireSafe(s, i); }
      case Recheck(i, err) =>
        var c := s.callers[i];
        if err || Live(s.markers, c.key, s.now) { GotoSafe(s, i, Releasing(c.pc.exp)); } else { GotoSafe(s, i, Ready(c.pc.exp)); }
      case Begin(i) => GotoSafe(s, i, Running(s.callers[i].pc.exp));
      case Finish(i, ok) => GotoSafe(s, i, Storing(s.callers[i].pc.exp)); GotoSafe(s, i, Releasing(s.callers[i].pc.exp));
      case Mark(i, err) => if err { GotoSafe(s, i, Releasing(s.callers[i].pc.exp)); } else { MarkSafe(s, i); }
      case Release(i) => ReleaseSafe(s, i);
    }
  }

  lemma RunPrefix(s: State, actions: seq<Action>, k: nat)
    requires k < |actions|
    ensures Run(s, actions[..k + 1]) == Step(Run(s, actions[..k]), actions[k])
  {
    assert actions[..k + 1][..k] == actions[..k];
  }

  lemma {:induction false} RunSafe(s: State, actions: seq<Action>, k: nat)
    requires Initial(s) && TimelyRun(s, actions) && k <= |actions|
    ensures Safe(Run(s, actions[..k]))
  {
    if k > 0 {
      RunSafe(s, actions, k - 1);
      RunPrefix(s, actions, k - 1);
      StepSafe(Run(s, actions[..k - 1]), actions[k - 1]);
    }
  }

  // ------------------------------------------------------------ the promises of Once

  /** Two runs of fn for one key never overlap. */
  lemma MutualExclusion(s: State, actions: seq<Action>, k: nat, i: nat, j: nat)
    requires Initial(s) && TimelyRun(s, actions) && k <= |actions|
    ensures
      var t := Run(s, actions[..k]);
      i < j < |t.callers| && t.callers[i].pc.Running? && t.callers[j].pc.Running? ==> t.callers[i].key != t.callers[j].key
  {
    RunSafe(s, actions, k);
  }

  /** Release removes the releasing caller's own lock, and nobody else's. */
  lemma ReleaseRemovesOwnLock(s: State, actions: seq<Action>, k: nat, i: nat)
    requires Initial(s) && TimelyRun(s, actions) && k < |actions|
    requires actions[k] == Release(i) && Enabled(Run(s, actions[..k]), actions[k])
    ensures
      var t, u := Run(s, actions[..k]), Run(s, actions[..k + 1]);
      var c := t.callers[i];
      && c.key in t.held && t.held[c.key] == c.pc.exp && u.held == t.held - {c.key}
      && forall j :: 0 <= j < |u.callers| && u.callers[j].pc.Holds() ==>
           u.callers[j].key in u.held && u.held[u.callers[j].key] == u.callers[j].pc.exp
  {
    RunSafe(s, actions, k);
    RunSafe(s, actions, k + 1);
    RunPrefix(s, actions, k);
  }

  /** The marker is as written, or it has expired. */
  predicate Kept(s: State, key: string, expiry: Option<int>) {
    (expiry.Some? && expiry.value < s.now) || (key in s.markers && s.markers[key] == expiry)
  }

  lemma MarkerStep(s: State, a: Action, key: string, expiry: Option<int>)
    requires Safe(s) && Kept(s, key, expiry)
    ensures Kept(Step(s, a), key, expiry)
  {
    if expiry.None? || s.now <= expiry.value { assert Live(s.markers, key, s.now); }
  }

  lemma MarkerRunStep(s: State, actions: seq<Action>, k: nat, key: string, expiry: Option<int>)
    requires k < |actions| && Safe(Run(s, actions[..k])) && Kept(Run(s, actions[..k]), key, expiry)
    ensures Kept(Run(s, actions[..k + 1]), key, expiry)
  {
    RunPrefix(s, actions, k);
    MarkerStep(Run(s, actions[..k]), actions[k], key, expiry);
  }

  /** A marker stays as written until it expires. */
  lemma {:induction false} MarkerPersists(s: State, actions: seq<Action>, a: nat, b: nat, key: string, expiry: Option<int>)
    requires Initial(s) && TimelyRun(s, actions) && a <= b <= |actions|
    requires Kept(Run(s, actions[..a]), key, expiry)
    ensures Kept(Run(s, actions[..b]), key, expiry)
    decreases b - a
  {
    if a < b {
      MarkerPersists(s, actions, a, b - 1, key, expiry);
      RunSafe(s, actions, b - 1);
      MarkerRunStep(s, actions, b - 1, key, expiry);
    }
  }

  /** After a successful fn has set its marker (step a), no fn for the key starts (step b)
      before that marker has expired; with no expiry none ever starts. */
  lemma NoStartWhileMarked(s: State, actions: seq<Action>, a: nat, b: nat, i: nat, j: nat)
    requires Initial(s) && TimelyRun(s, actions) && a < b < |actions|
    requires actions[a] == Mark(i, false) && Enabled(Run(s, actions[..a]), actions[a])
    requires actions[b] == Begin(j) && Enabled(Run(s, actions[..b]), actions[b])
    requires Run(s, actions[..a]).callers[i].key == Run(s, actions[..b]).callers[j].key
    ensures
      var t, u := Run(s, actions[..a]), Run(s, actions[..b]);
      t.callers[i].ttl > 0 && t.now + t.callers[i].ttl < u.now
  {
    var t := Run(s, actions[..a]);
    var c := t.callers[i];
    RunPrefix(s, actions, a);
    MarkerPersists(s, actions, a + 1, b, c.key, MarkerExpiry(t.now, c.ttl));
    RunSafe(s, actions, b);
  }

  /** The hypothesis is needed in every state: once a running holder's lock has expired,
      any caller of the same key waiting for the lock can start fn as well. */
  lemma ExpiredLockAllowsOverlap(s: State, i: nat, j: nat)
    requires i < |s.callers| && j < |s.callers| && i != j && s.callers[i].key == s.callers[j].key
    requires s.callers[i].pc.Running? && s.callers[j].pc.Locking?
    requires Safe(s) && s.callers[i].pc.exp <= s.now
    ensures
      var t := Run(s, [Acquire(j, false), Recheck(j, false), Begin(j)]);
      t.callers[i].pc.Running? && t.callers[j].pc.Running?
  {
    var acts := [Acquire(j, false), Recheck(j, false), Begin(j)];
    assert acts[..0] == [] && acts[..3] == acts;
    RunPrefix(s, acts, 0);
    RunPrefix(s, acts, 1);
    RunPrefix(s, acts, 2);
    ThreeSteps(s, i, j);
  }

  lemma ThreeSteps(s: State, i: nat, j: nat)
    requires i < |s.callers| && j < |s.callers| && i != j && s.callers[i].key == s.callers[j].key
    requires s.callers[i].pc.Running? && s.callers[j].pc.Locking?
    requires Safe(s) && s.callers[i].pc.exp <= s.now
    ensures
      var t := Step(Step(Step(s, Acquire(j, false)), Recheck(j, false)), Begin(j));
      t.callers[i].pc.Running? && t.callers[j].pc.Running?
  {
    var t1 := Step(s, Acquire(j, false));
    assert t1.callers[j].pc.Checking? && t1.callers[i] == s.callers[i] && t1.markers == s.markers && t1.now == s.now;
    var t2 := Step(t1, Recheck(j, false));
    assert t2.callers[j].pc.Ready? && t2.callers[i] == s.callers[i];
  }

  // ------------------------------------------------------------ how long locks and markers last

  /** A free caller of an unmarked, unlocked key runs fn; a marker or a lock stops it. */
  lemma FourSteps(s: State, j: nat)
    requires j < |s.callers| && s.callers[j].pc.Start?
    ensures
      var t := Step(Step(Step(Step(s, Check(j, false)), Acquire(j, false)), Recheck(j, false)), Begin(j));
      t.callers[j].pc.Running? <==> !Live(s.markers, s.callers[j].key, s.now) && !Locked(s.held, s.callers[j].key, s.now)
  {
    var c := s.callers[j];
    var t1 := Step(s, Check(j, false));
    assert t1 == Goto(s, j, if Live(s.markers, c.key, s.now) then Done else Locking);
    var t2 := Step(t1, Acquire(j, false));
    assert t2.markers == s.markers && t2.now == s.now && t2.callers[j].key == c.key;
    if Live(s.markers, c.key, s.now) || Locked(s.held, c.key, s.now) {
      assert t2.callers[j].pc.Done?;
      assert Step(t2, Recheck(j, false)) == t2;
    } else {
      var t3 := Step(t2, Recheck(j, false));
      assert t3.callers[j].pc.Ready?;
    }
  }

  /** After a successful fn has set its marker and released the lock, the next caller that comes d later
      runs fn exactly if the marker's lifetime is positive and over. */
  lemma RunsAgainIff(s: State, i: nat, j: nat, d: nat)
    requires i < |s.callers| && j < |s.callers| && i != j && s.callers[i].key == s.callers[j].key
    requires s.callers[i].pc.Storing? && s.callers[j].pc.Start?
    ensures
      var u := Step(Step(Step(s, Mark(i, false)), Release(i)), Tick(d));
      var t := Step(Step(Step(Step(u, Check(j, false)), Acquire(j, false)), Recheck(j, false)), Begin(j));
      t.callers[j].pc.Running? <==> 0 < s.callers[i].ttl < d
  {
    var c, m := s.callers[i], Step(s, Mark(i, false));
    assert m.callers[i].pc.Releasing? && m.callers[j] == s.callers[j] && m.now == s.now;
    var r := Step(m, Release(i));
    assert r.markers == m.markers && c.key !in r.held && r.callers[j] == s.callers[j] && r.now == s.now;
    FourSteps(Step(r, Tick(d)), j);
  }

  /** A lock that is not released can be taken again exactly when its lifetime is over: ten seconds if none
      was asked for. */
  lemma LockedAgainIff(s: State, i: nat, j: nat, d: nat)
    requires i < |s.callers| && j < |s.callers| && i != j && s.callers[i].key == s.callers[j].key
    requires s.callers[i].pc.Locking? && s.callers[j].pc.Locking? && !Locked(s.held, s.callers[i].key, s.now)
    ensures
      var t := Step(Step(Step(s, Acquire(i, false)), Tick(d)), Acquire(j, false));
      t.callers[i].pc.Checking? && (t.callers[j].pc.Checking? <==> d >= if s.callers[i].ttl > 0 then s.callers[i].ttl else 10_000_000_000)
  {
    var a := Step(s, Acquire(i, false));
    assert a.callers[i].pc.Checking? && a.callers[j] == s.callers[j] && a.now == s.now;
    var u := Step(a, Tick(d));
    assert u.held == a.held && u.callers == a.callers;
  }

  // ------------------------------------------------------------ the code of one caller

  class Manager {
    var held: map<string, int>
    var markers: map<string, Option<int>>

    method Has(key: string, now: int) returns (ok: bool)
      ensures ok == Live(markers, key, now)
    {
      ok := key in markers && (markers[key].None? || now <= markers[key].value);
    }

    method AcquireLock(key: string, ttl: int, now: int) returns (acquired: bool)
      modifies this`held
      ensures acquired == !Locked(old(held), key, now)
      ensures held == if acquired then old(held)[key := now + LockTtl(ttl)] else old(held)
    {
      if key in held && now < held[key] { return false; }
      held := held[key := now + LockTtl(ttl)];
      acquired := true;
    }

    method Set(key: string, ttl: int, now: int)
      modifies this`markers
      ensures markers == old(markers)[key := MarkerExpiry(now, ttl)]
    {
      markers := markers[key := if ttl > 0 then Some(now + ttl) else None];
    }

    /** The body of Once. The backend calls happen at times t[0] <= t[1] <= ... and fail as `e`
        says; `fnOk` is fn's result. It performs the steps of a caller of the state machine. */
    method Once(key: string, ttl: int, fnOk: bool, t: seq<nat>, e: Errors) returns (ran: bool, failed: bool)
      requires |t| == 4 && t[0] <= t[1] <= t[2] <= t[3]
      modifies this`held, this`markers
      ensures
        var s := Run(State(t[0], old(held), old(markers), [Caller(key, ttl, Start)]), Solo(t, fnOk, e));
        held == s.held && markers == s.markers && s.callers[0].pc.Done?
      ensures
        var locks := !e.check && !Live(old(markers), key, t[0]) && !e.lock && !Locked(old(held), key, t[1]);
        && (ran <==> locks && !e.recheck && !Live(old(markers), key, t[2]))
        && (failed <==> e.check || (!Live(old(markers), key, t[0]) && e.lock) || (locks && e.recheck) || (ran && (!fnOk || e.mark)))
    {
      SoloRun(State(t[0], held, markers, [Caller(key, ttl, Start)]), t, fnOk, e);
      if e.check { return false, true; }
      var ok := Has(key, t[0]);
      if ok { return false, false; }
      if e.lock { return false, true; }
      var acquired := AcquireLock(key, ttl, t[1]);
      if !acquired { return false, false; }
      ok := Has(key, t[2]);
      ran := !e.recheck && !ok;
      if ran && fnOk && !e.mark { Set(key, ttl, t[3]); }
      failed := e.recheck || (ran && (!fnOk || e.mark));
      held := held - {key};
    }
  }

  /** Which of the backend calls of one caller fail. */
  datatype Errors = Errors(check: bool, lock: bool, recheck: bool, mark: bool)

  /** The schedule of a single caller whose backend calls happen at the given times. */
  function Solo(t: seq<nat>, fnOk: bool, e: Errors): seq<Action>
    requires |t| == 4 && t[0] <= t[1] <= t[2] <= t[3]
  {
    [Check(0, e.check), Tick(t[1] - t[0]), Acquire(0, e.lock), Tick(t[2] - t[1]), Recheck(0, e.recheck), Begin(0),
     Finish(0, fnOk), Tick(t[3] - t[2]), Mark(0, e.mark), Release(0)]
  }

  lemma SoloRun(s: State, t: seq<nat>, fnOk: bool, e: Errors)
    requires |t| == 4 && t[0] <= t[1] <= t[2] <= t[3] && s.now == t[0]
    requires |s.callers| == 1 && s.callers[0].pc.Start?
    ensures
      var c := s.callers[0];
      var r := Run(s, Solo(t, fnOk, e));
      && |r.callers| == 1 && r.callers[0].pc.Done?
      && var busy := e.check || Live(s.markers, c.key, t[0]) || e.lock || Locked(s.held, c.key, t[1]);
         && r.held == (if busy then s.held else s.held - {c.key})
         && r.markers == (if busy || !fnOk || e.recheck || Live(s.markers, c.key, t[2]) || e.mark then s.markers
                          else s.markers[c.key := MarkerExpiry(t[3], c.ttl)])
  {
    var s1, r := SoloSplit(s, t, fnOk, e);
    var c := s.callers[0];
    assert s.held[c.key := t[1] + LockTtl(c.ttl)] - {c.key} == s.held - {c.key};
  }

  /** Before and after the second look at the marker. */
  lemma SoloSplit(s: State, t: seq<nat>, fnOk: bool, e: Errors) returns (s1: State, r: State)
    requires |t| == 4 && t[0] <= t[1] <= t[2] <= t[3] && s.now == t[0]
    requires |s.callers| == 1 && s.callers[0].pc.Start?
    ensures
      var c := s.callers[0];
      var busy := e.check || Live(s.markers, c.key, t[0]) || e.lock || Locked(s.held, c.key, t[1]);
      var exp := t[1] + LockTtl(c.ttl);
      s1 == if busy then State(t[2], s.held, s.markers, [c.(pc := Done)])
            else State(t[2], s.held[c.key := exp], s.markers, [c.(pc := Checking(exp))])
    ensures r == Run(s, Solo(t, fnOk, e)) && SoloEnd(s1, t, fnOk, e, r)
  {
    var acts := Solo(t, fnOk, e);
    s1 := Step(Step(Step(Step(s, acts[0]), acts[1]), acts[2]), acts[3]);
    var s2 := Step(Step(Step(Step(s1, acts[4]), acts[5]), acts[6]), acts[7]);
    r := Step(Step(s2, acts[8]), acts[9]);
    SoloUnfold(s, acts, s1, s2, r);
    SoloFirstHalf(s, t, e);
    SoloRest(s1, t, fnOk, e, r);
  }

  /** What is left of a run that stands at s before the second look at the marker. */
  ghost predicate SoloEnd(s: State, t: seq<nat>, fnOk: bool, e: Errors, r: State)
    requires |t| == 4 && |s.callers| == 1
  {
    var c := s.callers[0];
    && |r.callers| == 1 && r.callers[0].pc.Done?
    && r.held == (if c.pc.Done? then s.held else s.held - {c.key})
    && r.markers == (if c.pc.Done? || !fnOk || e.recheck || Live(s.markers, c.key, t[2]) || e.mark then s.markers
                     else s.markers[c.key := MarkerExpiry(t[3], c.ttl)])
  }

  /** From the second look at the marker on; a caller that is done by then does nothing more. */
  lemma SoloRest(s: State, t: seq<nat>, fnOk: bool, e: Errors, r: State)
    requires |t| == 4 && t[0] <= t[1] <= t[2] <= t[3] && s.now == t[2]
    requires |s.callers| == 1 && (s.callers[0].pc.Checking? || s.callers[0].pc.Done?)
    requires
      var acts := Solo(t, fnOk, e);
      r == Step(Step(Step(Step(Step(Step(s, acts[4]), acts[5]), acts[6]), acts[7]), acts[8]), acts[9])
    ensures SoloEnd(s, t, fnOk, e, r)
  {
    if s.callers[0].pc.Checking? { SoloSecondHalf(s, t, fnOk, e); } else { SoloStopped(s, Solo(t, fnOk, e)); }
  }

  lemma SoloStopped(s: State, acts: seq<Action>)
    requires |acts| == 10 && |s.callers| == 1 && s.callers[0].pc.Done?
    requires acts[4].Recheck? && acts[5].Begin? && acts[6].Finish? && acts[7].Tick? && acts[8].Mark? && acts[9].Release?
    ensures
      var r := Step(Step(Step(Step(Step(Step(s, acts[4]), acts[5]), acts[6]), acts[7]), acts[8]), acts[9]);
      r.callers == s.callers && r.held == s.held && r.markers == s.markers
  {
  }

  lemma SoloFirstHalf(s: State, t: seq<nat>, e: Errors)
    requires |t| == 4 && t[0] <= t[1] <= t[2] <= t[3] && s.now == t[0]
    requires |s.callers| == 1 && s.callers[0].pc.Start?
    ensures
      var c := s.callers[0];
      var busy := e.check || Live(s.markers, c.key, t[0]) || e.lock || Locked(s.held, c.key, t[1]);
      var exp := t[1] + LockTtl(c.ttl);
      Step(Step(Step(Step(s, Check(0, e.check)), Tick(t[1] - t[0])), Acquire(0, e.lock)), Tick(t[2] - t[1])) ==
        if busy then State(t[2], s.held, s.markers, [c.(pc := Done)])
        else State(t[2], s.held[c.key := exp], s.markers, [c.(pc := Checking(exp))])
  {
    var c := s.callers[0];
    var s0 := Step(Step(s, Check(0, e.check)), Tick(t[1] - t[0]));
    assert s0 == State(t[1], s.held, s.markers, [c.(pc := if e.check || Live(s.markers, c.key, t[0]) then Done else Locking)]);
  }

  lemma SoloSecondHalf(s: State, t: seq<nat>, fnOk: bool, e: Errors)
    requires |t| == 4 && t[0] <= t[1] <= t[2] <= t[3] && s.now == t[2]
    requires |s.callers| == 1 && s.callers[0].pc.Checking?
    ensures
      var c := s.callers[0];
      var s2 := Step(Step(Step(Step(s, Recheck(0, e.recheck)), Begin(0)), Finish(0, fnOk)), Tick(t[3] - t[2]));
      Step(Step(s2, Mark(0, e.mark)), Release(0)) ==
        State(t[3], s.held - {c.key},
              if !fnOk || e.recheck || Live(s.markers, c.key, t[2]) || e.mark then s.markers else s.markers[c.key := MarkerExpiry(t[3], c.ttl)],
              [c.(pc := Done)])
  {
    var c := s.callers[0];
    var s2 := Step(Step(Step(Step(s, Recheck(0, e.recheck)), Begin(0)), Finish(0, fnOk)), Tick(t[3] - t[2]));
    var exp := c.pc.exp;
    assert s2 == State(t[3], s.held, s.markers,
                       [c.(pc := if e.recheck || Live(s.markers, c.key, t[2]) || !fnOk then Releasing(exp) else Storing(exp))]);
  }

  lemma SoloUnfold(s: State, acts: seq<Action>, s1: State, s2: State, s3: State)
    requires |acts| == 10
    requires s1 == Step(Step(Step(Step(s, acts[0]), acts[1]), acts[2]), acts[3])
    requires s2 == Step(Step(Step(Step(s1, acts[4]), acts[5]), acts[6]), acts[7])
    requires s3 == Step(Step(s2, acts[8]), acts[9])
    ensures Run(s, acts) == s3
  {
    assert acts[..10] == acts && acts[..0] == [];
    RunPrefix(s, acts, 0); RunPrefix(s, acts, 1); RunPrefix(s, acts, 2); RunPrefix(s, acts, 3);
    assert Run(s, acts[..4]) == s1;
    RunPrefix(s, acts, 4); RunPrefix(s, acts, 5); RunPrefix(s, acts, 6); RunPrefix(s, acts, 7);
    assert Run(s, acts[..8]) == s2;
    RunPrefix(s, acts, 8); RunPrefix(s, acts, 9);
  }
}
