/**
 The Redis job queue (queue/redis.go): a ready list, a sorted set of delayed jobs, and any
 number of workers whose promotion of due jobs interleaves: read the due jobs, then move
 them one by one, then pop. Each Redis command, and each transaction, is one step.
 */
module RedisQueue {
  import opened GoTypes

  /** Whole seconds of a clock reading in nanoseconds. */
  function Unix(t: nat): nat { t / SECOND }

  /** An encoded job; `due` is its availability time in whole seconds. */
  datatype Item = Item(id: nat, due: nat)

  /** A worker inside Pop: the due jobs it has read and not yet moved. */
  datatype Worker = Idle | Promoting(pending: seq<Item>)

  datatype State = State(
    now: nat, delayed: set<Item>, ready: seq<Item>, delivered: seq<Item>, workers: seq<Worker>, pushed: set<Item>)

  datatype Action =
    | Push(id: nat, delay: nat)
    | Tick(d: nat)
    | Read(w: nat, items: seq<Item>)
    | Move(w: nat)
    | Pop(w: nat)
    | GiveUp(w: nat)

  ghost predicate Distinct(items: seq<Item>) { forall i, j :: 0 <= i < j < |items| ==> items[i] != items[j] }

  /** items lists the delayed jobs that are due, each once. */
  ghost predicate ListsDue(s: State, items: seq<Item>) {
    Distinct(items) && forall x :: x in items <==> x in s.delayed && x.due <= Unix(s.now)
  }

  ghost predicate Enabled(s: State, a: Action) {
    match a
    case Push(id, _) => forall x :: x in s.pushed ==> x.id != id
    case Tick(_) => true
    case Read(w, items) => w < |s.workers| && s.workers[w].Idle? && ListsDue(s, items)
    case Move(w) => w < |s.workers| && s.workers[w].Promoting? && s.workers[w].pending != []
    case Pop(w) => w < |s.workers| && s.workers[w] == Promoting([]) && s.ready != []
    case GiveUp(w) => w < |s.workers|
  }

  ghost function Step(s: State, a: Action): State {
    if !Enabled(s, a) then s
    else match a
      case Push(id, delay) =>
        var x := Item(id, Unix(s.now + delay));
        var t := s.(pushed := s.pushed + {x});
        if delay > 0 then t.(delayed := s.delayed + {x}) else t.(ready := s.ready + [x])
      case Tick(d) => s.(now := s.now + d)
      case Read(w, items) => s.(workers := s.workers[w := Promoting(items)])
      case Move(w) =>
        var x := s.workers[w].pending[0];
        s.(delayed := s.delayed - {x}, ready := s.ready + [x], workers := s.workers[w := Promoting(s.workers[w].pending[1..])])
      case Pop(w) => s.(ready := s.ready[1..], delivered := s.delivered + [s.ready[0]], workers := s.workers[w := Idle])
      case GiveUp(w) => s.(workers := s.workers[w := Idle])
  }

  ghost function Run(s: State, actions: seq<Action>): State {
    if actions == [] then s else Step(Run(s, actions[..|actions| - 1]), actions[|actions| - 1])
  }

  ghost predicate Initial(s: State) {
    && s.delayed == {} && s.ready == [] && s.delivered == [] && s.pushed == {}
    && forall w :: 0 <= w < |s.workers| ==> s.workers[w].Idle?
  }

  // ------------------------------------------------------------ nothing is lost, nothing comes early

  ghost predicate Kept(s: State) {
    && (forall x :: x in s.pushed ==> x in s.delayed || x in s.ready || x in s.delivered)
    && (forall x :: x in s.ready || x in s.delivered ==> x.due <= Unix(s.now))
    && (forall w :: 0 <= w < |s.workers| && s.workers[w].Promoting? ==> DueAll(s, s.workers[w].pending))
  }

  ghost predicate DueAll(s: State, items: seq<Item>) { forall x :: x in items ==> x.due <= Unix(s.now) }

  lemma UnixGrows(t: nat, u: nat)
    requires t <= u
    ensures Unix(t) <= Unix(u)
  {
  }

  lemma StepKept(s: State, a: Action)
    requires Kept(s)
    ensures Kept(Step(s, a))
  {
    if Enabled(s, a) {
      match a
      case Tick(d) => UnixGrows(s.now, s.now + d);
      case Move(w) =>
        var x := s.workers[w].pending[0];
        assert x in s.workers[w].pending;
      case Pop(w) =>
        assert s.ready[0] in s.ready;
        forall x | x in s.ready ensures x == s.ready[0] || x in s.ready[1..] {}
      case _ =>
    }
  }

  /** Under any interleaving of any number of workers, every pushed job is in the delayed
      set, in the ready list, or delivered; and no job becomes ready or is delivered
      before its whole-second availability time. */
  lemma {:induction false} NothingLostNothingEarly(s: State, actions: seq<Action>)
    requires Initial(s)
    ensures
      var t := Run(s, actions);
      && (forall x :: x in t.pushed ==> x in t.delayed || x in t.ready || x in t.delivered)
      && (forall x :: x in t.ready || x in t.delivered ==> x.due <= Unix(t.now))
      && Kept(t)
    decreases |actions|
  {
    if actions != [] {
      NothingLostNothingEarly(s, actions[..|actions| - 1]);
      StepKept(Run(s, actions[..|actions| - 1]), actions[|actions| - 1]);
    }
  }

  /** Whole seconds lose less than a second of the delay asked for. */
  lemma DueWithinASecond(pushedAt: nat, delay: nat, now: nat)
    requires Unix(pushedAt + delay) <= Unix(now)
    ensures pushedAt + delay < now + SECOND
  {
  }

  // ------------------------------------------------------------ one worker delivers exactly once

  function Count(items: seq<Item>, x: Item): nat {
    if items == [] then 0 else (if items[0] == x then 1 else 0) + Count(items[1..], x)
  }

  lemma {:induction false} CountAppend(items: seq<Item>, y: Item, x: Item)
    ensures Count(items + [y], x) == Count(items, x) + if y == x then 1 else 0
  {
    if items == [] {
      assert [] + [y] == [y] && [y][1..] == [];
    } else {
      assert (items + [y])[0] == items[0] && (items + [y])[1..] == items[1..] + [y];
      CountAppend(items[1..], y, x);
    }
  }

  /** How often a job is anywhere. */
  ghost function Copies(s: State, x: Item): nat {
    (if x in s.delayed then 1 else 0) + Count(s.ready, x) + Count(s.delivered, x)
  }

  ghost predicate Exact(s: State) {
    && |s.workers| == 1
    && (s.workers[0].Promoting? ==> Distinct(s.workers[0].pending) && forall x :: x in s.workers[0].pending ==> x in s.delayed)
    && (forall x :: x in s.delayed ==> x in s.pushed)
    && (forall x :: Copies(s, x) == if x in s.pushed then 1 else 0)
  }

  lemma StepCopies(s: State, a: Action, x: Item)
    requires Exact(s)
    ensures Copies(Step(s, a), x) == if x in Step(s, a).pushed then 1 else 0
  {
    assert Copies(s, x) == if x in s.pushed then 1 else 0;
    if Enabled(s, a) {
      match a
      case Push(id, delay) => CountAppend(s.ready, Item(id, Unix(s.now + delay)), x);
      case Move(w) =>
        assert s.workers[0].pending[0] in s.workers[0].pending;
        CountAppend(s.ready, s.workers[0].pending[0], x);
      case Pop(w) => CountAppend(s.delivered, s.ready[0], x);
      case _ =>
    }
  }

  lemma StepExact(s: State, a: Action)
    requires Exact(s)
    ensures Exact(Step(s, a))
  {
    forall x ensures Copies(Step(s, a), x) == if x in Step(s, a).pushed then 1 else 0 { StepCopies(s, a, x); }
    if Enabled(s, a) && a.Move? {
      var pending := s.workers[0].pending;
      forall x | x in pending[1..] ensures x in s.delayed && x != pending[0] {
        var i :| 0 <= i < |pending[1..]| && pending[1..][i] == x;
        assert pending[i + 1] == x;
      }
    }
  }

  /** With one worker every job is delivered at most once, and it is delivered exactly once
      as soon as it is neither delayed nor ready any more. */
  lemma {:induction false} OneWorkerDeliversOnce(s: State, actions: seq<Action>)
    requires Initial(s) && |s.workers| == 1
    ensures
      var t := Run(s, actions);
      && Exact(t)
      && forall x :: x in t.pushed ==> Count(t.delivered, x) == if x in t.delayed || Count(t.ready, x) > 0 then 0 else 1
    decreases |actions|
  {
    if actions != [] {
      OneWorkerDeliversOnce(s, actions[..|actions| - 1]);
      StepExact(Run(s, actions[..|actions| - 1]), actions[|actions| - 1]);
    }
    var t := Run(s, actions);
    forall x | x in t.pushed ensures Count(t.delivered, x) == if x in t.delayed || Count(t.ready, x) > 0 then 0 else 1 {
      assert Copies(t, x) == 1;
    }
  }

  // ------------------------------------------------------------ two workers can deliver twice

  lemma RunSnoc(s: State, actions: seq<Action>, a: Action)
    ensures Run(s, actions + [a]) == Step(Run(s, actions), a)
  {
    assert (actions + [a])[..|actions|] == actions;
  }

  /** A delayed job that has come due. */
  lemma DueJob(s: State, x: Item)
    requires Initial(s) && x == Item(0, Unix(s.now + 1))
    ensures Run(s, [Push(0, 1)] + [Tick(SECOND)]) == s.(now := s.now + SECOND, delayed := {x}, pushed := {x})
    ensures x.due <= Unix(s.now + SECOND)
  {
    RunSnoc(s, [], Push(0, 1));
    RunSnoc(s, [Push(0, 1)], Tick(SECOND));
    UnixGrows(s.now + 1, s.now + SECOND);
  }

  /** Both workers read it before either moves it. */
  lemma BothRead(s: State, x: Item)
    requires |s.workers| >= 2 && s.workers[0].Idle? && s.workers[1].Idle? && s.delayed == {x} && x.due <= Unix(s.now)
    ensures Step(Step(s, Read(0, [x])), Read(1, [x])) == s.(workers := s.workers[0 := Promoting([x])][1 := Promoting([x])])
  {
    assert ListsDue(s, [x]);
    var t := s.(workers := s.workers[0 := Promoting([x])]);
    assert Step(s, Read(0, [x])) == t && ListsDue(t, [x]);
  }

  /** Both move it, and both pop one copy. */
  lemma BothDeliver(s: State, x: Item)
    requires |s.workers| >= 2 && s.workers[0] == s.workers[1] == Promoting([x]) && s.ready == [] && s.delivered == []
    ensures Step(Step(Step(Step(s, Move(0)), Move(1)), Pop(0)), Pop(1)).delivered == [x, x]
  {
    var t1 := Step(s, Move(0));
    assert [x][1..] == [] && t1.ready == [x] && t1.workers[0] == Promoting([]) && t1.workers[1] == Promoting([x]);
    var t2 := Step(t1, Move(1));
    assert t2.ready == [x, x] && t2.workers[0] == t2.workers[1] == Promoting([]);
    var t3 := Step(t2, Pop(0));
    assert [x, x][1..] == [x] && t3.ready == [x] && t3.delivered == [x] && t3.workers[1] == Promoting([]);
  }

  lemma TwoWorkersDeliverTwice(s: State) returns (actions: seq<Action>, x: Item)
    requires Initial(s) && |s.workers| >= 2
    ensures Count(Run(s, actions).delivered, x) == 2
  {
    x := Item(0, Unix(s.now + 1));
    DueJob(s, x);
    var a0 := [Push(0, 1)] + [Tick(SECOND)];
    var t0 := Run(s, a0);
    BothRead(t0, x);
    BothDeliver(Step(Step(t0, Read(0, [x])), Read(1, [x])), x);
    RunSnoc(s, a0, Read(0, [x]));
    RunSnoc(s, a0 + [Read(0, [x])], Read(1, [x]));
    var a2 := a0 + [Read(0, [x])] + [Read(1, [x])];
    RunSnoc(s, a2, Move(0));
    RunSnoc(s, a2 + [Move(0)], Move(1));
    RunSnoc(s, a2 + [Move(0)] + [Move(1)], Pop(0));
    RunSnoc(s, a2 + [Move(0)] + [Move(1)] + [Pop(0)], Pop(1));
    actions := a2 + [Move(0)] + [Move(1)] + [Pop(0)] + [Pop(1)];
    assert Run(s, actions).delivered == [x, x];
    CountTwo(x);
  }

  lemma CountTwo(x: Item)
    ensures Count([x, x], x) == 2
  {
    CountAppend([], x, x);
    CountAppend([x], x, x);
    assert [] + [x] == [x] && [x] + [x] == [x, x];
  }

  /** Deliveries are never repeated, whatever the interleaving, exactly if there is one worker. */
  lemma NeverTwiceIff(s: State)
    requires Initial(s) && |s.workers| >= 1
    ensures (forall actions: seq<Action>, x: Item :: Count(Run(s, actions).delivered, x) <= 1) <==> |s.workers| == 1
  {
    if |s.workers| == 1 {
      forall actions: seq<Action>, x: Item
        ensures Count(Run(s, actions).delivered, x) <= 1
      {
        OneWorkerDeliversOnce(s, actions);
        assert Copies(Run(s, actions), x) <= 1;
      }
    } else {
      var actions, x := TwoWorkersDeliverTwice(s);
    }
  }

  // ------------------------------------------------------------ first in, first out

  /** The job that a step puts into the ready list. */
  ghost function MadeReady(s: State, a: Action): seq<Item> {
    if a.Push? && a.delay == 0 && forall x :: x in s.pushed ==> x.id != a.id then [Item(a.id, Unix(s.now))]
    else if a.Move? && a.w < |s.workers| && s.workers[a.w].Promoting? && s.workers[a.w].pending != [] then [s.workers[a.w].pending[0]]
    else []
  }

  ghost function AllMadeReady(s: State, actions: seq<Action>): seq<Item> {
    if actions == [] then []
    else AllMadeReady(s, actions[..|actions| - 1]) + MadeReady(Run(s, actions[..|actions| - 1]), actions[|actions| - 1])
  }

  lemma StepInOrder(s: State, a: Action)
    ensures Step(s, a).delivered + Step(s, a).ready == (s.delivered + s.ready) + MadeReady(s, a)
  {
  }

  /** Under any interleaving jobs are delivered in the order in which they became ready, none skipped. */
  lemma {:induction false} DeliveredInOrder(s: State, actions: seq<Action>)
    requires Initial(s)
    ensures Run(s, actions).delivered + Run(s, actions).ready == AllMadeReady(s, actions)
    decreases |actions|
  {
    if actions != [] {
      DeliveredInOrder(s, actions[..|actions| - 1]);
      StepInOrder(Run(s, actions[..|actions| - 1]), actions[|actions| - 1]);
    }
  }

  // ------------------------------------------------------------ a whole promotion

  /** A worker moves all that it has read. */
  ghost function MoveAll(s: State, w: nat): (t: State)
    requires w < |s.workers| && s.workers[w].Promoting?
    ensures |t.workers| == |s.workers| && t.delivered == s.delivered
    decreases |s.workers[w].pending|
  {
    if s.workers[w].pending == [] then s else MoveAll(Step(s, Move(w)), w)
  }

  lemma {:induction false} MovesAll(s: State, w: nat)
    requires w < |s.workers| && s.workers[w].Promoting?
    ensures
      var t, items := MoveAll(s, w), s.workers[w].pending;
      t.delayed == s.delayed - (set x | x in items) && t.ready == s.ready + items && t.workers[w] == Promoting([])
    decreases |s.workers[w].pending|
  {
    var items := s.workers[w].pending;
    if items != [] {
      MovesAll(Step(s, Move(w)), w);
      assert items == [items[0]] + items[1..];
      assert forall x :: x in items <==> x == items[0] || x in items[1..];
    }
  }

  /** A worker that is not disturbed reads the jobs that are due, moves them in order, and pops the first
      ready one. */
  lemma PopAlone(s: State, w: nat, items: seq<Item>)
    requires w < |s.workers| && s.workers[w].Idle? && ListsDue(s, items) && s.ready + items != []
    ensures
      var read := Step(s, Read(w, items));
      && read.workers[w] == Promoting(items)
      && var t := Step(MoveAll(read, w), Pop(w));
         && t.delayed == s.delayed - (set x | x in items) && t.ready == (s.ready + items)[1..]
         && t.delivered == s.delivered + [(s.ready + items)[0]]
  {
    var read := Step(s, Read(w, items));
    MovesAll(read, w);
    assert MoveAll(read, w).ready == s.ready + items;
  }

  // ------------------------------------------------------------ the code

  class Redis {
    var delayed: set<Item>
    var ready: seq<Item>

    /** Push, which does what the step of that name does. */
    method PushJob(id: nat, delay: nat, now: nat, ghost s: State)
      requires s.now == now && s.delayed == delayed && s.ready == ready && Enabled(s, Push(id, delay))
      modifies this
      ensures
        var x := Item(id, Unix(now + delay));
        if delay > 0 then delayed == old(delayed) + {x} && ready == old(ready)
        else ready == old(ready) + [x] && delayed == old(delayed)
      ensures var t := Step(s, Push(id, delay)); delayed == t.delayed && ready == t.ready
    {
      var x := Item(id, (now + delay) / SECOND);
      if delay > 0 { delayed := delayed + {x}; } else { ready := ready + [x]; }
    }

    /** ZRANGEBYSCORE: the delayed jobs that are due, by their time. */
    method ListDue(now: nat) returns (items: seq<Item>)
      ensures Distinct(items) && forall x :: x in items <==> x in delayed && x.due <= Unix(now)
      ensures forall i, j :: 0 <= i < j < |items| ==> items[i].due <= items[j].due
    {
      items := [];
      var left := set x | x in delayed && x.due <= now / SECOND;
      while left != {}
        invariant left <= delayed && forall x :: x in delayed && x.due <= Unix(now) <==> x in left || x in items
        invariant Distinct(items) && forall x :: x in items ==> x !in left
        invariant forall i, j :: 0 <= i < j < |items| ==> items[i].due <= items[j].due
        invariant forall x, y :: x in items && y in left ==> x.due <= y.due
      {
        EarliestExists(left);
        var x :| x in left && forall y :: y in left ==> x.due <= y.due;
        left, items := left - {x}, items + [x];
      }
    }

    /** BLPOP: the first job of the ready list. */
    method PopReady() returns (item: Item)
      requires ready != []
      modifies this`ready
      ensures [item] + ready == old(ready)
    {
      item := ready[0];
      ready := ready[1..];
    }

    /** promoteDelayed without interference: the jobs that are due change sides, in order. */
    method PromoteDelayed(now: nat) returns (items: seq<Item>)
      modifies this
      ensures Distinct(items) && forall x :: x in items <==> x in old(delayed) && x.due <= Unix(now)
      ensures forall i, j :: 0 <= i < j < |items| ==> items[i].due <= items[j].due
      ensures delayed == old(delayed) - (set x | x in items) && ready == old(ready) + items
    {
      items := ListDue(now);
      var i := 0;
      while i < |items|
        invariant 0 <= i <= |items|
        invariant delayed == old(delayed) - (set x | x in items[..i]) && ready == old(ready) + items[..i]
      {
        assert items[..i + 1] == items[..i] + [items[i]];
        delayed := delayed - {items[i]};
        ready := ready + [items[i]];
        i := i + 1;
      }
      assert items[..i] == items;
    }
  }

  lemma {:induction false} EarliestExists(items: set<Item>)
    requires items != {}
    ensures exists x :: x in items && forall y :: y in items ==> x.due <= y.due
  {
    var x :| x in items;
    var rest := items - {x};
    if rest != {} {
      EarliestExists(rest);
      var z :| z in rest && forall y :: y in rest ==> z.due <= y.due;
      var best := if x.due <= z.due then x else z;
      assert best in items && forall y :: y in items ==> best.due <= y.due;
    } else {
      assert items == {x};
    }
  }
}
