/**
 The handler chain of a request (http/context.go): Next is a loop over one shared index,
 and the handlers it calls may call Next and Abort again. A handler is any finite
 script of work, Next and Abort calls.
 */
module HandlerChain {
  datatype Op = Work(id: int) | CallNext | CallAbort

  type Script = seq<Op>

  datatype Event = Enter(i: int) | Exit(i: int) | Did(id: int) | Aborted

  datatype Outcome = Outcome(index: int, events: seq<Event>)

  /** How many handlers lie beyond the index. */
  function Left(n: nat, index: int): nat { if index >= n then 0 else n - index }

  /** Next, from its increment of the index to the end of its loop. */
  function NextOutcome(hs: seq<Script>, index: int): (r: Outcome)
    requires index >= -1
    ensures r.index >= 0 && Left(|hs|, r.index) <= Left(|hs|, index)
    decreases Left(|hs|, index), 0, 0
  {
    if index + 1 >= |hs| then Outcome(index + 1, []) else LoopOutcome(hs, index + 1)
  }

  /** The loop of Next from a given index on. */
  function LoopOutcome(hs: seq<Script>, index: int): (r: Outcome)
    requires index >= 0
    ensures r.index >= 0 && Left(|hs|, r.index) <= Left(|hs|, index)
    decreases Left(|hs|, index), 2, 0
  {
    if index >= |hs| then Outcome(index, [])
    else
      var body := InvokeOutcome(hs, index, hs[index]);
      var rest := LoopOutcome(hs, body.index + 1);
      Outcome(rest.index, [Enter(index)] + body.events + [Exit(index)] + rest.events)
  }

  /** The rest of a running handler. */
  function InvokeOutcome(hs: seq<Script>, index: int, ops: Script): (r: Outcome)
    requires index >= 0
    ensures r.index >= 0 && Left(|hs|, r.index) <= Left(|hs|, index)
    decreases Left(|hs|, index), 1, |ops|
  {
    if ops == [] then Outcome(index, [])
    else match ops[0]
      case Work(id) =>
        var rest := InvokeOutcome(hs, index, ops[1..]);
        Outcome(rest.index, [Did(id)] + rest.events)
      case CallNext =>
        var inner := NextOutcome(hs, index);
        var rest := InvokeOutcome(hs, inner.index, ops[1..]);
        Outcome(rest.index, inner.events + rest.events)
      case CallAbort =>
        var rest := InvokeOutcome(hs, |hs|, ops[1..]);
        Outcome(rest.index, [Aborted] + rest.events)
  }

  // ------------------------------------------------------------ which handlers start

  function Starts(es: seq<Event>): seq<int> {
    if es == [] then [] else (if es[0].Enter? then [es[0].i] else []) + Starts(es[1..])
  }

  function Range(lo: int, hi: int): seq<int>
    requires lo <= hi
  {
    seq(hi - lo, i => lo + i)
  }

  lemma {:induction false} StartsConcat(a: seq<Event>, b: seq<Event>)
    ensures Starts(a + b) == Starts(a) + Starts(b)
  {
    if a == [] {
      assert a + b == b;
    } else {
      assert (a + b)[0] == a[0] && (a + b)[1..] == a[1..] + b;
      StartsConcat(a[1..], b);
    }
  }

  lemma StartsFour(e: Event, b: seq<Event>, f: Event, c: seq<Event>)
    ensures Starts([e] + b + [f] + c) == Starts([e]) + Starts(b) + Starts([f]) + Starts(c)
  {
    StartsConcat([e] + b + [f], c);
    StartsConcat([e] + b, [f]);
    StartsConcat([e], b);
  }

  /** From index on, the handlers lo, lo + 1, ... start, up to some bound; the index ends
      beyond the chain; the bound is the end of the chain unless somebody aborts. */
  ghost predicate InOrder(n: nat, lo: int, r: Outcome) {
    && lo + |Starts(r.events)| <= n
    && Starts(r.events) == Range(lo, lo + |Starts(r.events)|)
    && r.index >= n
    && (Aborted !in r.events ==> lo + |Starts(r.events)| == n)
  }

  /** Beyond the end nothing starts. */
  lemma {:induction false} NothingBeyond(hs: seq<Script>, index: int, ops: Script)
    requires index >= |hs|
    ensures Starts(InvokeOutcome(hs, index, ops).events) == [] && InvokeOutcome(hs, index, ops).index >= |hs|
    decreases |ops|
  {
    if ops != [] {
      match ops[0]
      case Work(id) =>
        NothingBeyond(hs, index, ops[1..]);
        StartsConcat([Did(id)], InvokeOutcome(hs, index, ops[1..]).events);
      case CallNext =>
        NothingBeyond(hs, index + 1, ops[1..]);
        assert NextOutcome(hs, index) == Outcome(index + 1, []);
        StartsConcat([], InvokeOutcome(hs, index + 1, ops[1..]).events);
      case CallAbort =>
        NothingBeyond(hs, |hs|, ops[1..]);
        StartsConcat([Aborted], InvokeOutcome(hs, |hs|, ops[1..]).events);
    }
  }

  /** A handler either leaves the index alone and starts nothing, or it has run the rest
      of the chain, or it has aborted. */
  lemma {:induction false} InvokeInOrder(hs: seq<Script>, index: int, ops: Script)
    requires 0 <= index < |hs|
    ensures
      var r := InvokeOutcome(hs, index, ops);
      if r.index < |hs| then r.index == index && Starts(r.events) == [] && Aborted !in r.events
      else InOrder(|hs|, index + 1, r)
    decreases Left(|hs|, index), 1, |ops|
  {
    if ops != [] {
      match ops[0]
      case Work(id) =>
        InvokeInOrder(hs, index, ops[1..]);
        StartsConcat([Did(id)], InvokeOutcome(hs, index, ops[1..]).events);
      case CallNext =>
        var inner := NextOutcome(hs, index);
        if index + 1 < |hs| { LoopInOrder(hs, index + 1); }
        NothingBeyond(hs, inner.index, ops[1..]);
        StartsConcat(inner.events, InvokeOutcome(hs, inner.index, ops[1..]).events);
      case CallAbort =>
        NothingBeyond(hs, |hs|, ops[1..]);
        StartsConcat([Aborted], InvokeOutcome(hs, |hs|, ops[1..]).events);
        assert Aborted in InvokeOutcome(hs, index, ops).events;
    }
  }

  lemma {:induction false} LoopInOrder(hs: seq<Script>, index: int)
    requires 0 <= index < |hs|
    ensures InOrder(|hs|, index, LoopOutcome(hs, index))
    decreases Left(|hs|, index), 2, 0
  {
    var body := InvokeOutcome(hs, index, hs[index]);
    var rest := LoopOutcome(hs, body.index + 1);
    InvokeInOrder(hs, index, hs[index]);
    if body.index + 1 < |hs| { LoopInOrder(hs, body.index + 1); }
    StartsFour(Enter(index), body.events, Exit(index), rest.events);
    RoundInOrder(|hs|, index, body, rest);
  }

  /** Puts one round of the loop and the rest of the loop together. */
  lemma RoundInOrder(n: nat, index: int, body: Outcome, rest: Outcome)
    requires index < n
    requires if body.index < n then body.index == index && Starts(body.events) == [] && Aborted !in body.events
             else InOrder(n, index + 1, body)
    requires if body.index + 1 < n then InOrder(n, body.index + 1, rest) else rest == Outcome(body.index + 1, [])
    requires Starts([Enter(index)] + body.events + [Exit(index)] + rest.events)
             == Starts([Enter(index)]) + Starts(body.events) + Starts([Exit(index)]) + Starts(rest.events)
    ensures InOrder(n, index, Outcome(rest.index, [Enter(index)] + body.events + [Exit(index)] + rest.events))
  {
    var es := [Enter(index)] + body.events + [Exit(index)] + rest.events;
    assert [Enter(index)][1..] == [] && [Exit(index)][1..] == [];
    var tail := if body.index < n then Starts(rest.events) else Starts(body.events);
    assert Starts(es) == [index] + tail;
    assert tail == Range(index + 1, index + 1 + |tail|);
    assert [index] + tail == Range(index, index + 1 + |tail|);
    assert Aborted in es <==> Aborted in body.events || Aborted in rest.events;
  }

  /** Running a chain from the outside starts the handlers 0, 1, ..., k - 1, each once and
      in order, and all of them if no handler aborts, whether or not they call Next. */
  lemma ChainRunsAPrefix(hs: seq<Script>)
    ensures InOrder(|hs|, 0, NextOutcome(hs, -1))
  {
    if |hs| > 0 { LoopInOrder(hs, 0); }
  }

  // ------------------------------------------------------------ Abort

  /** No handler starts after an abort. */
  ghost predicate QuietAfterAbort(es: seq<Event>) {
    forall i, j :: 0 <= i < j < |es| && es[i].Aborted? ==> !es[j].Enter?
  }

  lemma {:induction false} NoStarts(es: seq<Event>, j: nat)
    requires Starts(es) == [] && j < |es|
    ensures !es[j].Enter?
  {
    if j > 0 { NoStarts(es[1..], j - 1); }
  }

  lemma QuietConcat(a: seq<Event>, b: seq<Event>)
    requires QuietAfterAbort(a) && QuietAfterAbort(b)
    requires Aborted in a ==> Starts(b) == []
    ensures QuietAfterAbort(a + b)
  {
    forall i, j | 0 <= i < j < |a + b| && (a + b)[i].Aborted? ensures !(a + b)[j].Enter? {
      if i < |a| <= j {
        assert a[i] in a;
        NoStarts(b, j - |a|);
      }
    }
  }

  /** After an abort the index is beyond the end. */
  lemma {:induction false} InvokeQuiet(hs: seq<Script>, index: int, ops: Script)
    requires 0 <= index
    ensures var r := InvokeOutcome(hs, index, ops); QuietAfterAbort(r.events) && (Aborted in r.events ==> r.index >= |hs|)
    decreases Left(|hs|, index), 1, |ops|
  {
    if ops != [] {
      match ops[0]
      case Work(id) =>
        InvokeQuiet(hs, index, ops[1..]);
        QuietConcat([Did(id)], InvokeOutcome(hs, index, ops[1..]).events);
      case CallNext =>
        var inner := NextOutcome(hs, index);
        if index + 1 < |hs| {
          LoopQuiet(hs, index + 1);
          LoopInOrder(hs, index + 1);
        }
        InvokeQuiet(hs, inner.index, ops[1..]);
        NothingBeyond(hs, inner.index, ops[1..]);
        QuietConcat(inner.events, InvokeOutcome(hs, inner.index, ops[1..]).events);
      case CallAbort =>
        InvokeQuiet(hs, |hs|, ops[1..]);
        NothingBeyond(hs, |hs|, ops[1..]);
        QuietConcat([Aborted], InvokeOutcome(hs, |hs|, ops[1..]).events);
    }
  }

  lemma {:induction false} LoopQuiet(hs: seq<Script>, index: int)
    requires 0 <= index < |hs|
    ensures QuietAfterAbort(LoopOutcome(hs, index).events)
    decreases Left(|hs|, index), 2, 0
  {
    var body := InvokeOutcome(hs, index, hs[index]);
    var rest := LoopOutcome(hs, body.index + 1);
    InvokeQuiet(hs, index, hs[index]);
    if body.index + 1 < |hs| { LoopQuiet(hs, body.index + 1); }
    QuietConcat([Enter(index)], body.events);
    QuietConcat([Enter(index)] + body.events, [Exit(index)]);
    QuietConcat([Enter(index)] + body.events + [Exit(index)], rest.events);
  }

  /** In a whole chain nothing starts after an abort. */
  lemma ChainQuietAfterAbort(hs: seq<Script>)
    ensures QuietAfterAbort(NextOutcome(hs, -1).events)
  {
    if |hs| > 0 { LoopQuiet(hs, 0); }
  }

  // ------------------------------------------------------------ nesting

  /** Reads events against the stack of handlers entered and not left; None on a mismatch. */
  function Track(stack: seq<int>, es: seq<Event>): (r: (bool, seq<int>))
    decreases |es|
  {
    if es == [] then (true, stack)
    else match es[0]
      case Enter(i) => Track(stack + [i], es[1..])
      case Exit(i) =>
        if stack != [] && stack[|stack| - 1] == i then Track(stack[..|stack| - 1], es[1..]) else (false, stack)
      case _ => Track(stack, es[1..])
  }

  ghost predicate Balanced(es: seq<Event>) {
    forall stack :: Track(stack, es) == (true, stack)
  }

  lemma {:induction false} TrackConcat(stack: seq<int>, a: seq<Event>, b: seq<Event>)
    ensures Track(stack, a).0 ==> Track(stack, a + b) == Track(Track(stack, a).1, b)
    decreases |a|
  {
    if a == [] {
      assert a + b == b;
    } else {
      assert (a + b)[0] == a[0] && (a + b)[1..] == a[1..] + b;
      match a[0]
      case Enter(i) => TrackConcat(stack + [i], a[1..], b);
      case Exit(i) => if stack != [] { TrackConcat(stack[..|stack| - 1], a[1..], b); }
      case _ => TrackConcat(stack, a[1..], b);
    }
  }

  lemma BalancedConcat(a: seq<Event>, b: seq<Event>)
    requires Balanced(a) && Balanced(b)
    ensures Balanced(a + b)
  {
    forall stack: seq<int> ensures Track(stack, a + b) == (true, stack) { TrackConcat(stack, a, b); }
  }

  lemma BalancedWrap(i: int, b: seq<Event>)
    requires Balanced(b)
    ensures Balanced([Enter(i)] + b + [Exit(i)])
  {
    forall stack: seq<int> ensures Track(stack, [Enter(i)] + b + [Exit(i)]) == (true, stack) {
      var es := [Enter(i)] + b + [Exit(i)];
      assert es[0] == Enter(i) && es[1..] == b + [Exit(i)];
      TrackConcat(stack + [i], b, [Exit(i)]);
      assert [Exit(i)][1..] == [] && (stack + [i])[..|stack|] == stack;
    }
  }

  lemma BalancedOne(e: Event)
    requires e.Did? || e.Aborted?
    ensures Balanced([e])
  {
    assert [e][1..] == [];
  }

  lemma {:induction false} InvokeBalanced(hs: seq<Script>, index: int, ops: Script)
    requires index >= 0
    ensures Balanced(InvokeOutcome(hs, index, ops).events)
    decreases Left(|hs|, index), 1, |ops|
  {
    if ops != [] {
      match ops[0]
      case Work(id) =>
        InvokeBalanced(hs, index, ops[1..]);
        BalancedOne(Did(id));
        BalancedConcat([Did(id)], InvokeOutcome(hs, index, ops[1..]).events);
      case CallNext =>
        var inner := NextOutcome(hs, index);
        if index + 1 < |hs| { LoopBalanced(hs, index + 1); }
        InvokeBalanced(hs, inner.index, ops[1..]);
        BalancedConcat(inner.events, InvokeOutcome(hs, inner.index, ops[1..]).events);
      case CallAbort =>
        InvokeBalanced(hs, |hs|, ops[1..]);
        BalancedOne(Aborted);
        BalancedConcat([Aborted], InvokeOutcome(hs, |hs|, ops[1..]).events);
    }
  }

  lemma {:induction false} LoopBalanced(hs: seq<Script>, index: int)
    requires index >= 0
    ensures Balanced(LoopOutcome(hs, index).events)
    decreases Left(|hs|, index), 2, 0
  {
    if index < |hs| {
      var body := InvokeOutcome(hs, index, hs[index]);
      var rest := LoopOutcome(hs, body.index + 1);
      InvokeBalanced(hs, index, hs[index]);
      LoopBalanced(hs, body.index + 1);
      BalancedWrap(index, body.events);
      BalancedConcat([Enter(index)] + body.events + [Exit(index)], rest.events);
    }
  }

  /** Enter and exit events of a whole chain are properly nested. */
  lemma ChainNests(hs: seq<Script>)
    ensures Balanced(NextOutcome(hs, -1).events)
  {
    LoopBalanced(hs, 0);
  }

  // ------------------------------------------------------------ the context

  lemma LoopUnfold(hs: seq<Script>, index: int, done: seq<Event>)
    requires 0 <= index < |hs|
    ensures
      var body := InvokeOutcome(hs, index, hs[index]);
      var rest := LoopOutcome(hs, body.index + 1);
      && LoopOutcome(hs, index).index == rest.index
      && done + LoopOutcome(hs, index).events == done + [Enter(index)] + body.events + [Exit(index)] + rest.events
  {
  }

  class Context {
    var handlers: seq<Script>
    var index: int
    ghost var trace: seq<Event>

    constructor ()
      ensures handlers == [] && index == -1 && trace == []
    {
      handlers, index, trace := [], -1, [];
    }

    method Abort()
      modifies this`index, this`trace
      ensures index == |handlers| && trace == old(trace) + [Aborted]
    {
      index := |handlers|;
      trace := trace + [Aborted];
    }

    method Next()
      requires index >= -1
      modifies this`index, this`trace
      ensures
        var r := NextOutcome(handlers, old(index));
        index == r.index && trace == old(trace) + r.events
      decreases Left(|handlers|, index), 0, 0
    {
      index := index + 1;
      ghost var goal := LoopOutcome(handlers, index);
      while index < |handlers|
        invariant index >= 0
        invariant index < |handlers| ==> Left(|handlers|, index) < old(Left(|handlers|, index))
        invariant LoopOutcome(handlers, index).index == goal.index
        invariant trace + LoopOutcome(handlers, index).events == old(trace) + goal.events
        decreases Left(|handlers|, index)
      {
        LoopUnfold(handlers, index, trace);
        Round();
      }
    }

    /** One round of the loop: call a handler and step on. */
    method Round()
      requires 0 <= index < |handlers|
      modifies this`index, this`trace
      ensures
        var body := InvokeOutcome(handlers, old(index), handlers[old(index)]);
        && index == body.index + 1
        && trace == old(trace) + [Enter(old(index))] + body.events + [Exit(old(index))]
      decreases Left(|handlers|, index), 2, 0
    {
      ghost var at := index;
      trace := trace + [Enter(at)];
      Invoke(handlers[index]);
      trace := trace + [Exit(at)];
      index := index + 1;
    }

    /** A handler: any finite script. */
    method Invoke(ops: Script)
      requires index >= 0
      modifies this`index, this`trace
      ensures
        var r := InvokeOutcome(handlers, old(index), ops);
        index == r.index && trace == old(trace) + r.events
      ensures index >= 0
      decreases Left(|handlers|, index), 1, |ops|
    {
      if ops == [] { return; }
      match ops[0]
      case Work(id) =>
        trace := trace + [Did(id)];
        Invoke(ops[1..]);
      case CallNext =>
        Next();
        Invoke(ops[1..]);
      case CallAbort =>
        Abort();
        Invoke(ops[1..]);
    }
  }
}
