/** What the handlers of a chain do while they run (http/context.go). */
module HandlerWork {
  import opened Sequences
  import opened HandlerChain

  predicate OnTop(stack: seq<int>, i: int) { stack != [] && stack[|stack| - 1] == i }

  /** What is seen of handler i between its enter and exit events: its own deeds, and the handlers it enters,
      but not what happens inside those. */
  function View(stack: seq<int>, es: seq<Event>, i: int): seq<Event>
    decreases |es|
  {
    if es == [] then []
    else match es[0]
      case Enter(k) => (if OnTop(stack, i) then [es[0]] else []) + View(stack + [k], es[1..], i)
      case Exit(_) => View(if stack == [] then [] else stack[..|stack| - 1], es[1..], i)
      case _ => (if OnTop(stack, i) then [es[0]] else []) + View(stack, es[1..], i)
  }

  /** The deeds of a script that enters nobody. */
  function OwnDeeds(ops: Script): seq<Event> {
    if ops == [] then []
    else (match ops[0] case Work(id) => [Did(id)] case CallNext => [] case CallAbort => [Aborted]) + OwnDeeds(ops[1..])
  }

  /** Handlers are entered, the given one first if it is one of n. */
  ghost predicate Entered(es: seq<Event>, first: int, n: nat) {
    (forall i :: 0 <= i < |es| ==> es[i].Enter?) && if first < n then es != [] && es[0] == Enter(first) else es == []
  }

  /** The view of the script of handler i among n: all its work in order; its first Next enters the next
      handler, if there is one, and maybe others after it, and after that, or after an abort, it
      enters nobody. */
  ghost predicate Shows(view: seq<Event>, ops: Script, i: int, n: nat)
    decreases |ops|
  {
    if ops == [] then view == []
    else match ops[0]
      case Work(id) => view != [] && view[0] == Did(id) && Shows(view[1..], ops[1..], i, n)
      case CallAbort => view == [Aborted] + OwnDeeds(ops[1..])
      case CallNext => exists k :: 0 <= k <= |view| && Entered(view[..k], i + 1, n) && view[k..] == OwnDeeds(ops[1..])
  }

  // ------------------------------------------------------------ views of parts

  lemma {:induction false} ViewConcat(stack: seq<int>, a: seq<Event>, b: seq<Event>, i: int)
    requires Track(stack, a).0
    ensures View(stack, a + b, i) == View(stack, a, i) + View(Track(stack, a).1, b, i)
    decreases |a|
  {
    if a == [] {
      assert a + b == b;
    } else {
      assert (a + b)[0] == a[0] && (a + b)[1..] == a[1..] + b;
      var one, rest := if OnTop(stack, i) then [a[0]] else [], View(Track(stack, a).1, b, i);
      match a[0]
      case Enter(k) =>
        ViewConcat(stack + [k], a[1..], b, i);
        Regroup(one, View(stack + [k], a[1..], i), rest);
      case Exit(_) => ViewConcat(stack[..|stack| - 1], a[1..], b, i);
      case _ =>
        ViewConcat(stack, a[1..], b, i);
        Regroup(one, View(stack, a[1..], i), rest);
    }
  }

  /** After a balanced part the stack is as before. */
  lemma BalancedView(stack: seq<int>, a: seq<Event>, b: seq<Event>, i: int)
    requires Balanced(a)
    ensures View(stack, a + b, i) == View(stack, a, i) + View(stack, b, i)
  {
    assert Track(stack, a) == (true, stack);
    ViewConcat(stack, a, b, i);
  }

  lemma WrappedView(stack: seq<int>, k: int, body: seq<Event>, rest: seq<Event>, i: int)
    requires Balanced(body)
    ensures View(stack, [Enter(k)] + body + [Exit(k)] + rest, i) ==
            (if OnTop(stack, i) then [Enter(k)] else []) + (View(stack + [k], body, i) + View(stack, rest, i))
  {
    var es, after := [Enter(k)] + body + [Exit(k)] + rest, [Exit(k)] + rest;
    assert es[0] == Enter(k) && es[1..] == body + after;
    BalancedView(stack + [k], body, after, i);
    assert after[0] == Exit(k) && after[1..] == rest && (stack + [k])[..|stack|] == stack;
  }

  lemma OneDeed(stack: seq<int>, e: Event, rest: seq<Event>, i: int)
    requires e.Did? || e.Aborted?
    ensures View(stack, [e] + rest, i) == (if OnTop(stack, i) then [e] else []) + View(stack, rest, i)
  {
    assert ([e] + rest)[1..] == rest;
  }

  // ------------------------------------------------------------ the view of each handler

  /** A handler that has not been entered before: all of its script if it is entered, else nothing. */
  ghost predicate Whole(hs: seq<Script>, es: seq<Event>, view: seq<Event>, i: int)
    requires 0 <= i < |hs|
  {
    if Enter(i) in es then Shows(view, hs[i], i, |hs|) else view == []
  }

  /** The loop of Next: the handlers from an index on are seen whole; the one that called Next sees others
      being entered; the others are not seen at all. */
  ghost predicate FromIndex(hs: seq<Script>, index: int, stack: seq<int>, es: seq<Event>, view: seq<Event>, i: int)
    requires 0 <= i < |hs|
  {
    if i < index then Enter(i) !in es && (if OnTop(stack, i) then Entered(view, index, |hs|) else view == []) else Whole(hs, es, view, i)
  }

  /** The rest of a running handler, which is on top. */
  ghost predicate FromScript(hs: seq<Script>, index: int, stack: seq<int>, es: seq<Event>, view: seq<Event>, ops: Script, i: int)
    requires 0 <= i < |hs|
  {
    && (OnTop(stack, i) ==> if index >= |hs| then view == OwnDeeds(ops) else index == i ==> Shows(view, ops, i, |hs|))
    && (i <= index ==> Enter(i) !in es)
    && (!OnTop(stack, i) ==> if i <= index then view == [] else Whole(hs, es, view, i))
  }

  /** The handler on top is one of the chain, and was entered before the index. */
  predicate Runs(hs: seq<Script>, index: int, stack: seq<int>) {
    stack != [] && stack[|stack| - 1] <= index && stack[|stack| - 1] < |hs|
  }

  lemma {:induction false} InvokeView(hs: seq<Script>, index: int, ops: Script, stack: seq<int>, i: int)
    requires 0 <= index && Runs(hs, index, stack) && 0 <= i < |hs|
    ensures
      var es := InvokeOutcome(hs, index, ops).events;
      FromScript(hs, index, stack, es, View(stack, es, i), ops, i)
    decreases Left(|hs|, index), 1, |ops|
  {
    if ops != [] {
      match ops[0]
      case Work(id) =>
        var rest := InvokeOutcome(hs, index, ops[1..]).events;
        InvokeView(hs, index, ops[1..], stack, i);
        OneDeed(stack, Did(id), rest, i);
        AfterWork(hs, index, stack, rest, View(stack, rest, i), ops, i);
      case CallNext => NextView(hs, index, ops, stack, i);
      case CallAbort =>
        var rest := InvokeOutcome(hs, |hs|, ops[1..]).events;
        InvokeView(hs, |hs|, ops[1..], stack, i);
        OneDeed(stack, Aborted, rest, i);
        AfterAbort(hs, index, stack, rest, View(stack, rest, i), ops, i);
    }
  }

  lemma AfterWork(hs: seq<Script>, index: int, stack: seq<int>, rest: seq<Event>, later: seq<Event>, ops: Script, i: int)
    requires 0 <= i < |hs| && ops != [] && ops[0].Work?
    requires FromScript(hs, index, stack, rest, later, ops[1..], i)
    ensures
      var e := Did(ops[0].id);
      FromScript(hs, index, stack, [e] + rest, (if OnTop(stack, i) then [e] else []) + later, ops, i)
  {
    var e := Did(ops[0].id);
    assert Enter(i) in [e] + rest <==> Enter(i) in rest;
    assert ([e] + later)[1..] == later;
    Nothing(later);
  }

  lemma AfterAbort(hs: seq<Script>, index: int, stack: seq<int>, rest: seq<Event>, later: seq<Event>, ops: Script, i: int)
    requires 0 <= i < |hs| && ops != [] && ops[0].CallAbort?
    requires FromScript(hs, |hs|, stack, rest, later, ops[1..], i)
    ensures FromScript(hs, index, stack, [Aborted] + rest, (if OnTop(stack, i) then [Aborted] else []) + later, ops, i)
  {
    assert Enter(i) in [Aborted] + rest <==> Enter(i) in rest;
    Nothing(later);
  }

  lemma {:induction false} NextView(hs: seq<Script>, index: int, ops: Script, stack: seq<int>, i: int)
    requires ops != [] && ops[0].CallNext?
    requires 0 <= index && Runs(hs, index, stack) && 0 <= i < |hs|
    ensures
      var es := InvokeOutcome(hs, index, ops).events;
      FromScript(hs, index, stack, es, View(stack, es, i), ops, i)
    decreases Left(|hs|, index), 1, |ops|, 0
  {
    var inner := NextOutcome(hs, index);
    var rest := InvokeOutcome(hs, inner.index, ops[1..]);
    NextRunsAll(hs, index);
    if index + 1 < |hs| { LoopView(hs, index + 1, stack, i); }
    InvokeView(hs, inner.index, ops[1..], stack, i);
    BalancedView(stack, inner.events, rest.events, i);
    AfterNext(hs, index, stack, inner, rest, View(stack, inner.events, i), View(stack, rest.events, i), ops, i);
  }

  lemma NextRunsAll(hs: seq<Script>, index: int)
    requires 0 <= index
    ensures NextOutcome(hs, index).index >= |hs| && Balanced(NextOutcome(hs, index).events)
  {
    if index + 1 < |hs| {
      LoopBalanced(hs, index + 1);
      LoopInOrder(hs, index + 1);
    }
  }

  /** Puts what a Next does and the rest of the script together. */
  lemma AfterNext(
    hs: seq<Script>, index: int, stack: seq<int>, inner: Outcome, rest: Outcome, entered: seq<Event>, later: seq<Event>, ops: Script, i: int)
    requires 0 <= i < |hs| && ops != [] && ops[0].CallNext? && Runs(hs, index, stack) && inner.index >= |hs|
    requires if index + 1 < |hs| then FromIndex(hs, index + 1, stack, inner.events, entered, i) else inner.events == [] && entered == []
    requires FromScript(hs, inner.index, stack, rest.events, later, ops[1..], i)
    ensures FromScript(hs, index, stack, inner.events + rest.events, entered + later, ops, i)
  {
    var view := entered + later;
    assert Enter(i) in inner.events + rest.events <==> Enter(i) in inner.events || Enter(i) in rest.events;
    if OnTop(stack, i) {
      assert view[..|entered|] == entered && view[|entered|..] == later;
      assert view[|entered|..] == OwnDeeds(ops[1..]);
      if index >= |hs| { assert view == later == [] + OwnDeeds(ops[1..]); }
    } else {
      Nothing(entered);
    }
  }

  lemma {:induction false} LoopView(hs: seq<Script>, index: int, stack: seq<int>, i: int)
    requires 0 <= index && (stack == [] || stack[|stack| - 1] < index) && 0 <= i < |hs|
    ensures FromIndex(hs, index, stack, LoopOutcome(hs, index).events, View(stack, LoopOutcome(hs, index).events, i), i)
    decreases Left(|hs|, index), 2, 0
  {
    if index < |hs| {
      var body := InvokeOutcome(hs, index, hs[index]);
      var rest := LoopOutcome(hs, body.index + 1);
      InvokeView(hs, index, hs[index], stack + [index], i);
      StartsOnlyBeyond(hs, index, i);
      LoopView(hs, body.index + 1, stack, i);
      RoundSplits(hs, index, stack, i);
      RoundView(hs, index, stack, body, rest, View(stack + [index], body.events, i), View(stack, rest.events, i), i);
    }
  }

  lemma RoundSplits(hs: seq<Script>, index: int, stack: seq<int>, i: int)
    requires 0 <= index < |hs|
    ensures
      var body := InvokeOutcome(hs, index, hs[index]);
      var rest := LoopOutcome(hs, body.index + 1);
      && LoopOutcome(hs, index).events == [Enter(index)] + body.events + [Exit(index)] + rest.events
      && View(stack, LoopOutcome(hs, index).events, i) ==
         (if OnTop(stack, i) then [Enter(index)] else []) + (View(stack + [index], body.events, i) + View(stack, rest.events, i))
  {
    var body := InvokeOutcome(hs, index, hs[index]);
    InvokeBalanced(hs, index, hs[index]);
    WrappedView(stack, index, body.events, LoopOutcome(hs, body.index + 1).events, i);
  }

  /** A handler that enters another has run the chain to its end. */
  lemma StartsOnlyBeyond(hs: seq<Script>, index: int, i: int)
    requires 0 <= index < |hs|
    ensures var body := InvokeOutcome(hs, index, hs[index]); body.index >= index && (Enter(i) in body.events ==> body.index >= |hs|)
  {
    var body := InvokeOutcome(hs, index, hs[index]);
    InvokeInOrder(hs, index, hs[index]);
    if Enter(i) in body.events { StartsHas(body.events, i); }
  }

  /** Puts one round of the loop and the rest of the loop together: a handler is not entered in both. */
  lemma RoundView(
    hs: seq<Script>, index: int, stack: seq<int>, body: Outcome, rest: Outcome, mine: seq<Event>, later: seq<Event>, i: int)
    requires 0 <= index < |hs| && 0 <= i < |hs| && body.index >= index && (stack == [] || stack[|stack| - 1] < index)
    requires FromScript(hs, index, stack + [index], body.events, mine, hs[index], i)
    requires Enter(i) in body.events ==> body.index >= |hs|
    requires FromIndex(hs, body.index + 1, stack, rest.events, later, i)
    ensures FromIndex(hs, index, stack, [Enter(index)] + body.events + [Exit(index)] + rest.events,
                      (if OnTop(stack, i) then [Enter(index)] else []) + (mine + later), i)
  {
    var es := [Enter(index)] + body.events + [Exit(index)] + rest.events;
    assert Enter(i) in es <==> i == index || Enter(i) in body.events || Enter(i) in rest.events;
    if OnTop(stack, i) {
      assert mine + later == later;
    } else {
      Nothing(mine + later);
      Nothing(mine);
      Nothing(later);
    }
  }

  lemma {:induction false} StartsHas(es: seq<Event>, i: int)
    requires Enter(i) in es
    ensures i in Starts(es)
  {
    if es[0] != Enter(i) { StartsHas(es[1..], i); }
  }

  /** Every handler of a chain that is entered does all the work of its script, in order, between its own
      enter and exit events; its first Next, unless it comes after an abort, enters the next
      handler, and nothing else enters any. One
      that is not entered does nothing. */
  lemma HandlersDoTheirWork(hs: seq<Script>, i: int)
    requires 0 <= i < |hs|
    ensures var es := NextOutcome(hs, -1).events; if Enter(i) in es then Shows(View([], es, i), hs[i], i, |hs|) else View([], es, i) == []
  {
    LoopView(hs, 0, [], i);
  }
}
