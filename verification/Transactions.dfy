/**
 Nested transactions of the ORM (database/orm/db.go).

 A callback is a decision tree: it writes, opens nested transactions and reacts
 to their results as it likes. The ORM turns the tree into BEGIN, SAVEPOINT,
 ROLLBACK TO, RELEASE and COMMIT statements. The server keeps a stack of
 savepoints, and a failed child leaves its savepoint on that stack.
 */
module Transactions {
  import opened Wrappers
  import opened Sequences

  // ------------------------------------------------------------ callbacks

  /** What a transaction callback does. `others` is the number of savepoint
      numbers taken by other goroutines before this nested call takes its own. */
  datatype Callback<W> =
    | Return(isNil: bool)
    | Write(w: W, next: Callback<W>)
    | Nested(others: nat, body: Callback<W>, onNil: Callback<W>, onErr: Callback<W>)

  /** Whether the callback returns nil. */
  function Outcome<W>(cb: Callback<W>): bool {
    match cb
    case Return(isNil) => isNil
    case Write(_, next) => Outcome(next)
    case Nested(_, body, onNil, onErr) => if Outcome(body) then Outcome(onNil) else Outcome(onErr)
  }

  /** A write together with the results of all Transaction calls around it, innermost first. */
  datatype Event<W> = Event(w: W, results: seq<bool>)

  function Enclose<W>(es: seq<Event<W>>, result: bool): seq<Event<W>> {
    if es == [] then [] else [Event(es[0].w, es[0].results + [result])] + Enclose(es[1..], result)
  }

  /** Every write the callback executes, in order, whether or not it survives. */
  function Trace<W>(cb: Callback<W>): seq<Event<W>> {
    match cb
    case Return(_) => []
    case Write(w, next) => [Event(w, [])] + Trace(next)
    case Nested(_, body, onNil, onErr) =>
      Enclose(Trace(body), Outcome(body)) + Trace(if Outcome(body) then onNil else onErr)
  }

  /** The writes all of whose enclosing Transaction calls returned nil. */
  function Survivors<W>(es: seq<Event<W>>): seq<W> {
    if es == [] then []
    else (if false in es[0].results then [] else [es[0].w]) + Survivors(es[1..])
  }

  lemma {:induction false} SurvivorsConcat<W>(a: seq<Event<W>>, b: seq<Event<W>>)
    ensures Survivors(a + b) == Survivors(a) + Survivors(b)
  {
    if a == [] {
      assert a + b == b;
    } else {
      assert (a + b)[0] == a[0] && (a + b)[1..] == a[1..] + b;
      SurvivorsConcat(a[1..], b);
    }
  }

  /** A nil result around a group of writes changes nothing; an error discards them all. */
  lemma {:induction false} SurvivorsEnclose<W>(es: seq<Event<W>>, result: bool)
    ensures Survivors(Enclose(es, result)) == if result then Survivors(es) else []
  {
    if es != [] {
      SurvivorsEnclose(es[1..], result);
      var head := Event(es[0].w, es[0].results + [result]);
      assert false in head.results <==> false in es[0].results || !result;
      assert Enclose(es, result)[1..] == Enclose(es[1..], result);
    }
  }

  // ------------------------------------------------------------ the server

  datatype Savepoint<W> = Savepoint(name: nat, saved: seq<W>)

  /** An open transaction: the uncommitted contents and the savepoint stack, oldest first. */
  datatype Tx<W> = Tx(work: seq<W>, stack: seq<Savepoint<W>>)

  datatype Statement<W> = SavepointStmt(name: nat) | RollbackTo(name: nat) | Release(name: nat) | Insert(w: W)

  /** Index of the youngest savepoint with the given name. */
  function Youngest<W>(stack: seq<Savepoint<W>>, name: nat): (r: Option<nat>)
    ensures r.Some? ==> r.value < |stack| && stack[r.value].name == name
    ensures r.Some? ==> forall i :: r.value < i < |stack| ==> stack[i].name != name
    ensures r.None? ==> forall i :: 0 <= i < |stack| ==> stack[i].name != name
  {
    if stack == [] then None
    else if stack[|stack| - 1].name == name then Some(|stack| - 1)
    else Youngest(stack[..|stack| - 1], name)
  }

  /** Statement semantics. ROLLBACK TO keeps the named savepoint and drops the younger
      ones; RELEASE drops the named one too. An unknown name is an error. */
  function Apply<W>(tx: Tx<W>, stmt: Statement<W>): Option<Tx<W>> {
    match stmt
    case SavepointStmt(name) => Some(Tx(tx.work, tx.stack + [Savepoint(name, tx.work)]))
    case Insert(w) => Some(Tx(tx.work + [w], tx.stack))
    case RollbackTo(name) =>
      var at := Youngest(tx.stack, name);
      if at.None? then None else Some(Tx(tx.stack[at.value].saved, tx.stack[..at.value + 1]))
    case Release(name) =>
      var at := Youngest(tx.stack, name);
      if at.None? then None else Some(Tx(tx.work, tx.stack[..at.value]))
  }

  /** `grown` is `base` with savepoints on top whose numbers lie in (low, high]. */
  ghost predicate Grew<W>(base: seq<Savepoint<W>>, grown: seq<Savepoint<W>>, low: nat, high: nat) {
    && base <= grown
    && forall i :: |base| <= i < |grown| ==> low < grown[i].name <= high
  }

  lemma {:induction false} YoungestBelowLeftovers<W>(base: seq<Savepoint<W>>, grown: seq<Savepoint<W>>, name: nat, high: nat)
    requires base != [] && base[|base| - 1].name == name
    requires Grew(base, grown, name, high)
    ensures Youngest(grown, name) == Some(|base| - 1)
  {
    assert grown[|base| - 1] == base[|base| - 1];
  }

  function ApplyAll<W>(tx: Tx<W>, stmts: seq<Statement<W>>): Option<Tx<W>>
    decreases |stmts|
  {
    if stmts == [] then Some(tx)
    else
      var next := Apply(tx, stmts[0]);
      if next.None? then None else ApplyAll(next.value, stmts[1..])
  }

  /** The statements of a failing call around a failing call, each after one write. */
  function FailingPair(outer: nat, inner: nat, a: int, b: int): seq<Statement<int>> {
    [SavepointStmt(outer), Insert(a), SavepointStmt(inner), Insert(b), RollbackTo(inner), RollbackTo(outer)]
  }

  /** The outer write is undone if and only if the two savepoint numbers differ:
      the failed inner call leaves its savepoint behind, and a reused name finds that one. */
  lemma FreshNumbersNeeded(outer: nat, inner: nat, a: int, b: int)
    ensures
      var r := ApplyAll(Tx([], []), FailingPair(outer, inner, a, b));
      r.Some? && (r.value.work == [] <==> outer != inner)
  {
    var t0: Tx<int> := Tx([], []);
    var s := FailingPair(outer, inner, a, b);
    var s0, s1 := Savepoint(outer, []), Savepoint(inner, [a]);
    var t1 := Tx([], [s0]);
    var t2 := Tx([a], [s0]);
    var t3 := Tx([a], [s0, s1]);
    var t4 := Tx([a, b], [s0, s1]);
    assert t4 == Apply(t3, s[3]).value && t3 == Apply(t2, s[2]).value;
    assert t2 == Apply(t1, s[1]).value && t1 == Apply(t0, s[0]).value;
    assert Apply(t4, s[4]) == Some(t3) by {
      assert [s0, s1][1].name == inner;
      assert [s0, s1][..2] == [s0, s1];
    }
    var t6 := Apply(t3, s[5]);
    assert t6.Some? && (t6.value.work == [] <==> outer != inner) by {
      var at := Youngest([s0, s1], outer);
      assert [s0, s1][0].name == outer;
    }
    assert ApplyAll(t3, s[5..]) == t6;
    assert s[4..][1..] == s[5..] && s[3..][1..] == s[4..] && s[2..][1..] == s[3..] && s[1..][1..] == s[2..];
    assert ApplyAll(t4, s[4..]) == t6;
    assert ApplyAll(t3, s[3..]) == t6;
    assert ApplyAll(t2, s[2..]) == t6;
    assert ApplyAll(t1, s[1..]) == t6;
  }

  lemma GrewTwice<W>(a: seq<Savepoint<W>>, b: seq<Savepoint<W>>, c: seq<Savepoint<W>>, low: nat, mid: nat, high: nat)
    requires Grew(a, b, low, mid) && Grew(b, c, mid, high) && low <= mid <= high
    ensures Grew(a, c, low, high)
  {
  }

  lemma TraceWrite<W>(w: W, next: Callback<W>)
    ensures Survivors(Trace(Write(w, next))) == [w] + Survivors(Trace(next))
  {
    assert Trace(Write(w, next))[1..] == Trace(next);
  }

  lemma TraceNested<W>(others: nat, body: Callback<W>, onNil: Callback<W>, onErr: Callback<W>)
    ensures
      var next := if Outcome(body) then onNil else onErr;
      Survivors(Trace(Nested(others, body, onNil, onErr))) == Survivors(Enclose(Trace(body), Outcome(body))) + Survivors(Trace(next))
  {
    SurvivorsConcat(Enclose(Trace(body), Outcome(body)), Trace(if Outcome(body) then onNil else onErr));
  }

  // ------------------------------------------------------------ step by step

  /** A call that is waiting for its callback: what was written before it, and how its caller goes on. */
  datatype Frame<W> = Frame(saved: seq<W>, onNil: Callback<W>, onErr: Callback<W>)

  function Size<W>(cb: Callback<W>): nat {
    match cb
    case Return(_) => 1
    case Write(_, next) => 1 + Size(next)
    case Nested(_, body, onNil, onErr) => 1 + Size(body) + Size(onNil) + Size(onErr)
  }

  function FramesSize<W>(frames: seq<Frame<W>>): nat {
    if frames == [] then 0 else Size(frames[0].onNil) + Size(frames[0].onErr) + FramesSize(frames[1..])
  }

  /** Runs a callback one step at a time: a return goes to the caller that waits for it, and an error
      brings back what was written before the call. The result is the flag of the last return, and
      what is written by then. */
  function Execute<W>(work: seq<W>, cb: Callback<W>, frames: seq<Frame<W>>): (bool, seq<W>)
    decreases Size(cb) + FramesSize(frames)
  {
    match cb
    case Write(w, next) => Execute(work + [w], next, frames)
    case Nested(_, body, onNil, onErr) =>
      var inner := [Frame(work, onNil, onErr)] + frames;
      assert inner[1..] == frames;
      Execute(work, body, inner)
    case Return(isNil) =>
      if frames == [] then (isNil, work)
      else if isNil then Execute(work, frames[0].onNil, frames[1..])
      else Execute(frames[0].saved, frames[0].onErr, frames[1..])
  }

  /** Running a callback comes down to a return of its outcome after its surviving writes. */
  lemma {:induction false} ExecuteReturns<W>(work: seq<W>, cb: Callback<W>, frames: seq<Frame<W>>)
    ensures Execute(work, cb, frames) == Execute(work + Survivors(Trace(cb)), Return(Outcome(cb)), frames)
    decreases cb
  {
    match cb
    case Return(_) => Nothing(work);
    case Write(w, next) =>
      ExecuteReturns(work + [w], next, frames);
      TraceWrite(w, next);
      Regroup(work, [w], Survivors(Trace(next)));
    case Nested(others, body, onNil, onErr) =>
      var inner, mine := [Frame(work, onNil, onErr)] + frames, Survivors(Enclose(Trace(body), Outcome(body)));
      assert inner[0] == Frame(work, onNil, onErr) && inner[1..] == frames;
      ExecuteReturns(work, body, inner);
      SurvivorsEnclose(Trace(body), Outcome(body));
      TraceNested(others, body, onNil, onErr);
      Nothing(work);
      if Outcome(body) {
        ExecuteReturns(work + mine, onNil, frames);
        Regroup(work, mine, Survivors(Trace(onNil)));
      } else {
        ExecuteReturns(work, onErr, frames);
        Nothing(Survivors(Trace(onErr)));
      }
  }

  /** Step by step, a callback ends at a return of its outcome, swallowed errors of nested calls included,
      having added its surviving writes. */
  lemma ExecutionAgrees<W>(work: seq<W>, cb: Callback<W>)
    ensures Execute(work, cb, []) == (Outcome(cb), work + Survivors(Trace(cb)))
  {
    ExecuteReturns(work, cb, []);
  }

  /** Its savepoint below leftovers, a call finds what it wrote itself, and what was there before. */
  lemma FindsOwn<W>(before: Tx<W>, tx: Tx<W>, sp: nat, high: nat)
    requires Grew(before.stack + [Savepoint(sp, before.work)], tx.stack, sp, high)
    ensures Apply(tx, RollbackTo(sp)) == Some(Tx(before.work, before.stack + [Savepoint(sp, before.work)]))
    ensures Apply(tx, Release(sp)) == Some(Tx(tx.work, before.stack))
  {
    var base := before.stack + [Savepoint(sp, before.work)];
    YoungestBelowLeftovers(base, tx.stack, sp, high);
    assert tx.stack[..|base|] == base && base[|before.stack|] == Savepoint(sp, before.work);
    assert tx.stack[..|before.stack|] == base[..|before.stack|] == before.stack;
  }

  // ------------------------------------------------------------ the client

  class DB<W> {
    var committed: seq<W>
    var open: bool
    var tx: Tx<W>
    var savepointSeq: nat

    constructor ()
      ensures committed == [] && !open && savepointSeq == 0
    {
      committed, open, tx, savepointSeq := [], false, Tx([], []), 0;
    }

    method Exec(stmt: Statement<W>) returns (ok: bool)
      modifies this`tx
      ensures ok == Apply(old(tx), stmt).Some?
      ensures tx == if ok then Apply(old(tx), stmt).value else old(tx)
    {
      var r := Apply(tx, stmt);
      ok := r.Some?;
      if ok { tx := r.value; }
    }

    /** Runs a callback with the open transaction as its handle. */
    method Invoke(cb: Callback<W>) returns (isNil: bool)
      requires open
      modifies this`tx, this`savepointSeq, this`committed, this`open
      ensures isNil == Outcome(cb) && open && committed == old(committed)
      ensures tx.work == old(tx.work) + Survivors(Trace(cb))
      ensures old(savepointSeq) <= savepointSeq
      ensures Grew(old(tx.stack), tx.stack, old(savepointSeq), savepointSeq)
      decreases cb, 0
    {
      match cb
      case Return(r) =>
        isNil := r;
      case Write(w, next) =>
        TraceWrite(w, next);
        Regroup(tx.work, [w], Survivors(Trace(next)));
        var _ := Exec(Insert(w));
        isNil := Invoke(next);
      case Nested(others, body, onNil, onErr) =>
        TraceNested(others, body, onNil, onErr);
        ghost var mine, after := Survivors(Enclose(Trace(body), Outcome(body))), if Outcome(body) then onNil else onErr;
        Regroup(tx.work, mine, Survivors(Trace(after)));
        savepointSeq := savepointSeq + others;
        isNil := Transaction(body);
        ghost var mid, seq1 := tx.stack, savepointSeq;
        if isNil {
          isNil := Invoke(onNil);
        } else {
          isNil := Invoke(onErr);
        }
        GrewTwice(old(tx.stack), mid, tx.stack, old(savepointSeq), seq1, savepointSeq);
    }

    /** A Transaction call on an open transaction: a savepoint around the callback. */
    method InSavepoint(cb: Callback<W>) returns (isNil: bool)
      requires open
      modifies this`tx, this`savepointSeq, this`committed, this`open
      ensures isNil == Outcome(cb) && open && committed == old(committed)
      ensures tx.work == old(tx.work) + Survivors(Enclose(Trace(cb), isNil))
      ensures old(savepointSeq) <= savepointSeq
      ensures Grew(old(tx.stack), tx.stack, old(savepointSeq), savepointSeq)
      decreases cb, 1
    {
      SurvivorsEnclose(Trace(cb), Outcome(cb));
      savepointSeq := savepointSeq + 1;
      var sp := savepointSeq;
      var _ := Exec(SavepointStmt(sp));
      isNil := Invoke(cb);
      FindsOwn(old(tx), tx, sp, savepointSeq);
      var ok;
      if !isNil {
        ok := Exec(RollbackTo(sp));
      } else {
        ok := Exec(Release(sp));
        isNil := ok;
      }
      assert ok;
    }

    /** One Transaction call, nested or outermost. In both cases the store that survives
        the call gains exactly the writes all of whose enclosing calls returned nil, and
        the savepoint statements never hit an unknown or a foreign savepoint. */
    method Transaction(cb: Callback<W>) returns (isNil: bool)
      modifies this`tx, this`savepointSeq, this`committed, this`open
      ensures isNil == Outcome(cb)
      ensures open == old(open)
      ensures old(savepointSeq) <= savepointSeq
      ensures open ==> committed == old(committed)
      ensures open ==> tx.work == old(tx.work) + Survivors(Enclose(Trace(cb), isNil))
      ensures open ==> Grew(old(tx.stack), tx.stack, old(savepointSeq), savepointSeq)
      ensures !open ==> committed == old(committed) + Survivors(Enclose(Trace(cb), isNil))
      decreases cb, 2
    {
      if open {
        isNil := InSavepoint(cb);
      } else {
        SurvivorsEnclose(Trace(cb), Outcome(cb));
        tx := Tx(committed, []);
        open := true;
        isNil := Invoke(cb);
        if isNil { committed := tx.work; }
        open := false;
      }
    }
  }
}
