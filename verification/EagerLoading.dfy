/**
 Eager loading of relations (database/orm/relation.go). A batch of models is filled from one
 or two queries and a hash join; a path goes on with the children just loaded. Keys are
 non-null and of one type, and a struct's relation fields are addressed by position.
 */
module EagerLoading {
  import opened Wrappers

  /** A model or row: its id, its other key columns, and its relation fields. A pointer field
      that is nil, like an empty slice, holds no item. */
  datatype Item = Item(id: int, keys: map<string, int>, rels: seq<seq<Item>>)

  datatype Rel =
    | HasMany(table: string, fk: string)
    | HasOne(table: string, fk: string)
    | BelongsTo(table: string, fk: string)
    | BelongsToMany(pivot: string, table: string)

  /** One part of a path, resolved on the type of the models: None if there is no such relation. */
  datatype Step = Step(field: nat, rel: Option<Rel>)

  datatype Db = Db(tables: map<string, seq<Item>>, pivots: map<string, seq<(int, int)>>)

  function Rows(db: Db, table: string): seq<Item> { if table in db.tables then db.tables[table] else [] }
  function Pivot(db: Db, table: string): seq<(int, int)> { if table in db.pivots then db.pivots[table] else [] }

  function Key(m: Item, column: string): Option<int> {
    if column == "id" then Some(m.id) else if column in m.keys then Some(m.keys[column]) else None
  }

  function Related(m: Item, f: nat): seq<Item> { if f < |m.rels| then m.rels[f] else [] }
  function Put(m: Item, f: nat, items: seq<Item>): Item { if f < |m.rels| then m.(rels := m.rels[f := items]) else m }

  // ------------------------------------------------------------ one model at a time

  /** The rows with a given key, in the table's order. */
  function Having(rows: seq<Item>, column: string, k: int): seq<Item> {
    if rows == [] then []
    else
      var n := |rows| - 1;
      Having(rows[..n], column, k) + if Key(rows[n], column) == Some(k) then [rows[n]] else []
  }

  /** The last row with a given key, if there is one. */
  function LastHaving(rows: seq<Item>, column: string, k: int): seq<Item> {
    var all := Having(rows, column, k);
    if all == [] then [] else [all[|all| - 1]]
  }

  /** The rows a model is linked to, in the order of the pivot table. */
  function Join(pairs: seq<(int, int)>, rows: seq<Item>, k: int): seq<Item> {
    if pairs == [] then []
    else
      var n := |pairs| - 1;
      Join(pairs[..n], rows, k) + if pairs[n].0 == k then LastHaving(rows, "id", pairs[n].1) else []
  }

  predicate Linked(pairs: seq<(int, int)>, k: int) { exists i :: 0 <= i < |pairs| && pairs[i].0 == k }

  /** Sets a field, unless there is nothing to set it to. */
  function PutIfAny(m: Item, f: nat, items: seq<Item>): Item { if items == [] then m else Put(m, f, items) }

  /** The relation of a single model, loaded on its own. */
  function LoadOne(db: Db, f: nat, rel: Rel, m: Item): Item {
    match rel
    case HasMany(table, fk) => Put(m, f, Having(Rows(db, table), fk, m.id))
    case HasOne(table, fk) => PutIfAny(m, f, LastHaving(Rows(db, table), fk, m.id))
    case BelongsTo(table, fk) => if Key(m, fk).None? then m else PutIfAny(m, f, LastHaving(Rows(db, table), "id", Key(m, fk).value))
    case BelongsToMany(pivot, table) =>
      if Linked(Pivot(db, pivot), m.id) then Put(m, f, Join(Pivot(db, pivot), Rows(db, table), m.id)) else m
  }

  function LoadEach(db: Db, f: nat, rel: Rel, ms: seq<Item>): (r: seq<Item>)
    ensures |r| == |ms| && forall i :: 0 <= i < |ms| ==> r[i] == LoadOne(db, f, rel, ms[i])
  {
    seq(|ms|, i requires 0 <= i < |ms| => LoadOne(db, f, rel, ms[i]))
  }

  /** A whole path for a single model: the first relation, then the rest on each child. */
  function Naive(db: Db, path: seq<Step>, m: Item): Item
    decreases |path|, 0
  {
    if path == [] || path[0].rel.None? then m
    else
      var loaded := LoadOne(db, path[0].field, path[0].rel.value, m);
      Put(loaded, path[0].field, NaiveEach(db, path[1..], Related(loaded, path[0].field)))
  }

  function NaiveEach(db: Db, path: seq<Step>, ms: seq<Item>): (r: seq<Item>)
    ensures |r| == |ms|
    decreases |path|, 1 + |ms|
  {
    if ms == [] then [] else [Naive(db, path, ms[0])] + NaiveEach(db, path, ms[1..])
  }

  /** Whether loading a path for a single model reports a missing relation. */
  predicate NaiveFails(db: Db, path: seq<Step>, m: Item)
    decreases |path|
  {
    path != [] && (path[0].rel.None? ||
      var children := Related(LoadOne(db, path[0].field, path[0].rel.value, m), path[0].field);
      exists i :: 0 <= i < |children| && NaiveFails(db, path[1..], children[i]))
  }

  // ------------------------------------------------------------ the batch

  function Ids(ms: seq<Item>): (r: seq<int>)
    ensures |r| == |ms| && forall i :: 0 <= i < |ms| ==> r[i] == ms[i].id
  {
    seq(|ms|, i requires 0 <= i < |ms| => ms[i].id)
  }

  /** SELECT * FROM rows WHERE column IN (ids). */
  function SelectIn(rows: seq<Item>, column: string, ids: seq<int>): seq<Item> {
    if rows == [] then []
    else
      var n := |rows| - 1;
      SelectIn(rows[..n], column, ids) + if Key(rows[n], column).Some? && Key(rows[n], column).value in ids then [rows[n]] else []
  }

  function SelectPairs(pairs: seq<(int, int)>, ids: seq<int>): seq<(int, int)> {
    if pairs == [] then []
    else
      var n := |pairs| - 1;
      SelectPairs(pairs[..n], ids) + if pairs[n].0 in ids then [pairs[n]] else []
  }

  predicate AnyLinked(pairs: seq<(int, int)>, ms: seq<Item>) { exists i :: 0 <= i < |ms| && Linked(pairs, ms[i].id) }

  function JoinEach(db: Db, f: nat, pivot: string, table: string, ms: seq<Item>): (r: seq<Item>)
    ensures |r| == |ms| && forall i :: 0 <= i < |ms| ==> r[i] == Put(ms[i], f, Join(Pivot(db, pivot), Rows(db, table), ms[i].id))
  {
    seq(|ms|, i requires 0 <= i < |ms| => Put(ms[i], f, Join(Pivot(db, pivot), Rows(db, table), ms[i].id)))
  }

  /** What a loader leaves in the models. belongsToMany sets the field of every model of a
      batch in which some model is linked, and of none in a batch in which none is. */
  function BatchStep(db: Db, f: nat, rel: Rel, ms: seq<Item>): (r: seq<Item>)
    ensures |r| == |ms|
  {
    if rel.BelongsToMany? then
      (if AnyLinked(Pivot(db, rel.pivot), ms) then JoinEach(db, f, rel.pivot, rel.table, ms) else ms)
    else LoadEach(db, f, rel, ms)
  }

  function Children(f: nat, ms: seq<Item>): seq<Item> { if ms == [] then [] else Related(ms[0], f) + Children(f, ms[1..]) }

  /** The models after their children, one after the other, have become `cs`. */
  function Spread(f: nat, ms: seq<Item>, cs: seq<Item>): (r: seq<Item>)
    requires |cs| == |Children(f, ms)|
    ensures |r| == |ms|
  {
    if ms == [] then [] else
    var n := |Related(ms[0], f)|;
    [Put(ms[0], f, cs[..n])] + Spread(f, ms[1..], cs[n..])
  }

  /** withPath. */
  function Batch(db: Db, path: seq<Step>, ms: seq<Item>): (r: seq<Item>)
    ensures |r| == |ms|
    decreases |path|
  {
    if ms == [] || path == [] || path[0].rel.None? then ms
    else
      var loaded := BatchStep(db, path[0].field, path[0].rel.value, ms);
      Spread(path[0].field, loaded, Batch(db, path[1..], Children(path[0].field, loaded)))
  }

  predicate BatchFails(db: Db, path: seq<Step>, ms: seq<Item>)
    decreases |path|
  {
    ms != [] && path != [] && (path[0].rel.None? ||
      BatchFails(db, path[1..], Children(path[0].field, BatchStep(db, path[0].field, path[0].rel.value, ms))))
  }

  // ------------------------------------------------------------ the batch is the models one by one

  /** The only difference a batch can make: a model that is linked to nothing keeps what its
      field held if loaded alone, and loses it in a batch with a linked one. */
  predicate StepAgrees(db: Db, f: nat, rel: Rel, ms: seq<Item>) {
    rel.BelongsToMany? && AnyLinked(Pivot(db, rel.pivot), ms) ==>
      forall i :: 0 <= i < |ms| && !Linked(Pivot(db, rel.pivot), ms[i].id) ==> Related(ms[i], f) == []
  }

  predicate Agrees(db: Db, path: seq<Step>, ms: seq<Item>)
    decreases |path|
  {
    ms == [] || path == [] || path[0].rel.None? ||
    (var f, rel := path[0].field, path[0].rel.value;
     StepAgrees(db, f, rel, ms) && Agrees(db, path[1..], Children(f, LoadEach(db, f, rel, ms))))
  }

  lemma {:induction false} JoinUnlinked(pairs: seq<(int, int)>, rows: seq<Item>, k: int)
    requires !Linked(pairs, k)
    ensures Join(pairs, rows, k) == []
  {
    if pairs != [] {
      assert !Linked(pairs[..|pairs| - 1], k);
      JoinUnlinked(pairs[..|pairs| - 1], rows, k);
    }
  }

  lemma PutRelated(m: Item, f: nat, items: seq<Item>)
    ensures f < |m.rels| || items == [] ==> Related(Put(m, f, items), f) == items
    ensures Related(m, f) == items ==> Put(m, f, items) == m
  {
  }

  lemma StepIsLoadEach(db: Db, f: nat, rel: Rel, ms: seq<Item>)
    requires StepAgrees(db, f, rel, ms)
    ensures BatchStep(db, f, rel, ms) == LoadEach(db, f, rel, ms)
  {
    if rel.BelongsToMany? {
      forall i | 0 <= i < |ms|
        ensures BatchStep(db, f, rel, ms)[i] == LoadOne(db, f, rel, ms[i])
      {
        if !Linked(Pivot(db, rel.pivot), ms[i].id) {
          JoinUnlinked(Pivot(db, rel.pivot), Rows(db, rel.table), ms[i].id);
          if AnyLinked(Pivot(db, rel.pivot), ms) { PutRelated(ms[i], f, []); }
        }
      }
    }
  }

  lemma {:induction false} NaiveEachAt(db: Db, path: seq<Step>, ms: seq<Item>, i: nat)
    requires i < |ms|
    ensures NaiveEach(db, path, ms)[i] == Naive(db, path, ms[i])
    decreases |ms|
  {
    if i > 0 { NaiveEachAt(db, path, ms[1..], i - 1); }
  }

  lemma NaiveEachConcat(db: Db, path: seq<Step>, a: seq<Item>, b: seq<Item>)
    ensures NaiveEach(db, path, a + b) == NaiveEach(db, path, a) + NaiveEach(db, path, b)
  {
    forall i | 0 <= i < |a + b|
      ensures NaiveEach(db, path, a + b)[i] == (NaiveEach(db, path, a) + NaiveEach(db, path, b))[i]
    {
      NaiveEachAt(db, path, a + b, i);
      if i < |a| { NaiveEachAt(db, path, a, i); } else { NaiveEachAt(db, path, b, i - |a|); }
    }
  }

  /** Spreading the children, each loaded on its own, is loading each model's own children. */
  lemma {:induction false} SpreadNaive(db: Db, f: nat, path: seq<Step>, ms: seq<Item>, i: nat)
    requires i < |ms|
    ensures Spread(f, ms, NaiveEach(db, path, Children(f, ms)))[i] == Put(ms[i], f, NaiveEach(db, path, Related(ms[i], f)))
    decreases |ms|
  {
    var own, others := Related(ms[0], f), Children(f, ms[1..]);
    NaiveEachConcat(db, path, own, others);
    var cs := NaiveEach(db, path, Children(f, ms));
    assert cs[..|own|] == NaiveEach(db, path, own) && cs[|own|..] == NaiveEach(db, path, others);
    if i > 0 { SpreadNaive(db, f, path, ms[1..], i - 1); }
  }

  lemma {:induction false} ChildrenOfSpread(f: nat, ms: seq<Item>, cs: seq<Item>)
    requires |cs| == |Children(f, ms)|
    ensures Children(f, Spread(f, ms, cs)) == cs
  {
    if ms != [] {
      var n, r := |Related(ms[0], f)|, Spread(f, ms, cs);
      PutRelated(ms[0], f, cs[..n]);
      ChildrenOfSpread(f, ms[1..], cs[n..]);
      assert r[1..] == Spread(f, ms[1..], cs[n..]);
      assert cs[..n] + cs[n..] == cs;
    }
  }

  lemma {:induction false} SpreadAt(f: nat, ms: seq<Item>, cs: seq<Item>, i: nat)
    requires |cs| == |Children(f, ms)| && i < |ms|
    ensures |Related(Spread(f, ms, cs)[i], f)| == |Related(ms[i], f)|
    decreases |ms|
  {
    var n := |Related(ms[0], f)|;
    if i == 0 { PutRelated(ms[0], f, cs[..n]); } else { SpreadAt(f, ms[1..], cs[n..], i - 1); }
  }

  /** One level of NaiveEach, seen as a batch. */
  lemma NaiveEachSpreads(db: Db, path: seq<Step>, ms: seq<Item>)
    requires path != [] && path[0].rel.Some?
    ensures
      var f := path[0].field;
      var loaded := LoadEach(db, f, path[0].rel.value, ms);
      NaiveEach(db, path, ms) == Spread(f, loaded, NaiveEach(db, path[1..], Children(f, loaded)))
  {
    var f := path[0].field;
    var loaded := LoadEach(db, f, path[0].rel.value, ms);
    forall i | 0 <= i < |ms|
      ensures NaiveEach(db, path, ms)[i] == Spread(f, loaded, NaiveEach(db, path[1..], Children(f, loaded)))[i]
    {
      NaiveEachAt(db, path, ms, i);
      SpreadNaive(db, f, path[1..], loaded, i);
    }
  }

  lemma {:induction false} NaiveStops(db: Db, path: seq<Step>, ms: seq<Item>)
    requires path == [] || path[0].rel.None?
    ensures NaiveEach(db, path, ms) == ms
    decreases |ms|
  {
    if ms != [] {
      NaiveStops(db, path, ms[1..]);
      assert ms == [ms[0]] + ms[1..];
    }
  }

  /** If a step disagrees, so does the whole load. */
  lemma StepDisagrees(db: Db, path: seq<Step>, ms: seq<Item>)
    requires ms != [] && path != [] && path[0].rel.Some? && !StepAgrees(db, path[0].field, path[0].rel.value, ms)
    ensures Batch(db, path, ms) != NaiveEach(db, path, ms)
  {
    var f, rel := path[0].field, path[0].rel.value;
    var i :| 0 <= i < |ms| && !Linked(Pivot(db, rel.pivot), ms[i].id) && Related(ms[i], f) != [];
    JoinUnlinked(Pivot(db, rel.pivot), Rows(db, rel.table), ms[i].id);
    var batch, each := BatchStep(db, f, rel, ms), LoadEach(db, f, rel, ms);
    PutRelated(ms[i], f, []);
    SpreadAt(f, batch, Batch(db, path[1..], Children(f, batch)), i);
    NaiveEachSpreads(db, path, ms);
    SpreadAt(f, each, NaiveEach(db, path[1..], Children(f, each)), i);
  }

  /** For every path and every table contents, the batched load gives each model what loading
      it alone would, exactly if no level takes away a field that was already set. */
  lemma {:induction false} BatchIsNaiveIff(db: Db, path: seq<Step>, ms: seq<Item>)
    ensures Batch(db, path, ms) == NaiveEach(db, path, ms) <==> Agrees(db, path, ms)
    decreases |path|
  {
    if ms == [] {
    } else if path == [] || path[0].rel.None? {
      NaiveStops(db, path, ms);
    } else {
      var f, rel := path[0].field, path[0].rel.value;
      if StepAgrees(db, f, rel, ms) {
        StepIsLoadEach(db, f, rel, ms);
        var loaded := LoadEach(db, f, rel, ms);
        var cs := Children(f, loaded);
        BatchIsNaiveIff(db, path[1..], cs);
        NaiveEachSpreads(db, path, ms);
        ChildrenOfSpread(f, loaded, Batch(db, path[1..], cs));
        ChildrenOfSpread(f, loaded, NaiveEach(db, path[1..], cs));
      } else {
        StepDisagrees(db, path, ms);
      }
    }
  }

  /** Under the same condition the batch reports a missing relation exactly if some model, loaded
      alone, would. */
  lemma {:induction false} BatchFailsIff(db: Db, path: seq<Step>, ms: seq<Item>)
    requires Agrees(db, path, ms)
    ensures BatchFails(db, path, ms) <==> exists i :: 0 <= i < |ms| && NaiveFails(db, path, ms[i])
    decreases |path|
  {
    if ms == [] || path == [] {
    } else if path[0].rel.None? {
      assert NaiveFails(db, path, ms[0]);
    } else {
      var f, rel := path[0].field, path[0].rel.value;
      StepIsLoadEach(db, f, rel, ms);
      var loaded := LoadEach(db, f, rel, ms);
      BatchFailsIff(db, path[1..], Children(f, loaded));
      SomeChildFails(db, path[1..], f, loaded);
      assert forall i :: 0 <= i < |ms| ==> (NaiveFails(db, path, ms[i]) <==> AnyFails(db, path[1..], Related(loaded[i], f)));
      assert (exists i :: 0 <= i < |ms| && NaiveFails(db, path, ms[i])) <==> (exists i :: 0 <= i < |loaded| && AnyFails(db, path[1..], Related(loaded[i], f)));
    }
  }

  predicate AnyFails(db: Db, path: seq<Step>, ms: seq<Item>) { exists i :: 0 <= i < |ms| && NaiveFails(db, path, ms[i]) }

  lemma {:induction false} SomeChildFails(db: Db, path: seq<Step>, f: nat, ms: seq<Item>)
    ensures AnyFails(db, path, Children(f, ms)) <==> exists i :: 0 <= i < |ms| && AnyFails(db, path, Related(ms[i], f))
  {
    if ms != [] {
      var own, others := Related(ms[0], f), Children(f, ms[1..]);
      SomeChildFails(db, path, f, ms[1..]);
      AnyFailsConcat(db, path, own, others);
      assert (exists i :: 0 <= i < |ms[1..]| && AnyFails(db, path, Related(ms[1..][i], f))) ==> exists i :: 1 <= i < |ms| && AnyFails(db, path, Related(ms[i], f));
      assert forall i :: 1 <= i < |ms| ==> ms[i] == ms[1..][i - 1];
    }
  }

  lemma AnyFailsConcat(db: Db, path: seq<Step>, a: seq<Item>, b: seq<Item>)
    ensures AnyFails(db, path, a + b) <==> AnyFails(db, path, a) || AnyFails(db, path, b)
  {
    assert forall i :: 0 <= i < |a| ==> (a + b)[i] == a[i];
    assert forall i :: 0 <= i < |b| ==> (a + b)[|a| + i] == b[i];
  }

  // ------------------------------------------------------------ models fresh from the database

  predicate Bare(m: Item) { forall f :: 0 <= f < |m.rels| ==> m.rels[f] == [] }

  ghost predicate AllBare(ms: seq<Item>) { forall i :: 0 <= i < |ms| ==> Bare(ms[i]) }

  ghost predicate BareTables(db: Db) { forall t :: t in db.tables ==> AllBare(db.tables[t]) }

  lemma {:induction false} HavingIsBare(rows: seq<Item>, column: string, k: int)
    requires AllBare(rows)
    ensures AllBare(Having(rows, column, k)) && AllBare(LastHaving(rows, column, k))
  {
    if rows != [] { HavingIsBare(rows[..|rows| - 1], column, k); }
  }

  lemma {:induction false} JoinIsBare(pairs: seq<(int, int)>, rows: seq<Item>, k: int)
    requires AllBare(rows)
    ensures AllBare(Join(pairs, rows, k))
  {
    if pairs != [] {
      JoinIsBare(pairs[..|pairs| - 1], rows, k);
      HavingIsBare(rows, "id", pairs[|pairs| - 1].1);
    }
  }

  lemma LoadedAreBare(db: Db, f: nat, rel: Rel, m: Item)
    requires BareTables(db) && Bare(m)
    ensures AllBare(Related(LoadOne(db, f, rel, m), f))
  {
    match rel
    case HasMany(table, fk) => HavingIsBare(Rows(db, table), fk, m.id);
    case HasOne(table, fk) => HavingIsBare(Rows(db, table), fk, m.id);
    case BelongsTo(table, fk) => if Key(m, fk).Some? { HavingIsBare(Rows(db, table), "id", Key(m, fk).value); }
    case BelongsToMany(pivot, table) => JoinIsBare(Pivot(db, pivot), Rows(db, table), m.id);
  }

  lemma {:induction false} ChildrenAreBare(f: nat, ms: seq<Item>)
    requires forall i :: 0 <= i < |ms| ==> AllBare(Related(ms[i], f))
    ensures AllBare(Children(f, ms))
  {
    if ms != [] { ChildrenAreBare(f, ms[1..]); }
  }

  lemma {:induction false} BareAgrees(db: Db, path: seq<Step>, ms: seq<Item>)
    requires BareTables(db) && AllBare(ms)
    ensures Agrees(db, path, ms)
    decreases |path|
  {
    if ms != [] && path != [] && path[0].rel.Some? {
      var f, rel := path[0].field, path[0].rel.value;
      var loaded := LoadEach(db, f, rel, ms);
      forall i | 0 <= i < |ms|
        ensures AllBare(Related(loaded[i], f))
      {
        LoadedAreBare(db, f, rel, ms[i]);
      }
      ChildrenAreBare(f, loaded);
      BareAgrees(db, path[1..], Children(f, loaded));
    }
  }

  /** Models as a query returns them, with no relation loaded yet, always get what each would
      get alone, along every path. */
  lemma FreshModelsAgree(db: Db, path: seq<Step>, ms: seq<Item>)
    requires BareTables(db) && AllBare(ms)
    ensures Batch(db, path, ms) == NaiveEach(db, path, ms)
    ensures BatchFails(db, path, ms) <==> exists i :: 0 <= i < |ms| && NaiveFails(db, path, ms[i])
  {
    BareAgrees(db, path, ms);
    BatchIsNaiveIff(db, path, ms);
    BatchFailsIff(db, path, ms);
  }

  /** A field already set survives a lone load and not a batch. */
  lemma BatchClearsUnlinked(db: Db, linked: Item, other: Item)
    requires Pivot(db, "p") == [(1, 7)] && Rows(db, "t") == []
    requires linked == Item(1, map[], [[]]) && other == Item(2, map[], [[linked]])
    ensures
      var path := [Step(0, Some(BelongsToMany("p", "t")))];
      Batch(db, path, [linked, other]) != NaiveEach(db, path, [linked, other])
  {
    var path := [Step(0, Some(BelongsToMany("p", "t")))];
    BatchIsNaiveIff(db, path, [linked, other]);
    assert Linked([(1, 7)], [linked, other][0].id) by { assert [(1, 7)][0].0 == 1; }
    assert !Linked([(1, 7)], [linked, other][1].id) && Related([linked, other][1], 0) != [];
  }

  // ------------------------------------------------------------ what a query brings

  lemma {:induction false} HavingSelected(rows: seq<Item>, column: string, ids: seq<int>, k: int)
    requires k in ids
    ensures Having(SelectIn(rows, column, ids), column, k) == Having(rows, column, k)
  {
    if rows != [] {
      var n := |rows| - 1;
      HavingSelected(rows[..n], column, ids, k);
      var before := SelectIn(rows[..n], column, ids);
      if Key(rows[n], column).Some? && Key(rows[n], column).value in ids {
        assert (before + [rows[n]])[..|before|] == before;
      } else {
        assert before + [] == before;
      }
    }
  }

  lemma {:induction false} SelectOneMore(rows: seq<Item>, column: string, k: int, ids: seq<int>)
    requires k !in ids
    ensures multiset(SelectIn(rows, column, [k] + ids)) == multiset(Having(rows, column, k)) + multiset(SelectIn(rows, column, ids))
  {
    if rows != [] {
      SelectOneMore(rows[..|rows| - 1], column, k, ids);
      assert forall x :: x in [k] + ids <==> x == k || x in ids;
    }
  }

  lemma {:induction false} SelectNone(rows: seq<Item>, column: string)
    ensures SelectIn(rows, column, []) == []
  {
    if rows != [] { SelectNone(rows[..|rows| - 1], column); }
  }

  lemma ChildrenOfFirst(db: Db, f: nat, rel: Rel, ms: seq<Item>)
    requires ms != []
    ensures Children(f, LoadEach(db, f, rel, ms)) == Related(LoadOne(db, f, rel, ms[0]), f) + Children(f, LoadEach(db, f, rel, ms[1..]))
  {
    assert LoadEach(db, f, rel, ms)[1..] == LoadEach(db, f, rel, ms[1..]);
  }

  /** hasMany on models with distinct ids hands out every row that the query brings, each once. */
  lemma {:induction false} HasManyPartitions(db: Db, f: nat, table: string, fk: string, ms: seq<Item>)
    requires forall i, j :: 0 <= i < j < |ms| ==> ms[i].id != ms[j].id
    requires forall i :: 0 <= i < |ms| ==> f < |ms[i].rels|
    ensures multiset(Children(f, LoadEach(db, f, HasMany(table, fk), ms))) == multiset(SelectIn(Rows(db, table), fk, Ids(ms)))
  {
    if ms == [] {
      SelectNone(Rows(db, table), fk);
    } else {
      HasManyPartitions(db, f, table, fk, ms[1..]);
      ChildrenOfFirst(db, f, HasMany(table, fk), ms);
      assert Ids(ms) == [ms[0].id] + Ids(ms[1..]);
      SelectOneMore(Rows(db, table), fk, ms[0].id, Ids(ms[1..]));
    }
  }

  /** With a primary key, belongsTo gives the one row that has it. */
  lemma {:induction false} UniqueMatch(rows: seq<Item>, i: nat)
    requires i < |rows| && forall j :: 0 <= j < |rows| && rows[j].id == rows[i].id ==> j == i
    ensures LastHaving(rows, "id", rows[i].id) == [rows[i]]
    decreases |rows|
  {
    var n := |rows| - 1;
    if i < n {
      UniqueMatch(rows[..n], i);
    } else {
      NoMatch(rows[..n], rows[i].id);
    }
  }

  lemma {:induction false} NoMatch(rows: seq<Item>, k: int)
    requires forall j :: 0 <= j < |rows| ==> rows[j].id != k
    ensures Having(rows, "id", k) == []
  {
    if rows != [] { NoMatch(rows[..|rows| - 1], k); }
  }

  // ------------------------------------------------------------ the loaders

  function Lookup(grouped: map<int, seq<Item>>, k: int): seq<Item> { if k in grouped then grouped[k] else [] }

  function Entry(byKey: map<int, Item>, k: int): seq<Item> { if k in byKey then [byKey[k]] else [] }

  method CollectIds(models: array<Item>) returns (ids: seq<int>)
    ensures ids == Ids(models[..])
  {
    ids := [];
    for i := 0 to models.Length
      invariant |ids| == i && forall j :: 0 <= j < i ==> ids[j] == models[j].id
    {
      ids := ids + [models[i].id];
    }
  }

  lemma LastSnoc(items: seq<Item>, item: Item, column: string, k: int)
    ensures LastHaving(items + [item], column, k) == if Key(item, column) == Some(k) then [item] else LastHaving(items, column, k)
  {
    assert (items + [item])[..|items|] == items;
    assert Having(items, column, k) + [] == Having(items, column, k);
  }

  /** byFK and byID: a later item replaces an earlier one with the same key. */
  method IndexBy(items: seq<Item>, column: string) returns (byKey: map<int, Item>)
    ensures forall k :: Entry(byKey, k) == LastHaving(items, column, k)
  {
    byKey := map[];
    assert items[..0] == [];
    for i := 0 to |items|
      invariant forall k :: Entry(byKey, k) == LastHaving(items[..i], column, k)
    {
      assert items[..i + 1] == items[..i] + [items[i]];
      var key := Key(items[i], column);
      ghost var before := byKey;
      if key.Some? { byKey := byKey[key.value := items[i]]; }
      forall k
        ensures Entry(byKey, k) == LastHaving(items[..i + 1], column, k)
      {
        LastSnoc(items[..i], items[i], column, k);
        assert Entry(before, k) == LastHaving(items[..i], column, k);
      }
    }
    assert items[..|items|] == items;
  }

  /** The rows a query brings for a list of keys, indexed. */
  method QueryIndexed(rows: seq<Item>, column: string, ids: seq<int>) returns (byKey: map<int, Item>)
    ensures forall k :: k in ids ==> Entry(byKey, k) == LastHaving(rows, column, k)
  {
    byKey := IndexBy(SelectIn(rows, column, ids), column);
    forall k | k in ids
      ensures Entry(byKey, k) == LastHaving(rows, column, k)
    {
      HavingSelected(rows, column, ids, k);
    }
  }

  method GroupBy(items: seq<Item>, column: string) returns (grouped: map<int, seq<Item>>)
    ensures forall k :: Lookup(grouped, k) == Having(items, column, k)
  {
    grouped := map[];
    assert items[..0] == [];
    for i := 0 to |items|
      invariant forall k :: Lookup(grouped, k) == Having(items[..i], column, k)
    {
      assert items[..i + 1][..i] == items[..i];
      var key := Key(items[i], column);
      if key.Some? { grouped := grouped[key.value := Lookup(grouped, key.value) + [items[i]]]; }
    }
    assert items[..|items|] == items;
  }

  /** The last loop of the two loaders of lists. */
  method FillLists(models: array<Item>, f: nat, grouped: map<int, seq<Item>>)
    modifies models
    ensures forall i :: 0 <= i < models.Length ==> models[i] == Put(old(models[i]), f, Lookup(grouped, old(models[i]).id))
  {
    for i := 0 to models.Length
      invariant forall j :: 0 <= j < i ==> models[j] == Put(old(models[j]), f, Lookup(grouped, old(models[j]).id))
      invariant forall j :: i <= j < models.Length ==> models[j] == old(models[j])
    {
      models[i] := Put(models[i], f, Lookup(grouped, models[i].id));
    }
  }

  method LoadHasMany(db: Db, models: array<Item>, f: nat, table: string, fk: string)
    modifies models
    ensures models[..] == BatchStep(db, f, HasMany(table, fk), old(models[..]))
  {
    var ids := CollectIds(models);
    var childItems := SelectIn(Rows(db, table), fk, ids);
    var grouped := GroupBy(childItems, fk);
    FillLists(models, f, grouped);
    forall i | 0 <= i < models.Length
      ensures models[i] == LoadOne(db, f, HasMany(table, fk), old(models[i]))
    {
      HavingSelected(Rows(db, table), fk, ids, ids[i]);
    }
  }

  /** Sets a field from an index, if the index has an entry. */
  function PutEntry(m: Item, f: nat, byKey: map<int, Item>, key: Option<int>): Item {
    if key.Some? && key.value in byKey then Put(m, f, [byKey[key.value]]) else m
  }

  lemma PutEntryLoads(db: Db, f: nat, table: string, fk: string, m: Item, byID: map<int, Item>)
    requires Key(m, fk).Some? ==> Entry(byID, Key(m, fk).value) == LastHaving(Rows(db, table), "id", Key(m, fk).value)
    ensures PutEntry(m, f, byID, Key(m, fk)) == LoadOne(db, f, BelongsTo(table, fk), m)
  {
  }

  lemma PutEntryLoadsOne(db: Db, f: nat, table: string, fk: string, m: Item, byFK: map<int, Item>)
    requires Entry(byFK, m.id) == LastHaving(Rows(db, table), fk, m.id)
    ensures PutEntry(m, f, byFK, Some(m.id)) == LoadOne(db, f, HasOne(table, fk), m)
  {
  }

  method LoadHasOne(db: Db, models: array<Item>, f: nat, table: string, fk: string)
    modifies models
    ensures models[..] == BatchStep(db, f, HasOne(table, fk), old(models[..]))
  {
    ghost var result := LoadEach(db, f, HasOne(table, fk), models[..]);
    var ids := CollectIds(models);
    var byFK := QueryIndexed(Rows(db, table), fk, ids);
    for i := 0 to models.Length
      invariant forall j :: 0 <= j < i ==> models[j] == result[j]
      invariant forall j :: i <= j < models.Length ==> models[j] == old(models[j])
    {
      assert ids[i] == models[i].id;
      PutEntryLoadsOne(db, f, table, fk, models[i], byFK);
      models[i] := PutEntry(models[i], f, byFK, Some(models[i].id));
    }
    assert models[..] == result;
  }

  /** The foreign keys that are set. */
  method CollectKeys(models: array<Item>, fk: string) returns (ids: seq<int>)
    ensures forall i :: 0 <= i < models.Length && Key(models[i], fk).Some? ==> Key(models[i], fk).value in ids
  {
    ids := [];
    for i := 0 to models.Length
      invariant forall j :: 0 <= j < i && Key(models[j], fk).Some? ==> Key(models[j], fk).value in ids
    {
      var id := Key(models[i], fk);
      if id.Some? { ids := ids + [id.value]; }
    }
  }

  lemma NoKeys(db: Db, f: nat, table: string, fk: string, ms: seq<Item>)
    requires forall i :: 0 <= i < |ms| ==> Key(ms[i], fk).None?
    ensures LoadEach(db, f, BelongsTo(table, fk), ms) == ms
  {
  }

  method LoadBelongsTo(db: Db, models: array<Item>, f: nat, table: string, fk: string)
    modifies models
    ensures models[..] == BatchStep(db, f, BelongsTo(table, fk), old(models[..]))
  {
    ghost var result := LoadEach(db, f, BelongsTo(table, fk), models[..]);
    var ids := CollectKeys(models, fk);
    if ids == [] {
      NoKeys(db, f, table, fk, models[..]);
      return;
    }
    var byID := QueryIndexed(Rows(db, table), "id", ids);
    for i := 0 to models.Length
      invariant forall j :: 0 <= j < i ==> models[j] == result[j]
      invariant forall j :: i <= j < models.Length ==> models[j] == old(models[j])
    {
      PutEntryLoads(db, f, table, fk, models[i], byID);
      models[i] := PutEntry(models[i], f, byID, Key(models[i], fk));
    }
    assert models[..] == result;
  }

  predicate Covers(related: seq<int>, pairs: seq<(int, int)>) { forall i :: 0 <= i < |pairs| ==> pairs[i].1 in related }

  /** The related ids of the pivot rows, each once. */
  method DistinctRelated(pairs: seq<(int, int)>) returns (relatedIDs: seq<int>)
    ensures Covers(relatedIDs, pairs)
    ensures forall i, j :: 0 <= i < j < |relatedIDs| ==> relatedIDs[i] != relatedIDs[j]
    ensures relatedIDs == [] <==> pairs == []
  {
    relatedIDs := [];
    var seen: set<int> := {};
    for i := 0 to |pairs|
      invariant forall j :: 0 <= j < i ==> pairs[j].1 in relatedIDs
      invariant seen == set x | x in relatedIDs
      invariant forall j, k :: 0 <= j < k < |relatedIDs| ==> relatedIDs[j] != relatedIDs[k]
      invariant relatedIDs == [] <==> i == 0
    {
      if pairs[i].1 !in seen {
        seen := seen + {pairs[i].1};
        relatedIDs := relatedIDs + [pairs[i].1];
      }
    }
  }

  lemma JoinSnoc(pairs: seq<(int, int)>, i: nat, rows: seq<Item>, k: int)
    requires i < |pairs|
    ensures Join(pairs[..i + 1], rows, k) == Join(pairs[..i], rows, k) + if pairs[i].0 == k then LastHaving(rows, "id", pairs[i].1) else []
  {
    assert pairs[..i + 1][..i] == pairs[..i];
  }

  method GroupPairs(pairs: seq<(int, int)>, items: seq<Item>) returns (grouped: map<int, seq<Item>>)
    ensures forall k :: Lookup(grouped, k) == Join(pairs, items, k)
  {
    var byID := IndexBy(items, "id");
    grouped := map[];
    assert pairs[..0] == [];
    for i := 0 to |pairs|
      invariant forall k :: Lookup(grouped, k) == Join(pairs[..i], items, k)
    {
      var p := pairs[i];
      ghost var before := grouped;
      if p.1 in byID { grouped := grouped[p.0 := Lookup(grouped, p.0) + [byID[p.1]]]; }
      forall k
        ensures Lookup(grouped, k) == Join(pairs[..i + 1], items, k)
      {
        assert Lookup(before, k) == Join(pairs[..i], items, k);
        assert Lookup(grouped, k) == Lookup(before, k) + if p.0 == k then Entry(byID, p.1) else [];
        JoinSnoc(pairs, i, items, k);
      }
    }
    assert pairs[..|pairs|] == pairs;
  }

  /** The two queries of belongsToMany and their join, for the models with the given ids. */
  method QueryJoined(pairs: seq<(int, int)>, rows: seq<Item>, ids: seq<int>) returns (any: bool, grouped: map<int, seq<Item>>)
    ensures any <==> SelectPairs(pairs, ids) != []
    ensures any ==> forall k :: k in ids ==> Lookup(grouped, k) == Join(pairs, rows, k)
  {
    var selected := SelectPairs(pairs, ids);
    var relatedIDs := DistinctRelated(selected);
    if relatedIDs == [] { return false, map[]; }
    any := true;
    grouped := GroupPairs(selected, SelectIn(rows, "id", relatedIDs));
    forall k | k in ids
      ensures Lookup(grouped, k) == Join(pairs, rows, k)
    {
      JoinSelected(pairs, rows, ids, relatedIDs, k);
    }
  }

  method LoadBelongsToMany(db: Db, models: array<Item>, f: nat, pivot: string, table: string)
    modifies models
    ensures models[..] == BatchStep(db, f, BelongsToMany(pivot, table), old(models[..]))
  {
    var ids := CollectIds(models);
    PairsOfBatch(Pivot(db, pivot), models[..]);
    var any, grouped := QueryJoined(Pivot(db, pivot), Rows(db, table), ids);
    if !any { return; }
    FillLists(models, f, grouped);
    JoinEachIs(db, f, pivot, table, old(models[..]), models[..], grouped);
  }

  lemma JoinEachIs(db: Db, f: nat, pivot: string, table: string, before: seq<Item>, after: seq<Item>, grouped: map<int, seq<Item>>)
    requires |after| == |before| && forall i :: 0 <= i < |before| ==> after[i] == Put(before[i], f, Lookup(grouped, before[i].id))
    requires forall k :: k in Ids(before) ==> Lookup(grouped, k) == Join(Pivot(db, pivot), Rows(db, table), k)
    ensures after == JoinEach(db, f, pivot, table, before)
  {
    forall i | 0 <= i < |before|
      ensures after[i] == JoinEach(db, f, pivot, table, before)[i]
    {
      assert Ids(before)[i] == before[i].id;
    }
  }

  /** There are pivot rows for a batch exactly if some model is linked. */
  lemma PairsOfBatch(pairs: seq<(int, int)>, ms: seq<Item>)
    ensures SelectPairs(pairs, Ids(ms)) != [] <==> AnyLinked(pairs, ms)
  {
    PairsSelected(pairs, Ids(ms));
    if i :| 0 <= i < |ms| && Linked(pairs, ms[i].id) {
      var j :| 0 <= j < |pairs| && pairs[j].0 == ms[i].id;
      assert pairs[j].0 == Ids(ms)[i];
    }
    if j :| 0 <= j < |pairs| && pairs[j].0 in Ids(ms) {
      var i :| 0 <= i < |ms| && Ids(ms)[i] == pairs[j].0;
      assert Linked(pairs, ms[i].id);
    }
  }

  lemma {:induction false} PairsSelected(pairs: seq<(int, int)>, ids: seq<int>)
    ensures SelectPairs(pairs, ids) != [] <==> exists j :: 0 <= j < |pairs| && pairs[j].0 in ids
  {
    if pairs != [] { PairsSelected(pairs[..|pairs| - 1], ids); }
  }

  /** The two queries bring all that the join of one model of the batch needs. */
  lemma {:induction false} JoinSelected(pairs: seq<(int, int)>, rows: seq<Item>, ids: seq<int>, related: seq<int>, k: int)
    requires k in ids
    requires Covers(related, SelectPairs(pairs, ids))
    ensures Join(SelectPairs(pairs, ids), SelectIn(rows, "id", related), k) == Join(pairs, rows, k)
  {
    if pairs != [] {
      var n := |pairs| - 1;
      var before, sel := SelectPairs(pairs[..n], ids), SelectPairs(pairs, ids);
      assert sel[..|before|] == before;
      JoinSelected(pairs[..n], rows, ids, related, k);
      if pairs[n].0 in ids {
        assert sel[..|before|] == before && sel[|before|] == pairs[n];
        HavingSelected(rows, "id", related, pairs[n].1);
      } else {
        assert sel == before;
      }
    }
  }

  method EagerLoad(db: Db, models: array<Item>, s: Step) returns (ok: bool)
    modifies models
    ensures ok == s.rel.Some?
    ensures models[..] == if ok then BatchStep(db, s.field, s.rel.value, old(models[..])) else old(models[..])
  {
    if s.rel.None? { return false; }
    ok := true;
    match s.rel.value
    case HasMany(table, fk) => LoadHasMany(db, models, s.field, table, fk);
    case HasOne(table, fk) => LoadHasOne(db, models, s.field, table, fk);
    case BelongsTo(table, fk) => LoadBelongsTo(db, models, s.field, table, fk);
    case BelongsToMany(pivot, table) => LoadBelongsToMany(db, models, s.field, pivot, table);
  }

  lemma {:induction false} ChildrenSnoc(f: nat, ms: seq<Item>, m: Item)
    ensures Children(f, ms + [m]) == Children(f, ms) + Related(m, f)
  {
    if ms == [] {
      assert ms + [m] == [m] && Children(f, []) == [];
    } else {
      assert (ms + [m])[0] == ms[0] && (ms + [m])[1..] == ms[1..] + [m];
      ChildrenSnoc(f, ms[1..], m);
    }
  }

  /** childPointers; the pointers are modelled by a copy that is written back. */
  method ChildPointers(models: array<Item>, f: nat) returns (out: array<Item>)
    ensures fresh(out) && out[..] == Children(f, models[..])
  {
    var children: seq<Item> := [];
    for i := 0 to models.Length
      invariant children == Children(f, models[..i])
    {
      assert models[..i + 1] == models[..i] + [models[i]];
      ChildrenSnoc(f, models[..i], models[i]);
      children := children + Related(models[i], f);
    }
    assert models[..models.Length] == models[..];
    out := new Item[|children|](i requires 0 <= i < |children| => children[i]);
  }

  lemma SliceShift(cs: seq<Item>, own: nat, at: nat, n: nat)
    requires own + at + n <= |cs|
    ensures cs[own..][at..at + n] == cs[own + at..own + at + n]
  {
  }

  /** Each model takes the children that follow those of the models before it. */
  lemma {:induction false} SpreadNth(f: nat, ms: seq<Item>, cs: seq<Item>, i: nat)
    requires |cs| == |Children(f, ms)| && i < |ms|
    ensures
      var at, n := |Children(f, ms[..i])|, |Related(ms[i], f)|;
      at + n <= |cs| && Spread(f, ms, cs)[i] == Put(ms[i], f, cs[at..at + n])
    decreases |ms|
  {
    var own := |Related(ms[0], f)|;
    if i == 0 {
      assert ms[..0] == [];
    } else {
      SpreadNth(f, ms[1..], cs[own..], i - 1);
      assert ms[..i][0] == ms[0] && ms[..i][1..] == ms[1..][..i - 1];
      var at, n := |Children(f, ms[1..][..i - 1])|, |Related(ms[i], f)|;
      SliceShift(cs, own, at, n);
    }
  }

  /** Where the children of the first i models end. */
  ghost function Taken(f: nat, ms: seq<Item>, i: nat): nat
    requires i <= |ms|
  {
    |Children(f, ms[..i])|
  }

  lemma NextSlot(f: nat, ms: seq<Item>, cs: seq<Item>, i: nat, m: Item, at: nat)
    requires |cs| == |Children(f, ms)| && i < |ms| && m == ms[i] && at == Taken(f, ms, i)
    ensures
      var next := at + |Related(m, f)|;
      next == Taken(f, ms, i + 1) && next <= |cs| && Spread(f, ms, cs)[i] == Put(m, f, cs[at..next])
  {
    SpreadNth(f, ms, cs, i);
    ChildrenSnoc(f, ms[..i], ms[i]);
    assert ms[..i + 1] == ms[..i] + [ms[i]];
  }

  method WriteBack(models: array<Item>, f: nat, children: seq<Item>)
    requires |children| == |Children(f, models[..])|
    modifies models
    ensures models[..] == Spread(f, old(models[..]), children)
  {
    var at := 0;
    ghost var ms := models[..];
    ghost var result := Spread(f, ms, children);
    for i := 0 to models.Length
      invariant at == Taken(f, ms, i)
      invariant forall j :: 0 <= j < i ==> models[j] == result[j]
      invariant forall j :: i <= j < models.Length ==> models[j] == ms[j]
    {
      var m := models[i];
      NextSlot(f, ms, children, i, m, at);
      var next := at + |Related(m, f)|;
      models[i] := Put(m, f, children[at..next]);
      at := next;
    }
    assert models[..] == result;
  }

  /** withPath: the batch, level by level. */
  method WithPath(db: Db, models: array<Item>, path: seq<Step>) returns (ok: bool)
    modifies models
    ensures models[..] == Batch(db, path, old(models[..]))
    ensures ok == !BatchFails(db, path, old(models[..]))
    decreases |path|
  {
    if models.Length == 0 || path == [] { return true; }
    ok := EagerLoad(db, models, path[0]);
    if !ok { return; }
    var children := ChildPointers(models, path[0].field);
    ok := WithPath(db, children, path[1..]);
    WriteBack(models, path[0].field, children[..]);
  }
}
