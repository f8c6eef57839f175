/**
 The migration ledger (database/migration/migrator.go).

 The schema is an arbitrary state; Up and Down scripts are partial functions on it
 (None: the script fails and, being run in a transaction, changes nothing). The
 ledger is the table of (name, batch) rows. `inForce` is history: the migrations
 whose Up has run and whose Down has not run since, in order of execution.
 `budget` is the number of further scripts the database accepts before an outage.
 */
module Migrations {
  import opened Wrappers
  import opened Sorting

  datatype Migration<!S> = Migration(name: string, up: S -> Option<S>, down: S -> Option<S>)

  datatype Row = Row(name: string, batch: int)

  datatype World<!S> = World(
    schema: S, rows: seq<Row>, registered: seq<Migration<S>>, inForce: seq<Migration<S>>, budget: nat)

  predicate RowLess(a: Row, b: Row) {
    a.batch < b.batch || (a.batch == b.batch && Less(a.name, b.name))
  }

  predicate ByName<S>(a: Migration<S>, b: Migration<S>) { Less(a.name, b.name) }

  // ------------------------------------------------------------ ledger queries

  function Names(rows: seq<Row>): set<string> { set r | r in rows :: r.name }

  /** SELECT MAX(batch), with 0 for an empty table. */
  function LastBatch(rows: seq<Row>): int {
    if rows == [] then 0
    else if |rows| == 1 then rows[0].batch
    else
      var rest := LastBatch(rows[1..]);
      if rest < rows[0].batch then rows[0].batch else rest
  }

  function NamesIn(rows: seq<Row>, batch: int): seq<string> {
    if rows == [] then []
    else (if rows[0].batch == batch then [rows[0].name] else []) + NamesIn(rows[1..], batch)
  }

  /** SELECT migration WHERE batch = ? ORDER BY migration. */
  function BatchMigrations(rows: seq<Row>, batch: int): seq<string> { Sort(Less, NamesIn(rows, batch)) }

  /** The elements of s whose key is not `name`. */
  function Without<T>(s: seq<T>, key: T -> string, name: string): seq<T> {
    if s == [] then []
    else (if key(s[0]) == name then [] else [s[0]]) + Without(s[1..], key, name)
  }

  /** DELETE WHERE migration = ?. */
  function RemoveRow(rows: seq<Row>, name: string): seq<Row> { Without(rows, (r: Row) => r.name, name) }

  function Forget<S>(ms: seq<Migration<S>>, name: string): seq<Migration<S>> {
    Without(ms, (m: Migration<S>) => m.name, name)
  }

  /** The code's migMap: a later registration of a name replaces an earlier one. */
  function Lookup<S>(ms: seq<Migration<S>>, name: string): Option<Migration<S>> {
    if ms == [] then None
    else if ms[|ms| - 1].name == name then Some(ms[|ms| - 1])
    else Lookup(ms[..|ms| - 1], name)
  }

  // ------------------------------------------------------------ operations on values

  /** The loop of Migrate over the migrations still to be considered. */
  function RunUps<S>(w: World<S>, ms: seq<Migration<S>>, ran: set<string>, batch: int): (World<S>, bool)
    decreases |ms|
  {
    if ms == [] then (w, true)
    else if ms[0].name in ran then RunUps(w, ms[1..], ran, batch)
    else if w.budget == 0 || ms[0].up(w.schema).None? then (w, false)
    else RunUps(AfterUp(w, ms[0], batch), ms[1..], ran, batch)
  }

  function AfterUp<S>(w: World<S>, m: Migration<S>, batch: int): World<S>
    requires w.budget > 0 && m.up(w.schema).Some?
  {
    w.(schema := m.up(w.schema).value, rows := w.rows + [Row(m.name, batch)],
       inForce := w.inForce + [m], budget := w.budget - 1)
  }

  function AfterMigrate<S>(w: World<S>): (World<S>, bool) {
    var sorted := Sort(ByName, w.registered);
    RunUps(w.(registered := sorted), sorted, Names(w.rows), LastBatch(w.rows) + 1)
  }

  /** The loop of Rollback, from the last name to the first. */
  function RunDowns<S>(w: World<S>, names: seq<string>): (World<S>, bool)
    decreases |names|
  {
    if names == [] then (w, true)
    else
      var name, rest := names[|names| - 1], names[..|names| - 1];
      var m := Lookup(w.registered, name);
      if m.None? then RunDowns(w, rest)
      else if w.budget == 0 || m.value.down(w.schema).None? then (w, false)
      else RunDowns(AfterDown(w, m.value, name), rest)
  }

  function AfterDown<S>(w: World<S>, m: Migration<S>, name: string): World<S>
    requires w.budget > 0 && m.down(w.schema).Some?
  {
    w.(schema := m.down(w.schema).value, rows := RemoveRow(w.rows, name),
       inForce := Forget(w.inForce, name), budget := w.budget - 1)
  }

  function AfterRollback<S>(w: World<S>): (World<S>, bool) {
    var batch := LastBatch(w.rows);
    if batch == 0 then (w, true) else RunDowns(w, BatchMigrations(w.rows, batch))
  }

  // ------------------------------------------------------------ the ledger invariant

  ghost predicate DistinctNames<S>(ms: seq<Migration<S>>) {
    forall i, j :: 0 <= i < j < |ms| ==> ms[i].name != ms[j].name
  }

  /** The ledger lists the migrations in force, in the order of execution,
      and that order is the (batch, name) order. */
  ghost predicate Agrees<S>(w: World<S>) {
    && |w.rows| == |w.inForce|
    && (forall i :: 0 <= i < |w.rows| ==> w.rows[i].name == w.inForce[i].name && w.rows[i].batch >= 1)
    && Sorted(RowLess, w.rows)
    && DistinctNames(w.inForce)
  }

  lemma {:induction false} LastBatchIsMax(rows: seq<Row>)
    requires rows != []
    ensures forall r :: r in rows ==> r.batch <= LastBatch(rows)
    ensures exists r :: r in rows && r.batch == LastBatch(rows)
  {
    if |rows| == 1 {
      assert rows[0] in rows;
    } else {
      LastBatchIsMax(rows[1..]);
      assert rows == [rows[0]] + rows[1..];
      assert rows[0] in rows;
      var r :| r in rows[1..] && r.batch == LastBatch(rows[1..]);
      assert r in rows;
    }
  }

  lemma {:induction false} LastBatchOfSorted(rows: seq<Row>)
    requires rows != [] && Sorted(RowLess, rows)
    ensures LastBatch(rows) == rows[|rows| - 1].batch
  {
    if |rows| > 1 {
      LastBatchOfSorted(rows[1..]);
      assert RowLess(rows[0], rows[|rows| - 1]);
    }
  }

  /** sort.Slice puts distinctly named migrations in strict name order. */
  lemma RegisteredSorted<S>(ms: seq<Migration<S>>)
    requires DistinctNames(ms)
    ensures Sorted(ByName, Sort(ByName, ms))
    ensures forall m :: m in ms <==> m in Sort(ByName, ms)
    ensures DistinctNames(Sort(ByName, ms))
  {
    forall x, y, z | x in ms && y in ms && z in ms && ByName(x, y) && ByName(y, z) ensures ByName(x, z) {
      LessTransitive(x.name, y.name, z.name);
    }
    forall i, j | 0 <= i < j < |ms| ensures ByName(ms[i], ms[j]) || ByName(ms[j], ms[i]) {
      LessTotal(ms[i].name, ms[j].name);
    }
    SortSorts(ByName, ms);
    SortPermutes(ByName, ms);
    forall m ensures m in ms <==> m in Sort(ByName, ms) { SameElements(ms, Sort(ByName, ms), m); }
    SortedByNameDistinct(Sort(ByName, ms));
  }

  lemma SortedByNameDistinct<S>(ms: seq<Migration<S>>)
    requires Sorted(ByName, ms)
    ensures DistinctNames(ms)
  {
    forall i, j | 0 <= i < j < |ms| ensures ms[i].name != ms[j].name {
      assert ByName(ms[i], ms[j]);
      LessIrreflexive(ms[i].name);
    }
  }

  /** What the Migrate loop needs of the world: the new rows go at the end. */
  ghost predicate Appendable<S>(w: World<S>, ms: seq<Migration<S>>, ran: set<string>, batch: int) {
    && batch >= 1
    && (forall i :: 0 <= i < |w.rows| ==> w.rows[i].batch <= batch)
    && (forall i, k :: 0 <= i < |w.rows| && 0 <= k < |ms| && w.rows[i].batch == batch ==> Less(w.rows[i].name, ms[k].name))
    && (forall i, k :: 0 <= i < |w.rows| && 0 <= k < |ms| && ms[k].name !in ran ==> w.rows[i].name != ms[k].name)
  }

  lemma AfterUpAgrees<S>(w: World<S>, ms: seq<Migration<S>>, ran: set<string>, batch: int)
    requires Agrees(w) && ms != [] && Sorted(ByName, ms) && Appendable(w, ms, ran, batch)
    requires ms[0].name !in ran && w.budget > 0 && ms[0].up(w.schema).Some?
    ensures Agrees(AfterUp(w, ms[0], batch)) && Appendable(AfterUp(w, ms[0], batch), ms[1..], ran, batch)
  {
    var v := AfterUp(w, ms[0], batch);
    SortedByNameDistinct(ms);
    forall k | 0 <= k < |ms[1..]| ensures Less(ms[0].name, ms[1..][k].name) && ms[0].name != ms[1..][k].name {
      assert ByName(ms[0], ms[k + 1]);
    }
    forall i, j | 0 <= i < j < |v.inForce| ensures v.inForce[i].name != v.inForce[j].name {
      assert w.rows[i].name == w.inForce[i].name;
    }
  }

  lemma {:induction false} RunUpsAgrees<S>(w: World<S>, ms: seq<Migration<S>>, ran: set<string>, batch: int)
    requires Agrees(w) && Sorted(ByName, ms) && Appendable(w, ms, ran, batch)
    ensures Agrees(RunUps(w, ms, ran, batch).0)
    ensures RunUps(w, ms, ran, batch).0.registered == w.registered
    decreases |ms|
  {
    if ms != [] {
      if ms[0].name in ran {
        RunUpsAgrees(w, ms[1..], ran, batch);
      } else if w.budget > 0 && ms[0].up(w.schema).Some? {
        AfterUpAgrees(w, ms, ran, batch);
        RunUpsAgrees(AfterUp(w, ms[0], batch), ms[1..], ran, batch);
      }
    }
  }

  lemma MigrateAgrees<S>(w: World<S>)
    requires Agrees(w) && DistinctNames(w.registered)
    ensures Agrees(AfterMigrate(w).0)
    ensures AfterMigrate(w).0.registered == Sort(ByName, w.registered)
  {
    RegisteredSorted(w.registered);
    if w.rows != [] { LastBatchIsMax(w.rows); }
    var sorted := Sort(ByName, w.registered);
    forall i, k | 0 <= i < |w.rows| && 0 <= k < |sorted| && sorted[k].name !in Names(w.rows)
      ensures w.rows[i].name != sorted[k].name
    {
      assert w.rows[i] in w.rows;
    }
    RunUpsAgrees(w.(registered := sorted), sorted, Names(w.rows), LastBatch(w.rows) + 1);
  }

  lemma {:induction false} WithoutNone<T>(s: seq<T>, key: T -> string, name: string)
    requires forall i :: 0 <= i < |s| ==> key(s[i]) != name
    ensures Without(s, key, name) == s
  {
    if s != [] {
      WithoutNone(s[1..], key, name);
      assert s == [s[0]] + s[1..];
    }
  }

  lemma {:induction false} WithoutOne<T>(s: seq<T>, key: T -> string, name: string, k: nat)
    requires k < |s| && key(s[k]) == name
    requires forall i :: 0 <= i < |s| && i != k ==> key(s[i]) != name
    ensures Without(s, key, name) == s[..k] + s[k + 1..]
  {
    if k == 0 {
      WithoutNone(s[1..], key, name);
    } else {
      WithoutOne(s[1..], key, name, k - 1);
      assert s[1..][..k - 1] == s[1..k] && s[1..][k..] == s[k + 1..];
      assert s[..k] == [s[0]] + s[1..k];
    }
  }

  lemma {:induction false} WithoutMembers<T>(s: seq<T>, key: T -> string, name: string)
    ensures forall x :: x in Without(s, key, name) <==> x in s && key(x) != name
  {
    if s != [] {
      WithoutMembers(s[1..], key, name);
      assert s == [s[0]] + s[1..];
    }
  }

  /** With distinct names the row at k goes, and the matching history entry goes with it. */
  lemma RemoveTogether<S>(w: World<S>, name: string, k: nat)
    requires Agrees(w) && k < |w.rows| && w.rows[k].name == name
    ensures RemoveRow(w.rows, name) == w.rows[..k] + w.rows[k + 1..]
    ensures Forget(w.inForce, name) == w.inForce[..k] + w.inForce[k + 1..]
  {
    forall i | 0 <= i < |w.rows| && i != k ensures w.rows[i].name != name && w.inForce[i].name != name {
      assert w.inForce[i].name != w.inForce[k].name;
    }
    WithoutOne(w.rows, (r: Row) => r.name, name, k);
    WithoutOne(w.inForce, (m: Migration<S>) => m.name, name, k);
  }

  lemma SortedWithout(rows: seq<Row>, k: nat)
    requires k < |rows| && Sorted(RowLess, rows)
    ensures Sorted(RowLess, rows[..k] + rows[k + 1..])
  {
  }

  lemma DistinctWithout<S>(ms: seq<Migration<S>>, k: nat)
    requires k < |ms| && DistinctNames(ms)
    ensures DistinctNames(ms[..k] + ms[k + 1..])
  {
  }

  lemma AfterDownAgrees<S>(w: World<S>, m: Migration<S>, name: string)
    requires Agrees(w) && w.budget > 0 && m.down(w.schema).Some? && name in Names(w.rows)
    ensures Agrees(AfterDown(w, m, name))
    ensures |AfterDown(w, m, name).rows| == |w.rows| - 1
    ensures forall r :: r in w.rows && r.name != name ==> r in AfterDown(w, m, name).rows
    ensures forall r :: r in AfterDown(w, m, name).rows ==> r in w.rows && r.name != name
  {
    WithoutMembers(w.rows, (r: Row) => r.name, name);
    var k :| 0 <= k < |w.rows| && w.rows[k].name == name;
    RemoveTogether(w, name, k);
    AgreesWithout(w, AfterDown(w, m, name), k);
  }

  lemma AgreesWithout<S>(w: World<S>, v: World<S>, k: nat)
    requires Agrees(w) && k < |w.rows|
    requires v.rows == w.rows[..k] + w.rows[k + 1..] && v.inForce == w.inForce[..k] + w.inForce[k + 1..]
    ensures Agrees(v)
  {
    SortedWithout(w.rows, k);
    DistinctWithout(w.inForce, k);
  }

  /** The names are distinct and all recorded. */
  ghost predicate Recorded(names: seq<string>, rows: seq<Row>) {
    && (forall i :: 0 <= i < |names| ==> names[i] in Names(rows))
    && (forall i, j :: 0 <= i < j < |names| ==> names[i] != names[j])
  }

  lemma DownStep<S>(w: World<S>, m: Migration<S>, names: seq<string>)
    requires Agrees(w) && names != [] && Recorded(names, w.rows) && w.budget > 0 && m.down(w.schema).Some?
    ensures
      var v := AfterDown(w, m, names[|names| - 1]);
      Agrees(v) && Recorded(names[..|names| - 1], v.rows) && |v.rows| == |w.rows| - 1
  {
    var name, rest := names[|names| - 1], names[..|names| - 1];
    assert name in Names(w.rows);
    AfterDownAgrees(w, m, name);
    var v := AfterDown(w, m, name);
    forall i | 0 <= i < |rest| ensures rest[i] in Names(v.rows) {
      assert rest[i] == names[i] && names[i] in Names(w.rows);
      var r :| r in w.rows && r.name == names[i];
      assert r in v.rows;
    }
  }

  /** Whether or not every name is found in code, Rollback keeps the ledger in execution
      order; rows of names not found in code stay. */
  lemma {:induction false} RunDownsAgrees<S>(w: World<S>, names: seq<string>)
    requires Agrees(w) && Recorded(names, w.rows)
    ensures
      var (v, ok) := RunDowns(w, names);
      && Agrees(v) && v.registered == w.registered && |v.rows| <= |w.rows|
      && (forall r :: r in v.rows ==> r in w.rows)
      && (forall r :: r in w.rows && Lookup(w.registered, r.name).None? ==> r in v.rows)
    decreases |names|
  {
    if names != [] {
      var name, rest := names[|names| - 1], names[..|names| - 1];
      var m := Lookup(w.registered, name);
      if m.None? {
        RunDownsAgrees(w, rest);
      } else if w.budget > 0 && m.value.down(w.schema).Some? {
        DownStep(w, m.value, names);
        WithoutMembers(w.rows, (r: Row) => r.name, name);
        RunDownsAgrees(AfterDown(w, m.value, name), rest);
      }
    }
  }

  // ------------------------------------------------------------ the last batch is the top of the stack

  function RowNames(rows: seq<Row>): seq<string> { seq(|rows|, i requires 0 <= i < |rows| => rows[i].name) }

  /** Where the rows of the given batch begin. */
  function Cut(rows: seq<Row>, batch: int): (k: nat)
    ensures k <= |rows|
  {
    if rows == [] || rows[0].batch == batch then 0 else 1 + Cut(rows[1..], batch)
  }

  lemma {:induction false} BatchIsSuffix(rows: seq<Row>, batch: int)
    requires Sorted(RowLess, rows)
    requires forall r :: r in rows ==> r.batch <= batch
    ensures NamesIn(rows, batch) == RowNames(rows[Cut(rows, batch)..])
    ensures forall i :: Cut(rows, batch) <= i < |rows| ==> rows[i].batch == batch
  {
    if rows != [] {
      BatchIsSuffix(rows[1..], batch);
      if rows[0].batch == batch {
        forall i | 0 <= i < |rows| ensures rows[i].batch == batch {
          assert rows[i] in rows;
          assert i > 0 ==> RowLess(rows[0], rows[i]);
        }
        CutOfOneBatch(rows[1..], batch);
        assert RowNames(rows) == [rows[0].name] + RowNames(rows[1..]);
        assert rows[0..] == rows && rows[1..][0..] == rows[1..];
      } else {
        assert rows[1..][Cut(rows[1..], batch)..] == rows[Cut(rows, batch)..];
        forall i | Cut(rows, batch) <= i < |rows| ensures rows[i].batch == batch {
          assert rows[i] == rows[1..][i - 1];
        }
      }
    }
  }

  lemma CutOfOneBatch(rows: seq<Row>, batch: int)
    requires forall i :: 0 <= i < |rows| ==> rows[i].batch == batch
    ensures Cut(rows, batch) == 0
  {
  }

  /** The names Rollback reads are those of the youngest rows, oldest of them first. */
  lemma RollbackNames<S>(w: World<S>)
    requires Agrees(w) && w.rows != []
    ensures LastBatch(w.rows) >= 1
    ensures
      var cut := Cut(w.rows, LastBatch(w.rows));
      cut < |w.rows| && BatchMigrations(w.rows, LastBatch(w.rows)) == RowNames(w.rows[cut..])
    ensures Recorded(BatchMigrations(w.rows, LastBatch(w.rows)), w.rows) && Sorted(Less, BatchMigrations(w.rows, LastBatch(w.rows)))
  {
    var batch := LastBatch(w.rows);
    var cut := Cut(w.rows, batch);
    LastBatchIsMax(w.rows);
    LastBatchOfSorted(w.rows);
    BatchIsSuffix(w.rows, batch);
    CutBelow(w.rows, batch);
    var names := RowNames(w.rows[cut..]);
    forall i, j | 0 <= i < j < |names| ensures Less(names[i], names[j]) && names[i] != names[j] {
      assert RowLess(w.rows[cut + i], w.rows[cut + j]);
      assert w.inForce[cut + i].name != w.inForce[cut + j].name;
    }
    SortOfSorted(Less, names);
    forall i | 0 <= i < |names| ensures names[i] in Names(w.rows) {
      assert w.rows[cut + i] in w.rows;
    }
  }

  lemma {:induction false} CutBelow(rows: seq<Row>, batch: int)
    requires rows != [] && rows[|rows| - 1].batch == batch
    ensures Cut(rows, batch) < |rows|
  {
    if rows[0].batch != batch {
      assert rows[1..][|rows| - 2] == rows[|rows| - 1];
      CutBelow(rows[1..], batch);
    }
  }

  lemma RollbackAgrees<S>(w: World<S>)
    requires Agrees(w)
    ensures
      var (v, ok) := AfterRollback(w);
      && Agrees(v) && v.registered == w.registered && |v.rows| <= |w.rows|
      && (forall r :: r in v.rows ==> r in w.rows)
      && (forall r :: r in w.rows && Lookup(w.registered, r.name).None? ==> r in v.rows)
  {
    if w.rows != [] {
      RollbackNames(w);
      RunDownsAgrees(w, BatchMigrations(w.rows, LastBatch(w.rows)));
    }
  }

  // ------------------------------------------------------------ every run keeps the order

  datatype Op<!S> = Add(m: Migration<S>) | Redeploy | DoMigrate | DoRollback | Reconnect(budget: nat)

  function Step<S>(w: World<S>, op: Op<S>): World<S> {
    match op
    case Add(m) => w.(registered := w.registered + [m])
    case Redeploy => w.(registered := [])
    case DoMigrate => AfterMigrate(w).0
    case DoRollback => AfterRollback(w).0
    case Reconnect(budget) => w.(budget := budget)
  }

  function Run<S>(w: World<S>, ops: seq<Op<S>>): World<S> {
    if ops == [] then w else Step(Run(w, ops[..|ops| - 1]), ops[|ops| - 1])
  }

  function Start<S>(schema: S): World<S> { World(schema, [], [], [], 0) }

  /** No process registers a name twice. */
  ghost predicate AddsDistinct<S>(w: World<S>, ops: seq<Op<S>>) {
    forall k :: 0 <= k <= |ops| ==> DistinctNames(Run(w, ops[..k]).registered)
  }

  lemma {:induction false} RunAgrees<S>(w: World<S>, ops: seq<Op<S>>)
    requires Agrees(w) && AddsDistinct(w, ops)
    ensures Agrees(Run(w, ops))
  {
    if ops != [] {
      var init := ops[..|ops| - 1];
      forall k | 0 <= k <= |init| ensures DistinctNames(Run(w, init[..k]).registered) {
        assert init[..k] == ops[..k];
      }
      RunAgrees(w, init);
      assert init[..|init|] == init;
      var v := Run(w, init);
      match ops[|ops| - 1]
      case DoMigrate => MigrateAgrees(v);
      case DoRollback => RollbackAgrees(v);
      case _ =>
    }
  }

  /** Over every run, stopped by failing scripts or not, the ledger read in (batch, name)
      order lists exactly the Ups now in force, in the order in which they were executed. */
  lemma LedgerIsExecutionOrder<S>(schema: S, ops: seq<Op<S>>)
    requires AddsDistinct(Start(schema), ops)
    ensures
      var w := Run(Start(schema), ops);
      var sorted := Sort(RowLess, w.rows);
      && |sorted| == |w.inForce|
      && forall i :: 0 <= i < |sorted| ==> sorted[i].name == w.inForce[i].name
  {
    RunAgrees(Start(schema), ops);
    SortOfSorted(RowLess, Run(Start(schema), ops).rows);
  }

  // ------------------------------------------------------------ the schema

  /** Down undoes Up wherever Up succeeds. */
  ghost predicate Inverts<S(!new)>(m: Migration<S>) {
    forall s :: m.up(s).Some? ==> m.down(m.up(s).value) == Some(s)
  }

  /** The schema reached by executing the given Ups in order. */
  function Replay<S>(schema: S, ms: seq<Migration<S>>): Option<S> {
    if ms == [] then Some(schema)
    else
      var before := Replay(schema, ms[..|ms| - 1]);
      if before.None? then None else ms[|ms| - 1].up(before.value)
  }

  /** The schema is what the Ups in force make of the original one. */
  ghost predicate Explained<S>(w: World<S>, schema: S) { Replay(schema, w.inForce) == Some(w.schema) }

  /** The migrations in force from a position on are registered, and each Down inverts its Up. */
  ghost predicate Covered<S(!new)>(w: World<S>, from: nat) {
    forall i :: from <= i < |w.inForce| ==> w.inForce[i] in w.registered && Inverts(w.inForce[i])
  }

  lemma {:induction false} RunUpsExplained<S>(w: World<S>, ms: seq<Migration<S>>, ran: set<string>, batch: int, schema: S)
    requires Explained(w, schema)
    ensures Explained(RunUps(w, ms, ran, batch).0, schema)
    ensures forall m :: m in RunUps(w, ms, ran, batch).0.inForce ==> m in w.inForce || m in ms
    decreases |ms|
  {
    if ms != [] {
      if ms[0].name in ran {
        RunUpsExplained(w, ms[1..], ran, batch, schema);
      } else if w.budget > 0 && ms[0].up(w.schema).Some? {
        var v := AfterUp(w, ms[0], batch);
        assert v.inForce[..|v.inForce| - 1] == w.inForce;
        RunUpsExplained(v, ms[1..], ran, batch, schema);
      }
    }
  }

  lemma {:induction false} LookupFinds<S>(ms: seq<Migration<S>>, m: Migration<S>)
    requires DistinctNames(ms) && m in ms
    ensures Lookup(ms, m.name) == Some(m)
  {
    var last := |ms| - 1;
    if ms[last] != m {
      var i :| 0 <= i < |ms| && ms[i] == m;
      assert ms[..last][i] == m;
      assert ms[i].name != ms[last].name;
      LookupFinds(ms[..last], m);
    }
  }

  /** Undoing the youngest row of a covered world pops one Up off the schema. */
  lemma PopExplained<S(!new)>(w: World<S>, schema: S)
    requires Agrees(w) && Explained(w, schema) && DistinctNames(w.registered)
    requires w.rows != [] && Covered(w, |w.rows| - 1) && w.budget > 0
    ensures
      var k := |w.rows| - 1;
      var name := w.rows[k].name;
      && Lookup(w.registered, name) == Some(w.inForce[k])
      && w.inForce[k].down(w.schema).Some?
      && var v := AfterDown(w, w.inForce[k], name);
         Agrees(v) && Explained(v, schema) && v.rows == w.rows[..k] && v.inForce == w.inForce[..k]
  {
    var k := |w.rows| - 1;
    var m := w.inForce[k];
    LookupFinds(w.registered, m);
    RemoveTogether(w, m.name, k);
    assert w.rows[..k] + w.rows[k + 1..] == w.rows[..k];
    assert w.inForce[..k] + w.inForce[k + 1..] == w.inForce[..k];
    AgreesWithout(w, AfterDown(w, m, m.name), k);
  }

  /** v is w with its youngest rows undone: all those above `cut`, or as many as the budget allows. */
  ghost predicate Popped<S(!new)>(w: World<S>, v: World<S>, ok: bool, cut: nat, schema: S) {
    && Agrees(v) && Explained(v, schema) && Covered(v, cut) && v.registered == w.registered
    && v.rows <= w.rows && v.inForce <= w.inForce
    && v.budget == w.budget - (|w.rows| - |v.rows|)
    && (ok <==> w.budget >= |w.rows| - cut) && (ok ==> |v.rows| == cut)
  }

  lemma NothingToPop<S(!new)>(w: World<S>, schema: S)
    requires Agrees(w) && Explained(w, schema)
    ensures var (v, ok) := RunDowns(w, RowNames(w.rows[|w.rows|..])); Popped(w, v, ok, |w.rows|, schema)
  {
    assert RowNames(w.rows[|w.rows|..]) == [];
  }

  /** Rolling back a covered suffix pops exactly that suffix, as far as the budget goes. */
  lemma {:induction false} RunDownsPops<S(!new)>(w: World<S>, cut: nat, schema: S)
    requires Agrees(w) && Explained(w, schema) && DistinctNames(w.registered)
    requires cut <= |w.rows| && Covered(w, cut)
    ensures var (v, ok) := RunDowns(w, RowNames(w.rows[cut..])); Popped(w, v, ok, cut, schema)
    decreases |w.rows| - cut
  {
    if cut == |w.rows| {
      NothingToPop(w, schema);
    } else {
      var u := PopStep(w, cut, schema);
      if w.budget > 0 {
        CoveredPrefix(w, u, cut);
        RunDownsPops(u, cut, schema);
        var (v, ok) := RunDowns(u, RowNames(u.rows[cut..]));
        PoppedTwice(w, u, v, ok, cut, schema);
      }
    }
  }

  lemma CoveredPrefix<S(!new)>(w: World<S>, u: World<S>, from: nat)
    requires Covered(w, from) && u.inForce <= w.inForce && u.registered == w.registered
    ensures Covered(u, from)
  {
  }

  /** The first round of the loop undoes the youngest row. */
  lemma PopStep<S(!new)>(w: World<S>, cut: nat, schema: S) returns (u: World<S>)
    requires Agrees(w) && Explained(w, schema) && DistinctNames(w.registered)
    requires cut < |w.rows| && Covered(w, |w.rows| - 1)
    ensures w.budget == 0 ==> RunDowns(w, RowNames(w.rows[cut..])) == (w, false)
    ensures w.budget > 0 ==>
      && Agrees(u) && Explained(u, schema) && u.rows == w.rows[..|w.rows| - 1] && u.inForce == w.inForce[..|w.rows| - 1]
      && u.registered == w.registered && u.budget == w.budget - 1
      && RunDowns(w, RowNames(w.rows[cut..])) == RunDowns(u, RowNames(u.rows[cut..]))
  {
    var names, k := RowNames(w.rows[cut..]), |w.rows| - 1;
    var m := w.inForce[k];
    assert names[|names| - 1] == m.name;
    LookupFinds(w.registered, m);
    u := w;
    if w.budget > 0 {
      PopExplained(w, schema);
      u := AfterDown(w, m, m.name);
      assert names[..|names| - 1] == RowNames(u.rows[cut..]);
    }
  }

  lemma PoppedTwice<S(!new)>(w: World<S>, u: World<S>, v: World<S>, ok: bool, cut: nat, schema: S)
    requires Popped(u, v, ok, cut, schema)
    requires |w.rows| > 0 && |w.inForce| > 0 && u.rows == w.rows[..|w.rows| - 1] && u.inForce == w.inForce[..|w.inForce| - 1]
    requires u.registered == w.registered && u.budget == w.budget - 1
    ensures Popped(w, v, ok, cut, schema)
  {
  }

  ghost predicate TopCovered<S(!new)>(w: World<S>) { Covered(w, Cut(w.rows, LastBatch(w.rows))) }

  /** A rollback of a covered batch pops that batch. */
  lemma RollbackPops<S(!new)>(w: World<S>, schema: S)
    requires Agrees(w) && Explained(w, schema) && DistinctNames(w.registered) && TopCovered(w) && w.rows != []
    ensures
      var cut := Cut(w.rows, LastBatch(w.rows));
      var (v, ok) := AfterRollback(w);
      cut < |w.rows| && LastBatch(w.rows) != 0 && Popped(w, v, ok, cut, schema)
  {
    RollbackNames(w);
    RunDownsPops(w, Cut(w.rows, LastBatch(w.rows)), schema);
  }

  /** The number of youngest rows, down to `cut`, that are found in code one after the other. */
  function TopFound<S>(ms: seq<Migration<S>>, rows: seq<Row>, cut: nat): (p: nat)
    requires cut <= |rows|
    ensures p <= |rows| - cut
  {
    if cut == |rows| || Lookup(ms, rows[|rows| - 1].name).None? then 0 else 1 + TopFound(ms, rows[..|rows| - 1], cut)
  }

  /** No row missing from code is younger than one that is undone: the database goes away before
      the first missing row is passed, or there is nothing to undo below it. */
  predicate Orderly<S>(w: World<S>, cut: nat)
    requires cut <= |w.rows|
  {
    var p := TopFound(w.registered, w.rows, cut);
    w.budget <= p || forall i :: cut <= i < |w.rows| - p ==> Lookup(w.registered, w.rows[i].name).None?
  }

  /** What is found in code is what was executed, and its Down inverts its Up. */
  ghost predicate Faithful<S(!new)>(w: World<S>, from: nat) {
    forall i :: from <= i < |w.inForce| && Lookup(w.registered, w.inForce[i].name).Some? ==>
      Lookup(w.registered, w.inForce[i].name) == Some(w.inForce[i]) && Inverts(w.inForce[i])
  }

  lemma {:induction false} NoBudget<S>(w: World<S>, names: seq<string>)
    requires w.budget == 0
    ensures RunDowns(w, names).0 == w
    decreases |names|
  {
    if names != [] { NoBudget(w, names[..|names| - 1]); }
  }

  lemma {:induction false} AllMissing<S>(w: World<S>, names: seq<string>)
    requires forall i :: 0 <= i < |names| ==> Lookup(w.registered, names[i]).None?
    ensures RunDowns(w, names) == (w, true)
    decreases |names|
  {
    if names != [] { AllMissing(w, names[..|names| - 1]); }
  }

  lemma {:induction false} LookupIn<S>(ms: seq<Migration<S>>, name: string)
    ensures Lookup(ms, name).Some? ==> Lookup(ms, name).value in ms && Lookup(ms, name).value.name == name
  {
    if ms != [] { LookupIn(ms[..|ms| - 1], name); }
  }

  /** Popping the youngest row of an orderly batch leaves an orderly batch. */
  lemma OrderlyPop<S(!new)>(w: World<S>, u: World<S>, cut: nat)
    requires Agrees(w) && Faithful(w, cut) && cut < |w.rows| && w.budget > 0 && Lookup(w.registered, w.rows[|w.rows| - 1].name).Some?
    requires u.rows == w.rows[..|w.rows| - 1] && u.inForce == w.inForce[..|w.rows| - 1] && u.registered == w.registered && u.budget == w.budget - 1
    ensures Faithful(u, cut) && (Orderly(u, cut) <==> Orderly(w, cut))
  {
    var p := TopFound(u.registered, u.rows, cut);
    assert TopFound(w.registered, w.rows, cut) == p + 1;
    assert forall i :: cut <= i < |u.rows| - p ==> u.rows[i] == w.rows[i];
  }

  /** An orderly rollback leaves the schema explained. */
  lemma {:induction false} OrderlyExplained<S(!new)>(w: World<S>, cut: nat, schema: S)
    requires Agrees(w) && Explained(w, schema) && DistinctNames(w.registered) && cut <= |w.rows| && Faithful(w, cut) && Orderly(w, cut)
    ensures Explained(RunDowns(w, RowNames(w.rows[cut..])).0, schema)
    decreases |w.rows| - cut
  {
    var names := RowNames(w.rows[cut..]);
    if w.budget == 0 {
      NoBudget(w, names);
    } else if cut == |w.rows| || Lookup(w.registered, w.rows[|w.rows| - 1].name).None? {
      AllMissing(w, names);
    } else {
      LookupIn(w.registered, w.rows[|w.rows| - 1].name);
      var u := PopStep(w, cut, schema);
      OrderlyPop(w, u, cut);
      OrderlyExplained(u, cut, schema);
    }
  }

  /** What a rollback needs of the last batch. */
  ghost predicate TopOrderly<S(!new)>(w: World<S>) {
    var cut := Cut(w.rows, LastBatch(w.rows));
    Faithful(w, cut) && Orderly(w, cut)
  }

  /** Each rollback is orderly. */
  ghost predicate RollbacksOrderly<S(!new)>(w: World<S>, ops: seq<Op<S>>) {
    forall k :: 0 <= k < |ops| ==> (ops[k].DoRollback? ==> TopOrderly(Run(w, ops[..k])))
  }

  lemma StepExplained<S(!new)>(w: World<S>, op: Op<S>, schema: S)
    requires Agrees(w) && Explained(w, schema) && DistinctNames(w.registered)
    requires op.DoRollback? ==> TopOrderly(w)
    ensures Explained(Step(w, op), schema)
  {
    match op
    case DoMigrate =>
      var sorted := Sort(ByName, w.registered);
      RunUpsExplained(w.(registered := sorted), sorted, Names(w.rows), LastBatch(w.rows) + 1, schema);
    case DoRollback =>
      if w.rows != [] {
        RollbackNames(w);
        OrderlyExplained(w, Cut(w.rows, LastBatch(w.rows)), schema);
      }
    case _ =>
  }

  /** Over every run of that kind the schema is what the migrations in force make of the original one. */
  lemma {:induction false} RunExplained<S(!new)>(w: World<S>, ops: seq<Op<S>>, schema: S)
    requires Agrees(w) && Explained(w, schema) && AddsDistinct(w, ops) && RollbacksOrderly(w, ops)
    ensures Agrees(Run(w, ops)) && Explained(Run(w, ops), schema)
  {
    RunAgrees(w, ops);
    if ops != [] {
      var init, last := ops[..|ops| - 1], |ops| - 1;
      forall k | 0 <= k <= |init| ensures init[..k] == ops[..k] {}
      assert AddsDistinct(w, init) by {
        forall k | 0 <= k <= |init| ensures DistinctNames(Run(w, init[..k]).registered) {
          assert init[..k] == ops[..k];
        }
      }
      RunExplained(w, init, schema);
      assert DistinctNames(Run(w, ops[..last]).registered);
      StepExplained(Run(w, init), ops[last], schema);
    }
  }

  // ------------------------------------------------------------ Reset and Fresh

  /** Every recorded name is registered. */
  ghost predicate AllRegistered<S>(w: World<S>) {
    forall r :: r in w.rows ==> Lookup(w.registered, r.name).Some?
  }

  lemma {:induction false} RunDownsShrinks<S>(w: World<S>, names: seq<string>)
    requires Agrees(w) && Recorded(names, w.rows)
    requires forall i :: 0 <= i < |names| ==> Lookup(w.registered, names[i]).Some?
    ensures RunDowns(w, names).1 ==> |RunDowns(w, names).0.rows| == |w.rows| - |names|
    decreases |names|
  {
    if names != [] {
      var name, rest := names[|names| - 1], names[..|names| - 1];
      var m := Lookup(w.registered, name);
      if w.budget > 0 && m.value.down(w.schema).Some? {
        DownStep(w, m.value, names);
        RunDownsShrinks(AfterDown(w, m.value, name), rest);
      }
    }
  }

  lemma RollbackShrinks<S>(w: World<S>)
    requires Agrees(w) && AllRegistered(w) && w.rows != []
    ensures Agrees(AfterRollback(w).0) && AllRegistered(AfterRollback(w).0)
    ensures AfterRollback(w).1 ==> |AfterRollback(w).0.rows| < |w.rows|
  {
    RollbackNames(w);
    RollbackAgrees(w);
    var names := BatchMigrations(w.rows, LastBatch(w.rows));
    forall i | 0 <= i < |names| ensures Lookup(w.registered, names[i]).Some? {
      assert names[i] in Names(w.rows);
    }
    RunDownsShrinks(w, names);
  }

  /** Reset: roll back until no batch is left. It terminates because every round that
      succeeds removes rows. */
  ghost function AfterReset<S>(w: World<S>): (World<S>, bool)
    requires Agrees(w) && AllRegistered(w)
    decreases |w.rows|
  {
    if LastBatch(w.rows) == 0 then (w, true)
    else
      RollbackShrinks(w);
      var (v, ok) := AfterRollback(w);
      if ok then AfterReset(v) else (v, false)
  }

  datatype Ending = Done | Error | Running

  /** Reset cut short after a number of rounds: it has returned nil, or an error, or goes on. */
  function ResetWithin<S>(w: World<S>, rounds: nat): (World<S>, Ending)
    decreases rounds
  {
    if LastBatch(w.rows) == 0 then (w, Done)
    else if rounds == 0 then (w, Running)
    else
      var (v, ok) := AfterRollback(w);
      if ok then ResetWithin(v, rounds - 1) else (v, Error)
  }

  /** A row whose name is not in code survives any number of rounds, so Reset never returns nil. */
  lemma {:induction false} UnregisteredNeverDone<S>(w: World<S>, r: Row, rounds: nat)
    requires Agrees(w) && r in w.rows && Lookup(w.registered, r.name).None?
    ensures var (v, e) := ResetWithin(w, rounds); e != Done && r in v.rows
    decreases rounds
  {
    HasBatch(w);
    if rounds > 0 {
      RollbackAgrees(w);
      var (v, ok) := AfterRollback(w);
      if ok { UnregisteredNeverDone(v, r, rounds - 1); }
    }
  }

  lemma HasBatch<S>(w: World<S>)
    requires Agrees(w)
    ensures LastBatch(w.rows) == 0 <==> w.rows == []
  {
    if w.rows != [] { RollbackNames(w); }
  }

  /** With every recorded name registered, one round for each row is enough. */
  lemma {:induction false} ResetWithinIsReset<S>(w: World<S>, rounds: nat)
    requires Agrees(w) && AllRegistered(w) && |w.rows| <= rounds
    ensures var (v, ok) := AfterReset(w); ResetWithin(w, rounds) == (v, if ok then Done else Error)
    decreases rounds
  {
    HasBatch(w);
    if w.rows != [] {
      RollbackShrinks(w);
      var (v, ok) := AfterRollback(w);
      if ok { ResetWithinIsReset(v, rounds - 1); }
    }
  }

  lemma CoveredRegistered<S(!new)>(w: World<S>)
    requires Agrees(w) && Covered(w, 0) && DistinctNames(w.registered)
    ensures AllRegistered(w)
  {
    forall r | r in w.rows ensures Lookup(w.registered, r.name).Some? {
      var i :| 0 <= i < |w.rows| && w.rows[i] == r;
      LookupFinds(w.registered, w.inForce[i]);
    }
  }

  /** Reset restores the original schema, and fails only if the database goes away. */
  lemma {:induction false} ResetRestores<S(!new)>(w: World<S>, schema: S)
    requires Agrees(w) && Explained(w, schema) && Covered(w, 0) && DistinctNames(w.registered)
    ensures AllRegistered(w)
    ensures
      var (v, ok) := AfterReset(w);
      && v.registered == w.registered
      && (ok <==> w.budget >= |w.rows|)
      && (ok ==> v.schema == schema && v.rows == [] && v.inForce == [] && v.budget == w.budget - |w.rows|)
    decreases |w.rows|
  {
    CoveredRegistered(w);
    if w.rows != [] {
      RollbackPops(w, schema);
      RollbackShrinks(w);
      if AfterRollback(w).1 { ResetRestores(AfterRollback(w).0, schema); }
    }
  }

  lemma FaithfulCovers<S(!new)>(w: World<S>)
    requires Agrees(w) && Faithful(w, 0) && AllRegistered(w)
    ensures Covered(w, 0)
  {
    forall i | 0 <= i < |w.inForce|
      ensures w.inForce[i] in w.registered && Inverts(w.inForce[i])
    {
      assert w.rows[i] in w.rows;
      LookupIn(w.registered, w.inForce[i].name);
    }
  }

  /** Where Downs invert the Ups that were executed, Reset returns nil, and has then restored the
      schema, exactly if every recorded name is registered and the database lasts for one Down
      per row. */
  lemma ResetReturnsNilIff<S(!new)>(w: World<S>, schema: S)
    requires Agrees(w) && Explained(w, schema) && Faithful(w, 0) && DistinctNames(w.registered)
    ensures (exists rounds: nat :: ResetWithin(w, rounds).1 == Done) <==> AllRegistered(w) && w.budget >= |w.rows|
    ensures forall rounds: nat :: ResetWithin(w, rounds).1 == Done ==> ResetWithin(w, rounds).0.schema == schema
  {
    if AllRegistered(w) {
      FaithfulCovers(w);
      ResetRestores(w, schema);
      ResetWithinIsReset(w, |w.rows|);
      forall rounds: nat | ResetWithin(w, rounds).1 == Done
        ensures ResetWithin(w, rounds) == ResetWithin(w, |w.rows|)
      {
        DoneIsStable(w, rounds, |w.rows|);
      }
    } else {
      var r :| r in w.rows && Lookup(w.registered, r.name).None?;
      forall rounds: nat
        ensures ResetWithin(w, rounds).1 != Done
      {
        UnregisteredNeverDone(w, r, rounds);
      }
    }
  }

  lemma {:induction false} DoneIsStable<S>(w: World<S>, a: nat, b: nat)
    requires ResetWithin(w, a).1 == Done && ResetWithin(w, b).1 != Running
    ensures ResetWithin(w, b) == ResetWithin(w, a)
    decreases a
  {
    if LastBatch(w.rows) != 0 { DoneIsStable(AfterRollback(w).0, a - 1, b - 1); }
  }

  /** Reset after any run brings back the schema the run started from. */
  lemma ResetAfterAnyRun<S(!new)>(schema: S, ops: seq<Op<S>>)
    requires AddsDistinct(Start(schema), ops) && RollbacksOrderly(Start(schema), ops)
    requires Covered(Run(Start(schema), ops), 0)
    ensures Agrees(Run(Start(schema), ops)) && AllRegistered(Run(Start(schema), ops))
    ensures
      var w := Run(Start(schema), ops);
      var (v, ok) := AfterReset(w);
      (ok <==> w.budget >= |w.rows|) && (ok ==> v.schema == schema && v.rows == [])
  {
    RunExplained(Start(schema), ops, schema);
    assert ops[..|ops|] == ops;
    ResetRestores(Run(Start(schema), ops), schema);
  }

  ghost function AfterFresh<S>(w: World<S>): (World<S>, bool)
    requires Agrees(w) && AllRegistered(w)
  {
    var (v, ok) := AfterReset(w);
    if ok then AfterMigrate(v) else (v, false)
  }

  /** v has one row of the batch and one Up more for each migration. */
  ghost predicate Appended<S>(w: World<S>, v: World<S>, ms: seq<Migration<S>>, batch: int) {
    && v.inForce == w.inForce + ms
    && |v.rows| == |w.rows| + |ms| && w.rows <= v.rows
    && forall i :: 0 <= i < |ms| ==> v.rows[|w.rows| + i] == Row(ms[i].name, batch)
  }

  lemma AppendedOneMore<S>(w: World<S>, v: World<S>, ms: seq<Migration<S>>, batch: int)
    requires ms != [] && w.budget > 0 && ms[0].up(w.schema).Some? && Appended(AfterUp(w, ms[0], batch), v, ms[1..], batch)
    ensures Appended(w, v, ms, batch)
  {
    var u := AfterUp(w, ms[0], batch);
    assert ms == [ms[0]] + ms[1..];
    forall i | 0 <= i < |ms| ensures v.rows[|w.rows| + i] == Row(ms[i].name, batch) {
      if i == 0 {
        assert u.rows[|w.rows|] == Row(ms[0].name, batch);
      } else {
        assert v.rows[|u.rows| + (i - 1)] == Row(ms[1..][i - 1].name, batch);
      }
    }
  }

  /** Running a whole list of new migrations appends one row and one Up each. */
  lemma {:induction false} RunUpsAll<S>(w: World<S>, ms: seq<Migration<S>>, batch: int)
    ensures RunUps(w, ms, {}, batch).1 ==> Appended(w, RunUps(w, ms, {}, batch).0, ms, batch)
    decreases |ms|
  {
    if ms == [] {
      assert w.inForce + ms == w.inForce;
    } else if w.budget > 0 && ms[0].up(w.schema).Some? {
      var u := AfterUp(w, ms[0], batch);
      RunUpsAll(u, ms[1..], batch);
      if RunUps(u, ms[1..], {}, batch).1 { AppendedOneMore(w, RunUps(u, ms[1..], {}, batch).0, ms, batch); }
    }
  }

  /** Whatever the history, a successful Fresh ends with the schema that the registered
      Ups make of the original one, and with one batch 1 in name order. */
  lemma FreshIsCanonical<S(!new)>(w: World<S>, schema: S)
    requires Agrees(w) && Explained(w, schema) && Covered(w, 0) && DistinctNames(w.registered)
    ensures AllRegistered(w)
    ensures
      var (v, ok) := AfterFresh(w);
      var sorted := Sort(ByName, w.registered);
      ok ==> (
        && Replay(schema, sorted) == Some(v.schema)
        && |v.rows| == |sorted|
        && forall i :: 0 <= i < |sorted| ==> v.rows[i] == Row(sorted[i].name, 1))
  {
    ResetRestores(w, schema);
    var (u, ok) := AfterReset(w);
    if ok {
      var sorted := Sort(ByName, w.registered);
      var u' := u.(registered := sorted);
      assert Names(u.rows) == {};
      RunUpsAll(u', sorted, 1);
      RunUpsExplained(u', sorted, {}, 1, schema);
      assert u'.inForce + sorted == sorted;
    }
  }

  // ------------------------------------------------------------ a skipped Down breaks the schema

  function Tag(name: string): Migration<seq<string>> {
    Migration(name, s => Some(s + [name]), s => if s == [] then None else Some(s[..|s| - 1]))
  }

  lemma TagInverts(name: string)
    ensures Inverts(Tag(name))
  {
    forall s: seq<string> | true ensures Tag(name).down(Tag(name).up(s).value) == Some(s) {
      assert (s + [name])[..|s|] == s;
    }
  }

  /** Migrations that are all tags, on a schema that lists the tags applied. */
  ghost predicate TagWorld(w: World<seq<string>>) {
    && (forall i :: 0 <= i < |w.registered| ==> w.registered[i] == Tag(w.registered[i].name))
    && (forall i :: 0 <= i < |w.inForce| ==> w.inForce[i] == Tag(w.inForce[i].name))
  }

  function NamesOf(ms: seq<Migration<seq<string>>>): (r: seq<string>)
    ensures |r| == |ms| && forall i :: 0 <= i < |ms| ==> r[i] == ms[i].name
  {
    seq(|ms|, i requires 0 <= i < |ms| => ms[i].name)
  }

  lemma {:induction false} TagReplay(ms: seq<Migration<seq<string>>>)
    requires forall i :: 0 <= i < |ms| ==> ms[i] == Tag(ms[i].name)
    ensures Replay([], ms) == Some(NamesOf(ms))
  {
    if ms != [] {
      var n := |ms| - 1;
      TagReplay(ms[..n]);
      assert ms[n] == Tag(ms[n].name);
      assert NamesOf(ms[..n]) + [ms[n].name] == NamesOf(ms);
    }
  }

  /** A tag world is explained from the empty schema exactly if its schema lists its rows. */
  lemma TagExplained(w: World<seq<string>>)
    requires TagWorld(w) && Agrees(w)
    ensures Explained(w, []) <==> w.schema == RowNames(w.rows)
  {
    TagReplay(w.inForce);
    assert NamesOf(w.inForce) == RowNames(w.rows);
  }

  lemma TagFaithful(w: World<seq<string>>, from: nat)
    requires TagWorld(w)
    ensures Faithful(w, from)
  {
    forall i | from <= i < |w.inForce| && Lookup(w.registered, w.inForce[i].name).Some?
      ensures Lookup(w.registered, w.inForce[i].name) == Some(w.inForce[i]) && Inverts(w.inForce[i])
    {
      var name := w.inForce[i].name;
      LookupIn(w.registered, name);
      var k :| 0 <= k < |w.registered| && w.registered[k] == Lookup(w.registered, name).value;
      assert w.registered[k] == Tag(w.registered[k].name);
      TagInverts(name);
    }
  }

  /** Downs of tags take as many elements off the end of the schema as rows go. */
  lemma {:induction false} TagDowns(w: World<seq<string>>, names: seq<string>)
    requires TagWorld(w) && Agrees(w) && Recorded(names, w.rows) && |w.schema| >= |w.rows|
    ensures
      var v := RunDowns(w, names).0;
      && TagWorld(v) && Agrees(v) && |v.rows| <= |w.rows|
      && v.schema == w.schema[..|w.schema| - (|w.rows| - |v.rows|)]
      && (w.budget > 0 && (exists i :: 0 <= i < |names| && Lookup(w.registered, names[i]).Some?) ==> |v.rows| < |w.rows|)
    decreases |names|
  {
    if names != [] {
      var n := |names| - 1;
      var name, rest := names[n], names[..n];
      var m := Lookup(w.registered, name);
      LookupIn(w.registered, name);
      if m.None? {
        assert forall i :: 0 <= i < n ==> rest[i] == names[i];
        TagDowns(w, rest);
      } else {
        assert name in Names(w.rows);
        assert w.rows != [];
        TagDown(w, m.value, names);
        if w.budget > 0 { TagDowns(AfterDown(w, m.value, name), rest); }
      }
    }
  }

  lemma TagDown(w: World<seq<string>>, m: Migration<seq<string>>, names: seq<string>)
    requires TagWorld(w) && Agrees(w) && names != [] && Recorded(names, w.rows) && |w.schema| >= |w.rows|
    requires m in w.registered && w.rows != []
    ensures m.down(w.schema) == Some(w.schema[..|w.schema| - 1])
    ensures w.budget > 0 ==>
      var v := AfterDown(w, m, names[|names| - 1]);
      TagWorld(v) && Agrees(v) && Recorded(names[..|names| - 1], v.rows) && |v.rows| == |w.rows| - 1
  {
    var k :| 0 <= k < |w.registered| && w.registered[k] == m;
    assert m == Tag(m.name);
    if w.budget > 0 {
      DownStep(w, m, names);
      var v := AfterDown(w, m, names[|names| - 1]);
      WithoutMembers(w.inForce, (m: Migration<seq<string>>) => m.name, names[|names| - 1]);
      forall i | 0 <= i < |v.inForce|
        ensures v.inForce[i] == Tag(v.inForce[i].name)
      {
        assert v.inForce[i] in w.inForce;
      }
    }
  }

  /** The youngest row of a sorted ledger stays the youngest as long as it stays. */
  lemma YoungestStays(rows: seq<Row>, after: seq<Row>)
    requires Sorted(RowLess, rows) && Sorted(RowLess, after) && rows != []
    requires (forall r :: r in after ==> r in rows) && rows[|rows| - 1] in after
    ensures after[|after| - 1] == rows[|rows| - 1]
  {
    var last := after[|after| - 1];
    assert last in after;
    var i :| 0 <= i < |rows| && rows[i] == last;
    var j :| 0 <= j < |after| && after[j] == rows[|rows| - 1];
    if i < |rows| - 1 {
      assert RowLess(rows[i], rows[|rows| - 1]);
      if j < |after| - 1 { assert RowLess(after[j], last); }
      LessIrreflexive(last.name);
      NotBoth(last, rows[|rows| - 1]);
    }
  }

  lemma NotBoth(a: Row, b: Row)
    ensures !(RowLess(a, b) && RowLess(b, a))
  {
    if RowLess(a, b) && RowLess(b, a) {
      LessTransitive(a.name, b.name, a.name);
      LessIrreflexive(a.name);
    }
  }

  lemma Misnamed(w: World<seq<string>>, v: World<seq<string>>)
    requires Agrees(w) && w.schema == RowNames(w.rows) && 0 < |v.rows| < |w.rows| && v.schema == w.schema[..|v.rows|]
    requires v.rows[|v.rows| - 1] == w.rows[|w.rows| - 1]
    ensures v.schema != RowNames(v.rows)
  {
    var n := |v.rows|;
    assert v.schema[n - 1] == w.inForce[n - 1].name && RowNames(v.rows)[n - 1] == w.inForce[|w.rows| - 1].name;
  }

  /** If the youngest row is missing and something below it is undone, the schema is corrupted. */
  lemma SkippedCorrupts(w: World<seq<string>>, cut: nat, i: nat)
    requires TagWorld(w) && Agrees(w) && Explained(w, []) && cut < |w.rows| && w.budget > 0
    requires Lookup(w.registered, w.rows[|w.rows| - 1].name).None?
    requires cut <= i < |w.rows| && Lookup(w.registered, w.rows[i].name).Some?
    ensures !Explained(RunDowns(w, RowNames(w.rows[cut..])).0, [])
  {
    var names, top := RowNames(w.rows[cut..]), w.rows[|w.rows| - 1];
    assert names[i - cut] == w.rows[i].name;
    SuffixRecorded(w, cut);
    TagExplained(w);
    TagDowns(w, names);
    RunDownsAgrees(w, names);
    var v := RunDowns(w, names).0;
    assert top in w.rows;
    CorruptedBy(w, v);
  }

  lemma CorruptedBy(w: World<seq<string>>, v: World<seq<string>>)
    requires Agrees(w) && w.rows != [] && w.schema == RowNames(w.rows) && TagWorld(v) && Agrees(v) && |v.rows| < |w.rows|
    requires v.schema == w.schema[..|w.schema| - (|w.rows| - |v.rows|)]
    requires (forall r :: r in v.rows ==> r in w.rows) && w.rows[|w.rows| - 1] in v.rows
    ensures !Explained(v, [])
  {
    YoungestStays(w.rows, v.rows);
    Misnamed(w, v);
    TagExplained(v);
  }

  /** A rollback of tags leaves the schema explained exactly if it is orderly: the condition on
      names, registrations and the database's life cannot be weakened. */
  lemma {:induction false} OrderlyIff(w: World<seq<string>>, cut: nat)
    requires TagWorld(w) && Agrees(w) && Explained(w, []) && DistinctNames(w.registered) && cut <= |w.rows|
    ensures Explained(RunDowns(w, RowNames(w.rows[cut..])).0, []) <==> Orderly(w, cut)
    decreases |w.rows| - cut
  {
    TagFaithful(w, cut);
    if Orderly(w, cut) {
      OrderlyExplained(w, cut, []);
    } else if Lookup(w.registered, w.rows[|w.rows| - 1].name).None? {
      var i :| cut <= i < |w.rows| && Lookup(w.registered, w.rows[i].name).Some?;
      SkippedCorrupts(w, cut, i);
    } else {
      var u := TagPop(w, cut);
      OrderlyIff(u, cut);
    }
  }

  /** The first round of a rollback of tags whose youngest row is found. */
  lemma TagPop(w: World<seq<string>>, cut: nat) returns (u: World<seq<string>>)
    requires TagWorld(w) && Agrees(w) && Explained(w, []) && DistinctNames(w.registered) && cut < |w.rows| && w.budget > 0
    requires Faithful(w, cut) && Lookup(w.registered, w.rows[|w.rows| - 1].name).Some?
    ensures TagWorld(u) && Agrees(u) && Explained(u, []) && u.registered == w.registered && |u.rows| == |w.rows| - 1
    ensures RunDowns(w, RowNames(w.rows[cut..])) == RunDowns(u, RowNames(u.rows[cut..])) && (Orderly(u, cut) <==> Orderly(w, cut))
  {
    LookupIn(w.registered, w.rows[|w.rows| - 1].name);
    u := PopStep(w, cut, []);
    TagPrefix(w, u);
    OrderlyPop(w, u, cut);
  }

  lemma TagPrefix(w: World<seq<string>>, u: World<seq<string>>)
    requires TagWorld(w) && u.registered == w.registered && u.inForce <= w.inForce
    ensures TagWorld(u)
  {
  }

  lemma SuffixRecorded<S>(w: World<S>, cut: nat)
    requires Agrees(w) && cut <= |w.rows|
    ensures Recorded(RowNames(w.rows[cut..]), w.rows)
  {
    var names := RowNames(w.rows[cut..]);
    forall i | 0 <= i < |names| ensures names[i] in Names(w.rows) { assert w.rows[cut + i] in w.rows; }
    forall i, j | 0 <= i < j < |names| ensures names[i] != names[j] {
      assert w.inForce[cut + i].name != w.inForce[cut + j].name;
    }
  }

  /** For instance: two migrations run in one batch, a new release drops the younger one, and
      Rollback undoes the older one around it. */
  lemma SkippedDownCorrupts() returns (ops: seq<Op<seq<string>>>, w: World<seq<string>>)
    ensures Run(Start([]), ops) == w && w.inForce == [Tag("a"), Tag("b")] && w.registered == [Tag("a")]
    ensures Explained(w, []) && !Explained(AfterRollback(w).0, [])
  {
    w := World(["a", "b"], [Row("a", 1), Row("b", 1)], [Tag("a")], [Tag("a"), Tag("b")], 1);
    ops := TwoTagsMigrated(w);
    TwoTagsExplained(w);
    RollbackNames(w);
    assert Cut(w.rows, 1) == 0;
    assert Lookup(w.registered, "b").None? by { assert w.registered[..0] == []; }
    assert Lookup(w.registered, w.rows[0].name).Some?;
    assert !Orderly(w, 0);
    OrderlyIff(w, 0);
  }

  lemma TwoTagsExplained(w: World<seq<string>>)
    requires w == World(["a", "b"], [Row("a", 1), Row("b", 1)], [Tag("a")], [Tag("a"), Tag("b")], 1)
    ensures TagWorld(w) && Agrees(w) && Explained(w, [])
  {
    assert Less("a", "b");
    TagExplained(w);
    assert RowNames(w.rows) == ["a", "b"];
  }

  lemma RunSnoc<S>(w: World<S>, ops: seq<Op<S>>, op: Op<S>)
    ensures Run(w, ops + [op]) == Step(Run(w, ops), op)
  {
    assert (ops + [op])[..|ops|] == ops;
  }

  lemma TwoTagsMigrated(w: World<seq<string>>) returns (ops: seq<Op<seq<string>>>)
    requires w == World(["a", "b"], [Row("a", 1), Row("b", 1)], [Tag("a")], [Tag("a"), Tag("b")], 1)
    ensures Run(Start([]), ops) == w
  {
    var a, b, s := Tag("a"), Tag("b"), Start<seq<string>>([]);
    ops := [];
    RunSnoc(s, ops, Add(a));
    ops := ops + [Add(a)];
    RunSnoc(s, ops, Add(b));
    ops := ops + [Add(b)];
    RunSnoc(s, ops, Reconnect(2));
    ops := ops + [Reconnect(2)];
    assert Run(s, ops) == World([], [], [a, b], [], 2);
    MigrateTwoTags();
    RunSnoc(s, ops, DoMigrate);
    ops := ops + [DoMigrate];
    RunSnoc(s, ops, Redeploy);
    ops := ops + [Redeploy];
    RunSnoc(s, ops, Add(a));
    ops := ops + [Add(a)];
    RunSnoc(s, ops, Reconnect(1));
    ops := ops + [Reconnect(1)];
  }

  lemma MigrateTwoTags()
    ensures AfterMigrate(World([], [], [Tag("a"), Tag("b")], [], 2)).0
            == World(["a", "b"], [Row("a", 1), Row("b", 1)], [Tag("a"), Tag("b")], [Tag("a"), Tag("b")], 0)
  {
    var w: World<seq<string>> := World([], [], [Tag("a"), Tag("b")], [], 2);
    assert Less("a", "b");
    SortOfSorted(ByName, w.registered);
    assert [Tag("a"), Tag("b")][1..] == [Tag("b")] && [Tag("b")][1..] == [];
    var u := AfterUp(w, Tag("a"), 1);
    assert u.schema == ["a"] && u.rows == [Row("a", 1)] && u.inForce == [Tag("a")];
    assert RunUps(w, w.registered, {}, 1) == RunUps(u, [Tag("b")], {}, 1);
    var v := AfterUp(u, Tag("b"), 1);
    assert v.schema == ["a", "b"] && v.rows == [Row("a", 1), Row("b", 1)] && v.inForce == [Tag("a"), Tag("b")];
    assert RunUps(u, [Tag("b")], {}, 1) == RunUps(v, [], {}, 1);
  }

  // ------------------------------------------------------------ the migrator itself

  lemma RunUpsAt<S>(w: World<S>, ms: seq<Migration<S>>, i: nat, ran: set<string>, batch: int)
    requires i < |ms|
    ensures RunUps(w, ms[i..], ran, batch) ==
      if ms[i].name in ran then RunUps(w, ms[i + 1..], ran, batch)
      else if w.budget == 0 || ms[i].up(w.schema).None? then (w, false)
      else RunUps(AfterUp(w, ms[i], batch), ms[i + 1..], ran, batch)
  {
    assert ms[i..][1..] == ms[i + 1..];
  }

  lemma RunDownsAt<S>(w: World<S>, names: seq<string>, i: nat)
    requires i < |names|
    ensures
      var m := Lookup(w.registered, names[i]);
      RunDowns(w, names[..i + 1]) ==
        if m.None? then RunDowns(w, names[..i])
        else if w.budget == 0 || m.value.down(w.schema).None? then (w, false)
        else RunDowns(AfterDown(w, m.value, names[i]), names[..i])
  {
    assert names[..i + 1][..i] == names[..i];
  }

  class Migrator<!S> {
    var schema: S
    var rows: seq<Row>
    var migrations: seq<Migration<S>>
    var budget: nat
    ghost var inForce: seq<Migration<S>>

    ghost function State(): World<S>
      reads this
    {
      World(schema, rows, migrations, inForce, budget)
    }

    /** A migrator on a database as it is: its schema, its ledger and the history behind it. */
    constructor (schema: S, rows: seq<Row>, budget: nat, ghost inForce: seq<Migration<S>>)
      ensures State() == World(schema, rows, [], inForce, budget)
    {
      this.schema, this.rows, migrations, this.budget, this.inForce := schema, rows, [], budget, inForce;
    }

    method Add(m: Migration<S>)
      modifies this`migrations
      ensures State() == Step(old(State()), Op.Add(m))
    {
      migrations := migrations + [m];
    }

    /** Runs a script in its own transaction: all of it or nothing. */
    method ExecSQL(script: S -> Option<S>) returns (ok: bool)
      modifies this`schema, this`budget
      ensures ok <==> old(budget) > 0 && script(old(schema)).Some?
      ensures ok ==> schema == script(old(schema)).value && budget == old(budget) - 1
      ensures !ok ==> schema == old(schema) && budget == old(budget)
    {
      var r := script(schema);
      ok := budget > 0 && r.Some?;
      if ok { schema, budget := r.value, budget - 1; }
    }

    /** Executes an Up script and records it. */
    method RunUp(mig: Migration<S>, batch: int) returns (ok: bool)
      modifies this`schema, this`rows, this`budget, this`inForce
      ensures ok <==> old(budget) > 0 && mig.up(old(schema)).Some?
      ensures State() == if ok then AfterUp(old(State()), mig, batch) else old(State())
    {
      ok := ExecSQL(mig.up);
      if ok {
        rows := rows + [Row(mig.name, batch)];
        inForce := inForce + [mig];
      }
    }

    /** Executes a Down script and deletes its row. */
    method RunDown(mig: Migration<S>, name: string) returns (ok: bool)
      modifies this`schema, this`rows, this`budget, this`inForce
      ensures ok <==> old(budget) > 0 && mig.down(old(schema)).Some?
      ensures State() == if ok then AfterDown(old(State()), mig, name) else old(State())
    {
      ok := ExecSQL(mig.down);
      if ok {
        rows := RemoveRow(rows, name);
        inForce := Forget(inForce, name);
      }
    }

    method Migrate() returns (ok: bool)
      modifies this
      ensures (State(), ok) == AfterMigrate(old(State()))
    {
      var ran := Names(rows);
      var sorted := Sort(ByName, migrations);
      migrations := sorted;
      var batch := LastBatch(rows) + 1;
      var i := 0;
      ghost var goal := AfterMigrate(old(State()));
      assert sorted[0..] == sorted;
      while i < |sorted|
        invariant 0 <= i <= |sorted| && migrations == sorted
        invariant RunUps(State(), sorted[i..], ran, batch) == goal
      {
        var mig := sorted[i];
        RunUpsAt(State(), sorted, i, ran, batch);
        if mig.name !in ran {
          ok := RunUp(mig, batch);
          if !ok { return; }
        }
        i := i + 1;
      }
      ok := true;
    }

    method Rollback() returns (ok: bool)
      modifies this`schema, this`rows, this`budget, this`inForce
      ensures (State(), ok) == AfterRollback(old(State()))
    {
      var batch := LastBatch(rows);
      if batch == 0 { return true; }
      var names := BatchMigrations(rows, batch);
      var i := |names|;
      assert names[..i] == names;
      ghost var goal := RunDowns(State(), names);
      while i > 0
        invariant 0 <= i <= |names|
        invariant RunDowns(State(), names[..i]) == goal
      {
        i := i - 1;
        RunDownsAt(State(), names, i);
        var mig := Lookup(migrations, names[i]);
        if mig.Some? {
          ok := RunDown(mig.value, names[i]);
          if !ok { return; }
        }
      }
      ok := true;
    }

    /** The loop of Reset, cut short after a number of rounds since it need not end. */
    method Reset(rounds: nat) returns (e: Ending)
      modifies this`schema, this`rows, this`budget, this`inForce
      ensures (State(), e) == ResetWithin(old(State()), rounds)
    {
      var left: nat := rounds;
      while left > 0
        invariant left <= rounds && ResetWithin(State(), left) == ResetWithin(old(State()), rounds)
      {
        if LastBatch(rows) == 0 { return Done; }
        var ok := Rollback();
        if !ok { return Error; }
        left := left - 1;
      }
      e := if LastBatch(rows) == 0 then Done else Running;
    }

    method Fresh(rounds: nat) returns (e: Ending)
      modifies this
      ensures
        var (w, reset) := ResetWithin(old(State()), rounds);
        if reset != Done then State() == w && e == reset
        else State() == AfterMigrate(w).0 && e == if AfterMigrate(w).1 then Done else Error
    {
      e := Reset(rounds);
      if e == Done {
        var ok := Migrate();
        if !ok { e := Error; }
      }
    }
  }
}
