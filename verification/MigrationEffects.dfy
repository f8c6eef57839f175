/**
 What one Migrate and one Rollback do (database/migration/migrator.go): which scripts run, in
 which order, what they leave in the ledger, and where they stop.
 */
module MigrationEffects {
  import opened Wrappers
  import opened Sorting
  import opened Migrations

  // ------------------------------------------------------------ Migrate

  /** The migrations whose names have not been recorded. */
  function Pending<S>(ms: seq<Migration<S>>, ran: set<string>): seq<Migration<S>> {
    if ms == [] then [] else (if ms[0].name in ran then [] else [ms[0]]) + Pending(ms[1..], ran)
  }

  lemma {:induction false} PendingIff<S>(ms: seq<Migration<S>>, ran: set<string>, m: Migration<S>)
    ensures m in Pending(ms, ran) <==> m in ms && m.name !in ran
  {
    if ms != [] {
      PendingIff(ms[1..], ran, m);
      assert ms == [ms[0]] + ms[1..];
    }
  }

  lemma {:induction false} PendingSorted<S>(ms: seq<Migration<S>>, ran: set<string>)
    requires Sorted(ByName, ms)
    ensures Sorted(ByName, Pending(ms, ran))
  {
    if ms != [] {
      var tail := Pending(ms[1..], ran);
      PendingSorted(ms[1..], ran);
      forall j | 0 <= j < |tail| ensures ByName(ms[0], tail[j]) {
        PendingIff(ms[1..], ran, tail[j]);
        var i :| 0 <= i < |ms[1..]| && ms[1..][i] == tail[j];
        assert ms[i + 1] == tail[j];
      }
    }
  }

  /** The schema after the first Up, and then the others. */
  lemma {:induction false} ReplayFirst<S>(schema: S, m: Migration<S>, ms: seq<Migration<S>>)
    requires m.up(schema).Some?
    ensures Replay(schema, [m] + ms) == Replay(m.up(schema).value, ms)
    decreases |ms|
  {
    var all := [m] + ms;
    if ms == [] {
      assert all == [m] && all[..0] == [];
    } else {
      assert all[..|all| - 1] == [m] + ms[..|ms| - 1];
      ReplayFirst(schema, m, ms[..|ms| - 1]);
    }
  }

  /** A list of Ups fails if one of its first does. */
  lemma {:induction false} ReplayPrefix<S>(schema: S, ms: seq<Migration<S>>, k: nat)
    requires k <= |ms| && Replay(schema, ms).Some?
    ensures Replay(schema, ms[..k]).Some?
    decreases |ms|
  {
    if k < |ms| {
      ReplayPrefix(schema, ms[..|ms| - 1], k);
      assert ms[..|ms| - 1][..k] == ms[..k];
    } else {
      assert ms[..k] == ms;
    }
  }

  /** v is w after the first k of the Ups, each with a row of the batch; then the database stopped or
      the next one failed. */
  ghost predicate RanFirst<S>(w: World<S>, v: World<S>, ok: bool, ups: seq<Migration<S>>, k: nat, batch: int) {
    && k <= |ups| && k <= w.budget && v.budget == w.budget - k
    && v.inForce == w.inForce + ups[..k] && Replay(w.schema, ups[..k]) == Some(v.schema)
    && |v.rows| == |w.rows| + k && v.rows[..|w.rows|] == w.rows
    && (forall i :: 0 <= i < k ==> v.rows[|w.rows| + i] == Row(ups[i].name, batch))
    && (ok <==> k == |ups|)
    && (!ok ==> v.budget == 0 || ups[k].up(v.schema).None?)
  }

  lemma RanOneMore<S>(w: World<S>, u: World<S>, v: World<S>, ok: bool, ups: seq<Migration<S>>, k: nat, batch: int)
    requires ups != [] && w.budget > 0 && ups[0].up(w.schema).Some? && u == AfterUp(w, ups[0], batch)
    requires RanFirst(u, v, ok, ups[1..], k, batch)
    ensures RanFirst(w, v, ok, ups, k + 1, batch)
  {
    var rest := ups[1..];
    assert ups[..k + 1] == [ups[0]] + rest[..k];
    ReplayFirst(w.schema, ups[0], rest[..k]);
    assert v.rows[..|w.rows|] == v.rows[..|u.rows|][..|w.rows|] == w.rows;
    forall i | 0 <= i < k + 1 ensures v.rows[|w.rows| + i] == Row(ups[i].name, batch) {
      if i == 0 {
        assert v.rows[|w.rows|] == u.rows[|w.rows|];
      } else {
        assert v.rows[|u.rows| + (i - 1)] == Row(rest[i - 1].name, batch);
      }
    }
  }

  lemma {:induction false} RunUpsRan<S>(w: World<S>, ms: seq<Migration<S>>, ran: set<string>, batch: int) returns (k: nat)
    ensures var (v, ok) := RunUps(w, ms, ran, batch); RanFirst(w, v, ok, Pending(ms, ran), k, batch)
    decreases |ms|
  {
    var ups := Pending(ms, ran);
    if ms == [] {
      k := 0;
    } else if ms[0].name in ran {
      k := RunUpsRan(w, ms[1..], ran, batch);
      assert ups == Pending(ms[1..], ran);
    } else if w.budget == 0 || ms[0].up(w.schema).None? {
      k := 0;
    } else {
      var u := AfterUp(w, ms[0], batch);
      k := RunUpsRan(u, ms[1..], ran, batch);
      var (v, ok) := RunUps(u, ms[1..], ran, batch);
      assert ups[1..] == Pending(ms[1..], ran);
      RanOneMore(w, u, v, ok, ups, k, batch);
      k := k + 1;
    }
  }

  /** One more than every batch before, or 1 for the first. */
  ghost predicate NextBatch(rows: seq<Row>, batch: int) {
    if rows == [] then batch == 1
    else (forall r :: r in rows ==> r.batch < batch) && exists r :: r in rows && r.batch + 1 == batch
  }

  lemma LastBatchNext(rows: seq<Row>)
    ensures NextBatch(rows, LastBatch(rows) + 1)
  {
    if rows != [] { LastBatchIsMax(rows); }
  }

  /** All Ups work one after the other, and the database lasts for them, exactly if the run is over. */
  lemma RanAllIff<S>(w: World<S>, v: World<S>, ok: bool, ups: seq<Migration<S>>, k: nat, batch: int)
    requires RanFirst(w, v, ok, ups, k, batch)
    ensures ok <==> |ups| <= w.budget && Replay(w.schema, ups).Some?
  {
    if ok {
      assert ups[..k] == ups;
    } else if Replay(w.schema, ups).Some? {
      ReplayPrefix(w.schema, ups, k + 1);
      assert ups[..k + 1][..k] == ups[..k];
    }
  }

  lemma RanAlike<S>(w: World<S>, u: World<S>, v: World<S>, ok: bool, ups: seq<Migration<S>>, k: nat, batch: int)
    requires u == w.(registered := u.registered) && RanFirst(u, v, ok, ups, k, batch)
    ensures RanFirst(w, v, ok, ups, k, batch)
  {
  }

  lemma MigrateRan<S>(w: World<S>, v: World<S>, ok: bool, sorted: seq<Migration<S>>, batch: int) returns (k: nat)
    requires (v, ok) == AfterMigrate(w) && sorted == Sort(ByName, w.registered) && batch == LastBatch(w.rows) + 1
    ensures RanFirst(w, v, ok, Pending(sorted, Names(w.rows)), k, batch)
  {
    var u := w.(registered := sorted);
    k := RunUpsRan(u, sorted, Names(w.rows), batch);
    RanAlike(w, u, v, ok, Pending(sorted, Names(w.rows)), k, batch);
  }

  /** On any ledger Migrate runs the registered migrations that are not recorded, in name order, up to
      the first that fails, and records each in the next batch; it succeeds exactly if all of them
      work one after the other and the database lasts for them. */
  lemma MigrateRunsPending<S>(w: World<S>) returns (pending: seq<Migration<S>>, k: nat, batch: int)
    requires DistinctNames(w.registered)
    ensures Sorted(ByName, pending) && forall m :: m in pending <==> m in w.registered && m.name !in Names(w.rows)
    ensures NextBatch(w.rows, batch)
    ensures
      var (v, ok) := AfterMigrate(w);
      && RanFirst(w, v, ok, pending, k, batch)
      && (ok <==> |pending| <= w.budget && Replay(w.schema, pending).Some?)
      && (ok ==> forall m :: m in w.registered ==> m.name in Names(v.rows))
  {
    var sorted, ran := Sort(ByName, w.registered), Names(w.rows);
    var (v, ok) := AfterMigrate(w);
    batch, pending := LastBatch(w.rows) + 1, Pending(sorted, ran);
    RegisteredSorted(w.registered);
    PendingSorted(sorted, ran);
    forall m ensures m in pending <==> m in sorted && m.name !in ran { PendingIff(sorted, ran, m); }
    LastBatchNext(w.rows);
    k := MigrateRan(w, v, ok, sorted, batch);
    RanAllIff(w, v, ok, pending, k, batch);
    if ok { AllRecorded(w, v, pending, k, batch); }
  }

  lemma AllRecorded<S>(w: World<S>, v: World<S>, pending: seq<Migration<S>>, k: nat, batch: int)
    requires forall m :: m in pending <==> m in w.registered && m.name !in Names(w.rows)
    requires RanFirst(w, v, true, pending, k, batch)
    ensures forall m :: m in w.registered ==> m.name in Names(v.rows)
  {
    forall m | m in w.registered ensures m.name in Names(v.rows) {
      if m.name in Names(w.rows) {
        var i :| 0 <= i < |w.rows| && w.rows[i].name == m.name;
        assert v.rows[..|w.rows|][i] == v.rows[i];
        assert v.rows[i] in v.rows;
      } else {
        var i :| 0 <= i < |pending| && pending[i] == m;
        assert v.rows[|w.rows| + i] in v.rows;
      }
    }
  }

  // ------------------------------------------------------------ Rollback

  /** The migration that the code has under its name: the last one registered. */
  ghost predicate Current<S>(ms: seq<Migration<S>>, m: Migration<S>) {
    exists i :: 0 <= i < |ms| && ms[i] == m && forall j :: i < j < |ms| ==> ms[j].name != m.name
  }

  lemma {:induction false} LookupIff<S>(ms: seq<Migration<S>>, name: string, m: Migration<S>)
    ensures Lookup(ms, name) == Some(m) <==> m.name == name && Current(ms, m)
  {
    if ms != [] {
      var last := |ms| - 1;
      LookupIff(ms[..last], name, m);
      if Current(ms[..last], m) && ms[last].name != m.name {
        var i :| 0 <= i < last && ms[..last][i] == m && forall j :: i < j < last ==> ms[..last][j].name != m.name;
        assert ms[i] == m;
      }
      if Current(ms, m) {
        var i :| 0 <= i < |ms| && ms[i] == m && forall j :: i < j < |ms| ==> ms[j].name != m.name;
        if i < last { assert ms[..last][i] == m; }
      }
      if ms[last] == m { assert Current(ms, m); }
    }
  }

  /** The migrations found in code under the names. */
  function Found<S>(ms: seq<Migration<S>>, names: seq<string>): seq<Migration<S>> {
    if names == [] then []
    else
      var m := Lookup(ms, names[|names| - 1]);
      Found(ms, names[..|names| - 1]) + if m.None? then [] else [m.value]
  }

  /** The schema after the Downs, from the last migration to the first. */
  function Undo<S>(schema: S, ms: seq<Migration<S>>): Option<S>
    decreases |ms|
  {
    if ms == [] then Some(schema)
    else
      var next := ms[|ms| - 1].down(schema);
      if next.None? then None else Undo(next.value, ms[..|ms| - 1])
  }

  ghost predicate NameIn<S>(ms: seq<Migration<S>>, name: string) { exists i :: 0 <= i < |ms| && ms[i].name == name }

  /** v is w after the last k of the Downs, without their rows; then the database stopped or the next
      one failed. */
  ghost predicate UndidLast<S>(w: World<S>, v: World<S>, ok: bool, downs: seq<Migration<S>>, k: nat) {
    && k <= |downs| && k <= w.budget && v.budget == w.budget - k && v.registered == w.registered
    && Undo(w.schema, downs[|downs| - k..]) == Some(v.schema)
    && (forall r :: r in v.rows <==> r in w.rows && !NameIn(downs[|downs| - k..], r.name))
    && (ok <==> k == |downs|)
    && (!ok ==> v.budget == 0 || downs[|downs| - k - 1].down(v.schema).None?)
  }

  /** The last k + 1 elements are the last k of those before the last, and the last. */
  lemma OneLonger<T>(s: seq<T>, k: nat)
    requires k < |s|
    ensures var after := s[|s| - (k + 1)..]; |after| == k + 1 && after[..k] == s[..|s| - 1][|s| - 1 - k..] && after[k] == s[|s| - 1]
  {
  }

  lemma NameInLonger<S>(downs: seq<Migration<S>>, k: nat, name: string)
    requires k < |downs|
    ensures NameIn(downs[|downs| - (k + 1)..], name) <==>
            NameIn(downs[..|downs| - 1][|downs| - 1 - k..], name) || name == downs[|downs| - 1].name
  {
    var after, before := downs[|downs| - (k + 1)..], downs[..|downs| - 1][|downs| - 1 - k..];
    OneLonger(downs, k);
    if i :| 0 <= i < |before| && before[i].name == name { assert after[..k][i].name == name; }
    if i :| 0 <= i < |after| && after[i].name == name {
      if i < k { assert before[i] == after[i]; }
    }
  }

  lemma UndidOneMore<S>(w: World<S>, u: World<S>, v: World<S>, ok: bool, downs: seq<Migration<S>>, k: nat)
    requires downs != []
    requires var m := downs[|downs| - 1]; w.budget > 0 && m.down(w.schema).Some? && u == AfterDown(w, m, m.name)
    requires UndidLast(u, v, ok, downs[..|downs| - 1], k)
    ensures UndidLast(w, v, ok, downs, k + 1)
  {
    var m, rest := downs[|downs| - 1], downs[..|downs| - 1];
    var before, after := rest[|rest| - k..], downs[|downs| - (k + 1)..];
    OneLonger(downs, k);
    assert Undo(w.schema, after) == Undo(u.schema, before);
    RowsLeft(w.rows, v.rows, downs, k);
  }

  lemma RowsLeft<S>(rows: seq<Row>, left: seq<Row>, downs: seq<Migration<S>>, k: nat)
    requires k < |downs|
    requires forall r :: r in left <==> r in RemoveRow(rows, downs[|downs| - 1].name) && !NameIn(downs[..|downs| - 1][|downs| - 1 - k..], r.name)
    ensures forall r :: r in left <==> r in rows && !NameIn(downs[|downs| - (k + 1)..], r.name)
  {
    WithoutMembers(rows, (r: Row) => r.name, downs[|downs| - 1].name);
    forall r: Row
      ensures r in left <==> r in rows && !NameIn(downs[|downs| - (k + 1)..], r.name)
    {
      NameInLonger(downs, k, r.name);
    }
  }

  lemma UndidNone<S>(w: World<S>, downs: seq<Migration<S>>)
    requires downs != [] ==> w.budget == 0 || downs[|downs| - 1].down(w.schema).None?
    ensures UndidLast(w, w, downs == [], downs, 0)
  {
    assert downs[|downs| - 0..] == [];
  }

  lemma {:induction false} RunDownsUndid<S>(w: World<S>, names: seq<string>) returns (k: nat)
    ensures var (v, ok) := RunDowns(w, names); UndidLast(w, v, ok, Found(w.registered, names), k)
    decreases |names|
  {
    var downs := Found(w.registered, names);
    if names == [] {
      UndidNone(w, downs);
      k := 0;
    } else {
      var name, rest := names[|names| - 1], names[..|names| - 1];
      var m := Lookup(w.registered, name);
      if m.None? {
        k := RunDownsUndid(w, rest);
        assert downs == Found(w.registered, rest);
      } else if w.budget == 0 || m.value.down(w.schema).None? {
        UndidNone(w, downs);
        k := 0;
      } else {
        LookupIn(w.registered, name);
        var u := AfterDown(w, m.value, name);
        k := RunDownsUndid(u, rest);
        var (v, ok) := RunDowns(u, rest);
        assert downs[..|downs| - 1] == Found(w.registered, rest);
        UndidOneMore(w, u, v, ok, downs, k);
        k := k + 1;
      }
    }
  }

  lemma {:induction false} FoundIff<S>(ms: seq<Migration<S>>, names: seq<string>, m: Migration<S>)
    ensures m in Found(ms, names) <==> Current(ms, m) && m.name in names
  {
    if names != [] {
      var n := |names| - 1;
      FoundIff(ms, names[..n], m);
      LookupIff(ms, names[n], m);
      assert m.name in names <==> m.name in names[..n] || m.name == names[n];
    }
  }

  lemma {:induction false} FoundSorted<S>(ms: seq<Migration<S>>, names: seq<string>)
    requires Sorted(Less, names)
    ensures Sorted(ByName, Found(ms, names))
  {
    if names != [] {
      var n := |names| - 1;
      var found, last := Found(ms, names[..n]), Lookup(ms, names[n]);
      FoundSorted(ms, names[..n]);
      if last.Some? {
        LookupIn(ms, names[n]);
        forall i | 0 <= i < |found| ensures ByName(found[i], last.value) {
          FoundIff(ms, names[..n], found[i]);
          var j :| 0 <= j < n && names[j] == found[i].name;
        }
      }
    }
  }

  /** The row is of the last batch. */
  ghost predicate OfLastBatch(rows: seq<Row>, r: Row) { r in rows && forall q :: q in rows ==> q.batch <= r.batch }

  lemma {:induction false} NamesInAre(rows: seq<Row>, batch: int, name: string)
    ensures name in NamesIn(rows, batch) <==> Row(name, batch) in rows
  {
    if rows != [] {
      NamesInAre(rows[1..], batch, name);
      assert rows == [rows[0]] + rows[1..];
    }
  }

  /** Rollback reads the names of the last batch, in name order. */
  lemma LastNames<S>(w: World<S>) returns (names: seq<string>)
    requires Agrees(w)
    ensures AfterRollback(w) == RunDowns(w, names)
    ensures Sorted(Less, names) && forall name :: name in names <==> exists r :: OfLastBatch(w.rows, r) && r.name == name
  {
    if w.rows == [] {
      names := [];
    } else {
      var batch := LastBatch(w.rows);
      names := BatchMigrations(w.rows, batch);
      RollbackNames(w);
      LastBatchIsMax(w.rows);
      SortPermutes(Less, NamesIn(w.rows, batch));
      forall name ensures name in names <==> exists r :: OfLastBatch(w.rows, r) && r.name == name {
        SameElements(NamesIn(w.rows, batch), names, name);
        NamesInAre(w.rows, batch, name);
        if Row(name, batch) in w.rows { assert OfLastBatch(w.rows, Row(name, batch)); }
      }
    }
  }

  /** Rollback undoes the migrations of the last batch that are found in code, from the last name to the
      first, up to the first Down that fails; their rows go and all others stay. */
  lemma RollbackUndoesLastBatch<S>(w: World<S>) returns (downs: seq<Migration<S>>, k: nat)
    requires Agrees(w)
    ensures Sorted(ByName, downs)
    ensures forall m :: m in downs <==> Current(w.registered, m) && exists r :: OfLastBatch(w.rows, r) && r.name == m.name
    ensures var (v, ok) := AfterRollback(w); UndidLast(w, v, ok, downs, k)
  {
    var names := LastNames(w);
    downs := Found(w.registered, names);
    FoundSorted(w.registered, names);
    forall m ensures m in downs <==> Current(w.registered, m) && m.name in names { FoundIff(w.registered, names, m); }
    k := RunDownsUndid(w, names);
  }

  // ------------------------------------------------------------ Fresh

  /** Fresh succeeds exactly if the database lasts for a Down of every row and an Up of every registered
      migration, and those Ups work one after the other on the original schema. */
  lemma FreshSucceedsIff<S(!new)>(w: World<S>, schema: S)
    requires Agrees(w) && Explained(w, schema) && Covered(w, 0) && DistinctNames(w.registered)
    ensures AllRegistered(w)
    ensures AfterFresh(w).1 <==> |w.rows| + |w.registered| <= w.budget && Replay(schema, Sort(ByName, w.registered)).Some?
  {
    ResetRestores(w, schema);
    var (u, ok) := AfterReset(w);
    var sorted := Sort(ByName, w.registered);
    SortPermutes(ByName, w.registered);
    assert |multiset(sorted)| == |sorted| && |multiset(w.registered)| == |w.registered|;
    if ok {
      var u' := u.(registered := sorted);
      var k := RunUpsRan(u', sorted, {}, 1);
      NothingRan(sorted);
      var (v, done) := RunUps(u', sorted, {}, 1);
      assert Names(u.rows) == {};
      RanAllIff(u', v, done, sorted, k, 1);
    }
  }

  lemma {:induction false} NothingRan<S>(ms: seq<Migration<S>>)
    ensures Pending(ms, {}) == ms
  {
    if ms != [] {
      NothingRan(ms[1..]);
      assert ms == [ms[0]] + ms[1..];
    }
  }
}
