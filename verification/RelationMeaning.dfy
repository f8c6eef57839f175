/**
 What a loaded relation holds (database/orm/relation.go), said of the tables' rows by their positions.
 */
module RelationMeaning {
  import opened Wrappers
  import opened EagerLoading

  /** Strictly increasing positions below n. */
  ghost predicate Increasing(idx: seq<nat>, n: nat) {
    (forall i :: 0 <= i < |idx| ==> idx[i] < n) && forall i, j :: 0 <= i < j < |idx| ==> idx[i] < idx[j]
  }

  predicate Has(r: Item, column: string, k: int) { Key(r, column) == Some(k) }

  // ------------------------------------------------------------ rows with a key

  /** The positions of the rows with the key. */
  function Positions(rows: seq<Item>, column: string, k: int): (idx: seq<nat>) {
    if rows == [] then []
    else
      var n := |rows| - 1;
      Positions(rows[..n], column, k) + if Has(rows[n], column, k) then [n] else []
  }

  lemma {:induction false} PositionsIncrease(rows: seq<Item>, column: string, k: int)
    ensures Increasing(Positions(rows, column, k), |rows|)
  {
    if rows != [] { PositionsIncrease(rows[..|rows| - 1], column, k); }
  }

  lemma {:induction false} PositionsIff(rows: seq<Item>, column: string, k: int, j: nat)
    ensures j in Positions(rows, column, k) <==> j < |rows| && Has(rows[j], column, k)
  {
    if rows != [] {
      var n := |rows| - 1;
      PositionsIff(rows[..n], column, k, j);
      if j < n { assert rows[..n][j] == rows[j]; }
    }
  }

  /** Having lists the rows at these positions. */
  lemma {:induction false} HavingAt(rows: seq<Item>, column: string, k: int, i: nat)
    ensures |Positions(rows, column, k)| == |Having(rows, column, k)|
    ensures i < |Positions(rows, column, k)| ==> Positions(rows, column, k)[i] < |rows| && Having(rows, column, k)[i] == rows[Positions(rows, column, k)[i]]
  {
    if rows != [] {
      var n := |rows| - 1;
      HavingAt(rows[..n], column, k, i);
      PositionsIncrease(rows[..n], column, k);
    }
  }

  /** The last row with the key. */
  ghost predicate LastWith(rows: seq<Item>, column: string, k: int, j: nat) {
    j < |rows| && Has(rows[j], column, k) && forall i :: j < i < |rows| ==> !Has(rows[i], column, k)
  }

  ghost predicate Present(rows: seq<Item>, column: string, k: int) { exists j :: 0 <= j < |rows| && Has(rows[j], column, k) }

  /** It is what LastHaving picks, or there is none. */
  lemma {:induction false} LastHavingAt(rows: seq<Item>, column: string, k: int) returns (j: nat)
    ensures if Present(rows, column, k) then LastWith(rows, column, k, j) && LastHaving(rows, column, k) == [rows[j]] else LastHaving(rows, column, k) == []
    decreases |rows|
  {
    j := 0;
    if rows != [] {
      var n := |rows| - 1;
      LastSnoc(rows[..n], rows[n], column, k);
      assert rows[..n] + [rows[n]] == rows;
      LastStep(rows, column, k);
      j := n;
      if !Has(rows[n], column, k) { j := LastHavingAt(rows[..n], column, k); }
    }
  }

  lemma LastStep(rows: seq<Item>, column: string, k: int)
    requires rows != []
    ensures
      var n := |rows| - 1;
      if Has(rows[n], column, k) then Present(rows, column, k) && LastWith(rows, column, k, n)
      else
        && (Present(rows, column, k) <==> Present(rows[..n], column, k))
        && forall j: nat :: LastWith(rows[..n], column, k, j) ==> LastWith(rows, column, k, j) && rows[..n][j] == rows[j]
  {
    var n := |rows| - 1;
    if i :| 0 <= i < |rows| && Has(rows[i], column, k) {
      if i < n { assert Has(rows[..n][i], column, k); }
    }
    if i :| 0 <= i < n && Has(rows[..n][i], column, k) { assert Has(rows[i], column, k); }
    forall j: nat | LastWith(rows[..n], column, k, j) && !Has(rows[n], column, k)
      ensures LastWith(rows, column, k, j)
    {
      forall i | j < i < |rows| ensures !Has(rows[i], column, k) {
        if i < n { assert rows[..n][i] == rows[i]; }
      }
    }
  }

  // ------------------------------------------------------------ hasMany, hasOne, belongsTo

  /** Only the field changes. */
  ghost predicate Sets(m: Item, f: nat, items: seq<Item>, after: Item)
    requires f < |m.rels|
  {
    after == m.(rels := m.rels[f := items])
  }

  /** hasMany: all rows whose foreign key is the model's id, in the table's order. */
  lemma HasManyHolds(db: Db, f: nat, table: string, fk: string, m: Item) returns (idx: seq<nat>, items: seq<Item>)
    requires f < |m.rels|
    ensures Sets(m, f, items, LoadOne(db, f, HasMany(table, fk), m))
    ensures
      var rows := Rows(db, table);
      && Increasing(idx, |rows|) && |items| == |idx| && (forall i :: 0 <= i < |idx| ==> items[i] == rows[idx[i]])
      && forall j: nat :: j in idx <==> j < |rows| && Has(rows[j], fk, m.id)
  {
    var rows := Rows(db, table);
    items, idx := Having(rows, fk, m.id), Positions(rows, fk, m.id);
    PositionsIncrease(rows, fk, m.id);
    HavingAt(rows, fk, m.id, 0);
    forall i | 0 <= i < |idx| ensures items[i] == rows[idx[i]] { HavingAt(rows, fk, m.id, i); }
    forall j: nat ensures j in idx <==> j < |rows| && Has(rows[j], fk, m.id) { PositionsIff(rows, fk, m.id, j); }
  }

  /** hasOne: the last row whose foreign key is the model's id; without one the field stays. */
  lemma HasOneHolds(db: Db, f: nat, table: string, fk: string, m: Item) returns (j: nat)
    requires f < |m.rels|
    ensures
      var rows, after := Rows(db, table), LoadOne(db, f, HasOne(table, fk), m);
      if Present(rows, fk, m.id) then LastWith(rows, fk, m.id, j) && Sets(m, f, [rows[j]], after) else after == m
  {
    j := LastHavingAt(Rows(db, table), fk, m.id);
  }

  /** belongsTo: the last row whose id is the model's foreign key; without a key or a row the field stays. */
  lemma BelongsToHolds(db: Db, f: nat, table: string, fk: string, m: Item) returns (j: nat)
    requires f < |m.rels|
    ensures
      var rows, after, key := Rows(db, table), LoadOne(db, f, BelongsTo(table, fk), m), Key(m, fk);
      if key.Some? && Present(rows, "id", key.value) then LastWith(rows, "id", key.value, j) && Sets(m, f, [rows[j]], after)
      else after == m
  {
    j := 0;
    if Key(m, fk).Some? { j := LastHavingAt(Rows(db, table), "id", Key(m, fk).value); }
  }

  // ------------------------------------------------------------ belongsToMany

  /** The pivot row links the model to a row that exists. */
  ghost predicate Leads(pair: (int, int), rows: seq<Item>, k: int) { pair.0 == k && Present(rows, "id", pair.1) }

  /** The positions of the pivot rows that do. */
  ghost function Leading(pairs: seq<(int, int)>, rows: seq<Item>, k: int): seq<nat> {
    if pairs == [] then []
    else
      var n := |pairs| - 1;
      Leading(pairs[..n], rows, k) + if Leads(pairs[n], rows, k) then [n] else []
  }

  lemma {:induction false} LeadingIncreases(pairs: seq<(int, int)>, rows: seq<Item>, k: int)
    ensures Increasing(Leading(pairs, rows, k), |pairs|)
  {
    if pairs != [] { LeadingIncreases(pairs[..|pairs| - 1], rows, k); }
  }

  lemma {:induction false} LeadingIff(pairs: seq<(int, int)>, rows: seq<Item>, k: int, j: nat)
    ensures j in Leading(pairs, rows, k) <==> j < |pairs| && Leads(pairs[j], rows, k)
  {
    if pairs != [] {
      var n := |pairs| - 1;
      LeadingIff(pairs[..n], rows, k, j);
      if j < n { assert pairs[..n][j] == pairs[j]; }
    }
  }

  /** The item is the last row with the id that the pivot row names. */
  ghost predicate LedTo(pair: (int, int), rows: seq<Item>, item: Item) {
    exists j: nat :: LastWith(rows, "id", pair.1, j) && item == rows[j]
  }

  lemma {:induction false} JoinLed(pairs: seq<(int, int)>, rows: seq<Item>, k: int, i: nat)
    ensures |Leading(pairs, rows, k)| == |Join(pairs, rows, k)|
    ensures i < |Leading(pairs, rows, k)| ==>
      Leading(pairs, rows, k)[i] < |pairs| && LedTo(pairs[Leading(pairs, rows, k)[i]], rows, Join(pairs, rows, k)[i])
  {
    if pairs != [] {
      var n := |pairs| - 1;
      JoinLed(pairs[..n], rows, k, i);
      LeadingIncreases(pairs[..n], rows, k);
      var j := LastHavingAt(rows, "id", pairs[n].1);
      assert Leads(pairs[n], rows, k) ==> LedTo(pairs[n], rows, rows[j]);
    }
  }

  /** belongsToMany: the rows that the model's pivot rows lead to, in the order of the pivot table; a model
      without pivot rows, loaded alone, keeps its field. */
  lemma BelongsToManyHolds(db: Db, f: nat, pivot: string, table: string, m: Item) returns (idx: seq<nat>, items: seq<Item>)
    requires f < |m.rels|
    ensures
      var pairs, rows := Pivot(db, pivot), Rows(db, table);
      && Increasing(idx, |pairs|) && |items| == |idx| && (forall i :: 0 <= i < |idx| ==> LedTo(pairs[idx[i]], rows, items[i]))
      && forall j: nat :: j in idx <==> j < |pairs| && Leads(pairs[j], rows, m.id)
    ensures
      var pairs, after := Pivot(db, pivot), LoadOne(db, f, BelongsToMany(pivot, table), m);
      if exists j :: 0 <= j < |pairs| && pairs[j].0 == m.id then Sets(m, f, items, after) else after == m
  {
    var pairs, rows := Pivot(db, pivot), Rows(db, table);
    items, idx := Join(pairs, rows, m.id), Leading(pairs, rows, m.id);
    JoinHolds(pairs, rows, m.id);
    LinkedSets(db, f, pivot, table, m);
  }

  lemma JoinHolds(pairs: seq<(int, int)>, rows: seq<Item>, k: int)
    ensures
      var idx, items := Leading(pairs, rows, k), Join(pairs, rows, k);
      && Increasing(idx, |pairs|) && |items| == |idx| && (forall i :: 0 <= i < |idx| ==> LedTo(pairs[idx[i]], rows, items[i]))
      && forall j: nat :: j in idx <==> j < |pairs| && Leads(pairs[j], rows, k)
  {
    var idx, items := Leading(pairs, rows, k), Join(pairs, rows, k);
    LeadingIncreases(pairs, rows, k);
    JoinLed(pairs, rows, k, 0);
    forall i | 0 <= i < |idx| ensures LedTo(pairs[idx[i]], rows, items[i]) { JoinLed(pairs, rows, k, i); }
    forall j: nat ensures j in idx <==> j < |pairs| && Leads(pairs[j], rows, k) { LeadingIff(pairs, rows, k, j); }
  }

  lemma LinkedSets(db: Db, f: nat, pivot: string, table: string, m: Item)
    requires f < |m.rels|
    ensures
      var pairs, after := Pivot(db, pivot), LoadOne(db, f, BelongsToMany(pivot, table), m);
      if exists j :: 0 <= j < |pairs| && pairs[j].0 == m.id then Sets(m, f, Join(pairs, Rows(db, table), m.id), after) else after == m
  {
  }
}
