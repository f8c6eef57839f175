/**
 Soft deletion (database/orm/query.go, database/orm/extra.go): which rows a query selects
 when the sections of its emitted statement are read back by SQL, and which of them are
 deleted ones. The table is given in the query's order.
 */
module SoftDelete {
  import opened Wrappers
  import opened Sequences
  import opened Conditions
  import opened QueryBuilder
  import opened Pagination

  /** A table row: whether its deleted_at is set, and everything else. */
  datatype Row = Row(data: int, deleted: bool)

  /** The truth of the other conditions, as the database sees them. */
  type Truth = (Atom, Row) -> bool

  const IS_NULL := RawAtom("deleted_at IS NULL", [])
  const IS_NOT_NULL := RawAtom("deleted_at IS NOT NULL", [])

  predicate Holds(v: Truth, a: Atom, r: Row) {
    if a == IS_NULL then !r.deleted else if a == IS_NOT_NULL then r.deleted else v(a, r)
  }

  predicate AllHold(v: Truth, g: seq<Atom>, r: Row) { forall i :: 0 <= i < |g| ==> Holds(v, g[i], r) }

  /** An OR of AND-groups; no condition at all is met by every row. */
  predicate Meets(v: Truth, gs: seq<seq<Atom>>, r: Row) { gs == [] || exists i :: 0 <= i < |gs| && AllHold(v, gs[i], r) }

  function Matching(v: Truth, gs: seq<seq<Atom>>, rows: seq<Row>): seq<Row> {
    if rows == [] then [] else (if Meets(v, gs, rows[0]) then [rows[0]] else []) + Matching(v, gs, rows[1..])
  }

  /** The clauses of a query, condition by condition. */
  function Own(q: Query): seq<Piece> { Pieces(EffectiveWheres(q)) }

  /** A query over one table: all columns, no join and no grouping. */
  predicate Plain(q: Query) { q.selects == [] && q.joins == [] && q.groupBy == [] }

  /** The condition SQL reads in the WHERE section; none if there is none. */
  function WhereRead(q: Query): Option<seq<seq<Atom>>> {
    if Own(q) == [] then Some([]) else Understood(q.driver, SelectOf(q).where, SelectArgs(q), 1)
  }

  /** The condition SQL reads in the HAVING section. Without groups it filters rows in MySQL, and the
      other databases refuse it. */
  function HavingRead(q: Query): Option<seq<seq<Atom>>> {
    if q.having == [] then Some([])
    else if !q.driver.MySQL? then None
    else Understood(q.driver, SelectOf(q).having, SelectArgs(q), 1 + |CondArgs(Full, Own(q))|)
  }

  /** OFFSET without LIMIT is PostgreSQL's alone. */
  predicate WindowRefused(q: Query) { SelectOf(q).offset.Some? && SelectOf(q).limit.None? && !q.driver.Postgres? }

  /** Get: the rows selected by the statement the builder emits, or None if SQL refuses it. */
  function Get(q: Query, v: Truth, rows: seq<Row>): Option<seq<Row>>
    requires Plain(q)
  {
    var where, having := WhereRead(q), HavingRead(q);
    if where.None? || having.None? || WindowRefused(q) then None
    else Some(Window(Matching(v, having.value, Matching(v, where.value, rows)), SelectOf(q).limit, SelectOf(q).offset))
  }

  /** Whether SQL accepts the statement. */
  ghost predicate Accepted(q: Query) {
    && AllReadable(Full, q.driver, Own(q))
    && (q.having == [] || (q.driver.MySQL? && AllReadable(Short, q.driver, Tests(q.having))))
    && (q.offset <= 0 || q.limit > 0 || q.driver.Postgres?)
  }

  /** The rows that meet the clauses, before the window. */
  function Unwindowed(q: Query, v: Truth, rows: seq<Row>): seq<Row> {
    Matching(v, Groups(Tests(q.having)), Matching(v, Groups(Own(q)), rows))
  }

  /** The window of a query. */
  function Cut(q: Query, rows: seq<Row>): seq<Row> {
    Window(rows, if q.limit > 0 then Some(q.limit) else None, if q.offset > 0 then Some(q.offset) else None)
  }

  lemma WhereReadIs(q: Query)
    ensures WhereRead(q) == if AllReadable(Full, q.driver, Own(q)) then Some(Groups(Own(q))) else None
  {
    if Own(q) != [] { SelectWhereReads(q, Own(q)); }
  }

  lemma HavingReadIs(q: Query)
    ensures HavingRead(q) ==
            if q.having == [] || (q.driver.MySQL? && AllReadable(Short, q.driver, Tests(q.having))) then Some(Groups(Tests(q.having))) else None
  {
    if q.having != [] { SelectHavingReads(q); } else { assert Tests(q.having) == []; }
  }

  /** The rows of a query that SQL accepts are the window of those that meet the builder's clauses. */
  lemma GetIsMatching(q: Query, v: Truth, rows: seq<Row>)
    requires Plain(q)
    ensures Get(q, v, rows) == if Accepted(q) then Some(Cut(q, Unwindowed(q, v, rows))) else None
  {
    WhereReadIs(q);
    HavingReadIs(q);
  }

  // ------------------------------------------------------------ when deleted rows stay hidden

  /** Whether each AND-group has its own "deleted_at IS NULL". */
  predicate EachGuarded(gs: seq<seq<Atom>>) { gs != [] && forall i :: 0 <= i < |gs| ==> IS_NULL in gs[i] }

  const YES: Truth := (a: Atom, r: Row) => true

  /** A condition that does not need the filter is met by a deleted row if all else is true. */
  lemma Unguarded(gs: seq<seq<Atom>>, r: Row)
    requires !EachGuarded(gs) && r.deleted
    ensures Meets(YES, gs, r)
  {
    if gs != [] {
      var i :| 0 <= i < |gs| && IS_NULL !in gs[i];
      assert AllHold(YES, gs[i], r);
    }
  }

  /** Conditions that do not mention deleted_at are met by every row if all is true. */
  predicate Silent(cs: seq<Piece>) { forall i :: 0 <= i < |cs| ==> AtomOf(cs[i]) != IS_NULL && AtomOf(cs[i]) != IS_NOT_NULL }

  lemma {:induction false} SilentGroup(cs: seq<Piece>)
    requires cs != [] && Silent(cs)
    ensures IS_NULL !in FirstGroup(cs) && IS_NOT_NULL !in FirstGroup(cs)
    decreases |cs|
  {
    if !Alone(cs) { SilentGroup(cs[1..]); }
  }

  lemma SilentMeets(cs: seq<Piece>, r: Row)
    requires Silent(cs)
    ensures Meets(YES, Groups(cs), r)
  {
    if cs != [] {
      SilentGroup(cs);
      assert AllHold(YES, Groups(cs)[0], r);
    }
  }

  lemma TestsSilent(cs: seq<Clause>)
    ensures Silent(Tests(cs))
  {
  }

  /** n times the same row. */
  function Times(r: Row, n: nat): (rows: seq<Row>)
    ensures |rows| == n && forall i :: 0 <= i < n ==> rows[i] == r
  {
    seq(n, i => r)
  }

  lemma {:induction false} AllMatch(v: Truth, gs: seq<seq<Atom>>, rows: seq<Row>)
    requires forall i :: 0 <= i < |rows| ==> Meets(v, gs, rows[i])
    ensures Matching(v, gs, rows) == rows
  {
    if rows != [] {
      AllMatch(v, gs, rows[1..]);
      assert [rows[0]] + rows[1..] == rows;
    }
  }

  lemma Guarded(gs: seq<seq<Atom>>, v: Truth, r: Row)
    requires EachGuarded(gs) && r.deleted
    ensures !Meets(v, gs, r)
  {
    forall i | 0 <= i < |gs|
      ensures !AllHold(v, gs[i], r)
    {
      var j :| 0 <= j < |gs[i]| && gs[i][j] == IS_NULL;
      assert !Holds(v, gs[i][j], r);
    }
  }

  ghost predicate NeverShowsDeleted(q: Query)
    requires Plain(q)
  {
    forall v: Truth, rows: seq<Row> :: Get(q, v, rows).Some? ==> forall r :: r in Get(q, v, rows).value ==> !r.deleted
  }

  /** A window takes its rows from the result. */
  lemma CutWithin(q: Query, rows: seq<Row>, r: Row)
    ensures r in Cut(q, rows) ==> r in rows
  {
  }

  lemma GuardedHides(q: Query, v: Truth, rows: seq<Row>)
    requires EachGuarded(Groups(Own(q)))
    ensures forall r :: r in Cut(q, Unwindowed(q, v, rows)) ==> !r.deleted
  {
    forall r | r in Cut(q, Unwindowed(q, v, rows))
      ensures !r.deleted
    {
      CutWithin(q, Unwindowed(q, v, rows), r);
      MatchingMeets(v, Groups(Tests(q.having)), Matching(v, Groups(Own(q)), rows), r);
      MatchingMeets(v, Groups(Own(q)), rows, r);
      if r.deleted { Guarded(Groups(Own(q)), v, r); }
    }
  }

  /** The smallest table that reaches the window. */
  function Reach(q: Query): nat { 1 + if q.offset > 0 then q.offset else 0 }

  lemma UnguardedShows(q: Query)
    requires !EachGuarded(Groups(Own(q)))
    ensures Row(0, true) in Cut(q, Unwindowed(q, YES, Times(Row(0, true), Reach(q))))
  {
    var r, rows := Row(0, true), Times(Row(0, true), Reach(q));
    Unguarded(Groups(Own(q)), r);
    TestsSilent(q.having);
    SilentMeets(Tests(q.having), r);
    AllMatch(YES, Groups(Own(q)), rows);
    AllMatch(YES, Groups(Tests(q.having)), rows);
    assert Cut(q, rows)[0] == r;
  }

  /** A query hides deleted rows, whatever the data, exactly if SQL refuses it or every alternative of
      its condition has the filter. OrWhere opens an alternative, and so does an OR inside a raw
      text, and the filter stands only in the first. */
  lemma HidesDeletedIff(q: Query)
    requires Plain(q)
    ensures NeverShowsDeleted(q) <==> !Accepted(q) || EachGuarded(Groups(Own(q)))
  {
    if EachGuarded(Groups(Own(q))) || !Accepted(q) {
      forall v: Truth, rows: seq<Row> | Get(q, v, rows).Some?
        ensures forall r :: r in Get(q, v, rows).value ==> !r.deleted
      {
        GetIsMatching(q, v, rows);
        GuardedHides(q, v, rows);
      }
    } else {
      GetIsMatching(q, YES, Times(Row(0, true), Reach(q)));
      UnguardedShows(q);
    }
  }

  lemma {:induction false} MatchingMeets(v: Truth, gs: seq<seq<Atom>>, rows: seq<Row>, r: Row)
    ensures r in Matching(v, gs, rows) <==> r in rows && Meets(v, gs, r)
  {
    if rows != [] { MatchingMeets(v, gs, rows[1..], r); }
  }

  /** A second alternative that does not mention the filter lets a deleted row through. */
  lemma SecondAlternativeLeaks(q: Query, a: Piece, b: Piece)
    requires Plain(q) && q.softDelete && Accepted(q) && !a.isOr && b.isOr && AtomOf(b) != IS_NULL
    requires Own(q) == [a, b]
    ensures !NeverShowsDeleted(q)
  {
    var gs := Groups([a, b]);
    assert [a, b][1..] == [b] && [b][1..] == [];
    assert gs[1..] == Groups([b]) && Groups([b])[0] == [AtomOf(b)];
    assert IS_NULL !in gs[1];
    HidesDeletedIff(q);
  }

  lemma FilterPiece(q: Query)
    requires q.softDelete
    ensures Own(q) == [RawPiece(false, "deleted_at IS NULL", [])] + Pieces(q.wheres)
  {
    FilterFirst(NOT_DELETED, q.wheres);
  }

  /** A single OrWhere is enough to let a deleted row through. */
  lemma OrWhereLeaks(q: Query)
    requires Plain(q) && Accepted(q) && q.softDelete && q.wheres == [Clause("age", Greater, Scalar(1), true, [])]
    ensures !NeverShowsDeleted(q)
  {
    var b := Test(true, "age", Greater, Scalar(1));
    FilterPiece(q);
    PiecesOne(q.wheres[0]);
    assert Own(q) == [RawPiece(false, "deleted_at IS NULL", []), b];
    SecondAlternativeLeaks(q, Own(q)[0], b);
  }

  // ------------------------------------------------------------ builders without any OR

  /** The text "a = 1 OR b = 2", given to WhereRaw. */
  const A_OR_B := Clause("", Blank, Scalar(0), false, [RawPart(false, "a = 1", []), RawPart(true, "b = 2", [])])

  predicate Conjunctive(cs: seq<Piece>) { forall i :: 0 <= i < |cs| ==> !cs[i].isOr }

  /** The clause is joined by AND and there is no OR inside its raw text. */
  predicate WithoutOr(c: Clause) { !c.isOr && forall i :: 1 <= i < |c.raw| ==> !c.raw[i].isOr }

  predicate AllWithoutOr(cs: seq<Clause>) { forall i :: 0 <= i < |cs| ==> WithoutOr(cs[i]) }

  lemma PieceWithoutOr(c: Clause)
    ensures Conjunctive(PiecesOf(c)) <==> WithoutOr(c)
  {
    var ps := PiecesOf(c);
    if c.raw != [] {
      assert forall i :: 1 <= i < |c.raw| ==> ps[i].isOr == c.raw[i].isOr;
    }
  }

  lemma ConjunctiveConcat(a: seq<Piece>, b: seq<Piece>)
    ensures Conjunctive(a + b) <==> Conjunctive(a) && Conjunctive(b)
  {
    assert forall i :: 0 <= i < |a| ==> (a + b)[i] == a[i];
    assert forall i :: 0 <= i < |b| ==> (a + b)[|a| + i] == b[i];
  }

  /** The conditions are all joined by AND exactly if no clause is an OrWhere and none has an OR
      inside its raw text. */
  lemma {:induction false} ConjunctiveIff(cs: seq<Clause>)
    ensures Conjunctive(Pieces(cs)) <==> AllWithoutOr(cs)
  {
    if cs != [] {
      ConjunctiveIff(cs[1..]);
      PieceWithoutOr(cs[0]);
      ConjunctiveConcat(PiecesOf(cs[0]), Pieces(cs[1..]));
      assert forall i :: 1 <= i < |cs| ==> cs[i] == cs[1..][i - 1];
      assert forall i :: 0 <= i < |cs[1..]| ==> cs[1..][i] == cs[i + 1];
    }
  }

  /** An OR inside a raw text, which is written without parentheses, leaks just like an OrWhere. */
  lemma RawOrLeaks(q: Query)
    requires Plain(q) && Accepted(q) && q.softDelete && q.wheres == [A_OR_B]
    ensures !NeverShowsDeleted(q)
  {
    var f, a, b := RawPiece(false, "deleted_at IS NULL", []), RawPiece(false, "a = 1", []), RawPiece(true, "b = 2", []);
    FilterPiece(q);
    PiecesOne(A_OR_B);
    assert PiecesOf(A_OR_B) == [a, b];
    assert Own(q) == [f, a, b] && [f, a, b][1..] == [a, b] && [a, b][1..] == [b] && [b][1..] == [];
    assert Others([f, a, b]) == Others([a, b]) == [b];
    var gs := Groups([f, a, b]);
    assert gs[1..] == Groups([b]) && Groups([b])[0] == [AtomOf(b)];
    assert IS_NULL !in gs[1];
    HidesDeletedIff(q);
  }

  lemma {:induction false} OneGroup(cs: seq<Piece>)
    requires cs != [] && Conjunctive(cs)
    ensures FirstGroup(cs) == Atoms(cs) && Others(cs) == [] && Groups(cs) == [Atoms(cs)]
    decreases |cs|
  {
    if |cs| > 1 {
      OneGroup(cs[1..]);
    } else {
      assert cs[1..] == [] && Atoms(cs) == [AtomOf(cs[0])];
    }
  }

  function Marked(deleted: bool, rows: seq<Row>): seq<Row> {
    if rows == [] then [] else (if rows[0].deleted == deleted then [rows[0]] else []) + Marked(deleted, rows[1..])
  }

  function Filter(deleted: bool): Piece { RawPiece(false, if deleted then "deleted_at IS NOT NULL" else "deleted_at IS NULL", []) }

  /** Putting the filter in front of a conjunction adds one requirement on the row. */
  lemma FilterInFront(v: Truth, deleted: bool, cs: seq<Piece>, r: Row)
    requires Conjunctive(cs)
    ensures Meets(v, Groups([Filter(deleted)] + cs), r) <==> r.deleted == deleted && Meets(v, Groups(cs), r)
  {
    var f, all := AtomOf(Filter(deleted)), [Filter(deleted)] + cs;
    assert all[1..] == cs;
    OneGroup(all);
    assert Atoms(all) == [f] + Atoms(cs);
    assert AllHold(v, [f] + Atoms(cs), r) <==> Holds(v, f, r) && AllHold(v, Atoms(cs), r) by {
      assert ([f] + Atoms(cs))[0] == f;
      assert forall i :: 0 <= i < |Atoms(cs)| ==> ([f] + Atoms(cs))[i + 1] == Atoms(cs)[i];
    }
    assert Meets(v, [Atoms(all)], r) <==> AllHold(v, Atoms(all), r) by { assert [Atoms(all)][0] == Atoms(all); }
    if cs != [] {
      OneGroup(cs);
      assert Meets(v, [Atoms(cs)], r) <==> AllHold(v, Atoms(cs), r) by { assert [Atoms(cs)][0] == Atoms(cs); }
    }
  }

  lemma {:induction false} FilterMatching(v: Truth, deleted: bool, cs: seq<Piece>, rows: seq<Row>)
    requires Conjunctive(cs)
    ensures Matching(v, Groups([Filter(deleted)] + cs), rows) == Marked(deleted, Matching(v, Groups(cs), rows))
  {
    if rows != [] {
      FilterMatching(v, deleted, cs, rows[1..]);
      FilterInFront(v, deleted, cs, rows[0]);
      var rest := Matching(v, Groups(cs), rows[1..]);
      if Meets(v, Groups(cs), rows[0]) {
        assert ([rows[0]] + rest)[1..] == rest;
      } else {
        assert [] + rest == rest;
      }
    }
  }

  lemma FilteredReadable(d: Driver, deleted: bool, cs: seq<Piece>)
    ensures AllReadable(Full, d, [Filter(deleted)] + cs) <==> AllReadable(Full, d, cs)
  {
    var all := [Filter(deleted)] + cs;
    assert forall i :: 0 <= i < |cs| ==> all[i + 1] == cs[i];
  }

  lemma OwnOf(q: Query)
    requires q.softDelete
    ensures Own(q) == [Filter(false)] + Pieces(q.wheres) && Own(OnlyTrashedOf(q)) == [Filter(true)] + Pieces(q.wheres)
    ensures Own(WithTrashedOf(q)) == Pieces(q.wheres)
  {
    FilterFirst(NOT_DELETED, q.wheres);
    FilterFirst(DELETED, q.wheres);
  }

  lemma {:induction false} MarkedMatching(v: Truth, gs: seq<seq<Atom>>, deleted: bool, rows: seq<Row>)
    ensures Matching(v, gs, Marked(deleted, rows)) == Marked(deleted, Matching(v, gs, rows))
  {
    if rows != [] {
      MarkedMatching(v, gs, deleted, rows[1..]);
      var r, kept, met := rows[0], Marked(deleted, rows[1..]), Matching(v, gs, rows[1..]);
      Nothing(kept);
      Nothing(met);
      assert ([r] + kept)[1..] == kept && ([r] + met)[1..] == met;
    }
  }

  lemma SameAcceptance(q: Query)
    requires q.softDelete
    ensures Accepted(WithTrashedOf(q)) <==> Accepted(q)
    ensures Accepted(OnlyTrashedOf(q)) <==> Accepted(q)
  {
    OwnOf(q);
    FilteredReadable(q.driver, false, Pieces(q.wheres));
    FilteredReadable(q.driver, true, Pieces(q.wheres));
  }

  /** Without OrWhere and without an OR inside a raw text, the default query and OnlyTrashed take
      their windows from the two parts into which the deleted flag splits what WithTrashed takes
      its window from; SQL refuses all three or none. */
  lemma DefaultAndTrashedSplit(q: Query, v: Truth, rows: seq<Row>)
    requires Plain(q) && q.softDelete && AllWithoutOr(q.wheres)
    ensures
      if !Accepted(q) then Get(q, v, rows).None? && Get(WithTrashedOf(q), v, rows).None? && Get(OnlyTrashedOf(q), v, rows).None?
      else
        var all := Unwindowed(WithTrashedOf(q), v, rows);
        && Get(WithTrashedOf(q), v, rows) == Some(Cut(q, all))
        && Get(q, v, rows) == Some(Cut(q, Marked(false, all)))
        && Get(OnlyTrashedOf(q), v, rows) == Some(Cut(q, Marked(true, all)))
  {
    var cs, hs := Pieces(q.wheres), Groups(Tests(q.having));
    OwnOf(q);
    ConjunctiveIff(q.wheres);
    SameAcceptance(q);
    GetIsMatching(q, v, rows);
    GetIsMatching(WithTrashedOf(q), v, rows);
    GetIsMatching(OnlyTrashedOf(q), v, rows);
    FilterMatching(v, false, cs, rows);
    FilterMatching(v, true, cs, rows);
    MarkedMatching(v, hs, false, Matching(v, Groups(cs), rows));
    MarkedMatching(v, hs, true, Matching(v, Groups(cs), rows));
  }

  /** The results themselves split: default and OnlyTrashed yield exactly the rows of WithTrashed that
      are not deleted, and that are. */
  ghost predicate Splits(q: Query, v: Truth, rows: seq<Row>)
    requires Plain(q)
  {
    match Get(WithTrashedOf(q), v, rows)
    case None => Get(q, v, rows).None? && Get(OnlyTrashedOf(q), v, rows).None?
    case Some(all) => Get(q, v, rows) == Some(Marked(false, all)) && Get(OnlyTrashedOf(q), v, rows) == Some(Marked(true, all))
  }

  /** Deleted rows that fill the window of WithTrashed, or what it skips, and then a live one. */
  function Crowd(q: Query): (rows: seq<Row>)
    requires q.limit > 0 || q.offset > 0
    ensures |rows| == 1 + if q.offset > 0 then q.offset else q.limit
  {
    Times(Row(0, true), if q.offset > 0 then q.offset else q.limit) + [Row(0, false)]
  }

  lemma {:induction false} MarkedTimes(r: Row, n: nat, rest: seq<Row>)
    requires r.deleted
    ensures Marked(false, Times(r, n) + rest) == Marked(false, rest)
  {
    if n == 0 {
      assert Times(r, n) + rest == rest;
    } else {
      var rows := Times(r, n) + rest;
      assert rows[0] == r && rows[1..] == Times(r, n - 1) + rest;
      MarkedTimes(r, n - 1, rest);
      Nothing(Marked(false, rows[1..]));
    }
  }

  /** On such a table the parts of the windows are not the windows of the parts. */
  lemma CrowdFails(q: Query)
    requires q.limit > 0 || q.offset > 0
    ensures Cut(q, Marked(false, Crowd(q))) != Marked(false, Cut(q, Crowd(q)))
  {
    var dead, live := Row(0, true), Row(0, false);
    var n, rows := if q.offset > 0 then q.offset else q.limit, Crowd(q);
    MarkedTimes(dead, n, [live]);
    assert Marked(false, [live]) == [live] by { assert [live][1..] == []; }
    if q.offset > 0 {
      assert rows[n..] == [live];
      assert Cut(q, rows) == [live] && Cut(q, [live]) == [];
    } else {
      assert Cut(q, rows) == Times(dead, n) + [];
      MarkedTimes(dead, n, []);
      assert Cut(q, [live]) == [live];
    }
  }

  lemma SilentUnwindowed(q: Query, rows: seq<Row>)
    requires q.softDelete && Silent(Pieces(q.wheres))
    ensures Unwindowed(WithTrashedOf(q), YES, rows) == rows
  {
    OwnOf(q);
    TestsSilent(q.having);
    forall i | 0 <= i < |rows|
      ensures Meets(YES, Groups(Pieces(q.wheres)), rows[i]) && Meets(YES, Groups(Tests(q.having)), rows[i])
    {
      SilentMeets(Pieces(q.wheres), rows[i]);
      SilentMeets(Tests(q.having), rows[i]);
    }
    AllMatch(YES, Groups(Pieces(q.wheres)), rows);
    AllMatch(YES, Groups(Tests(q.having)), rows);
  }

  lemma NoWindow(q: Query, rows: seq<Row>)
    requires q.limit <= 0 && q.offset <= 0
    ensures Cut(q, rows) == rows
  {
  }

  /** For a builder without any OR whose own conditions do not mention deleted_at, the results split,
      whatever the data, exactly if SQL refuses it or it has no limit and no offset. */
  lemma SplitsIff(q: Query)
    requires Plain(q) && q.softDelete && AllWithoutOr(q.wheres) && Silent(Pieces(q.wheres))
    ensures (forall v: Truth, rows: seq<Row> :: Splits(q, v, rows)) <==> !Accepted(q) || (q.limit <= 0 && q.offset <= 0)
  {
    if !Accepted(q) {
      forall v: Truth, rows: seq<Row> ensures Splits(q, v, rows) { DefaultAndTrashedSplit(q, v, rows); }
    } else if q.limit <= 0 && q.offset <= 0 {
      forall v: Truth, rows: seq<Row>
        ensures Splits(q, v, rows)
      {
        DefaultAndTrashedSplit(q, v, rows);
        var all := Unwindowed(WithTrashedOf(q), v, rows);
        NoWindow(q, all);
        NoWindow(q, Marked(false, all));
        NoWindow(q, Marked(true, all));
      }
    } else {
      DefaultAndTrashedSplit(q, YES, Crowd(q));
      SilentUnwindowed(q, Crowd(q));
      CrowdFails(q);
      assert !Splits(q, YES, Crowd(q));
    }
  }

  /** The two parts are disjoint and together they are everything. */
  lemma {:induction false} MarkedSplits(rows: seq<Row>)
    ensures multiset(Marked(false, rows)) + multiset(Marked(true, rows)) == multiset(rows)
    ensures forall r :: r in Marked(false, rows) ==> !r.deleted
    ensures forall r :: r in Marked(true, rows) ==> r.deleted
  {
    if rows != [] {
      MarkedSplits(rows[1..]);
      assert rows == [rows[0]] + rows[1..];
      assert [] + Marked(!rows[0].deleted, rows[1..]) == Marked(!rows[0].deleted, rows[1..]);
    }
  }

  // ------------------------------------------------------------ DeleteAll

  /** The soft form of DeleteAll: deleted_at is set on the rows that meet the condition. */
  function Delete(v: Truth, gs: seq<seq<Atom>>, rows: seq<Row>): seq<Row> {
    if rows == [] then []
    else [if Meets(v, gs, rows[0]) then rows[0].(deleted := true) else rows[0]] + Delete(v, gs, rows[1..])
  }

  /** The table after DeleteAll, as the database understands its statement. */
  function AfterDeleteAll(q: Query, now: Value, v: Truth, rows: seq<Row>): Option<seq<Row>>
    requires q.softDelete
  {
    match Understood(q.driver, DeleteOf(q, now).where, DeleteArgs(q, now), 2)
    case None => None
    case Some(gs) => Some(Delete(v, gs, rows))
  }

  lemma DeleteAllIsDelete(q: Query, now: Value, v: Truth, rows: seq<Row>)
    requires q.softDelete
    ensures AfterDeleteAll(q, now, v, rows) == if AllReadable(Full, q.driver, Own(q)) then Some(Delete(v, Groups(Own(q)), rows)) else None
  {
    OwnOf(q);
    DeleteReads(q, now, Own(q));
  }

  lemma {:induction false} DeleteAt(v: Truth, gs: seq<seq<Atom>>, rows: seq<Row>, i: nat)
    ensures |Delete(v, gs, rows)| == |rows|
    ensures i < |rows| ==> Delete(v, gs, rows)[i] == if Meets(v, gs, rows[i]) then Row(rows[i].data, true) else rows[i]
  {
    if rows != [] { DeleteAt(v, gs, rows[1..], if i == 0 then 0 else i - 1); }
  }

  /** DeleteAll marks exactly the rows that meet the builder's condition, and leaves every other row, and the
      order of all, as it was. */
  lemma DeleteAllSparesOthers(q: Query, now: Value, v: Truth, rows: seq<Row>, i: nat)
    requires q.softDelete && AfterDeleteAll(q, now, v, rows).Some? && i < |rows|
    ensures
      var after := AfterDeleteAll(q, now, v, rows).value;
      |after| == |rows| && after[i] == if Meets(v, Groups(Own(q)), rows[i]) then Row(rows[i].data, true) else rows[i]
  {
    DeleteAllIsDelete(q, now, v, rows);
    DeleteAt(v, Groups(Own(q)), rows, i);
  }

  lemma {:induction false} NothingLeft(v: Truth, cs: seq<Piece>, rows: seq<Row>)
    requires Conjunctive(cs)
    ensures var gs := Groups([Filter(false)] + cs); Matching(v, gs, Delete(v, gs, rows)) == []
  {
    if rows != [] {
      var gs := Groups([Filter(false)] + cs);
      NothingLeft(v, cs, rows[1..]);
      FilterInFront(v, false, cs, Delete(v, gs, rows)[0]);
      assert Delete(v, gs, rows)[1..] == Delete(v, gs, rows[1..]);
    }
  }

  /** The builder's own conditions do not look at deleted_at. */
  ghost predicate Blind(v: Truth, cs: seq<Piece>) {
    forall data: int :: Meets(v, Groups(cs), Row(data, false)) <==> Meets(v, Groups(cs), Row(data, true))
  }

  function AsDeleted(rows: seq<Row>): seq<Row> { if rows == [] then [] else [rows[0].(deleted := true)] + AsDeleted(rows[1..]) }

  lemma {:induction false} AllMoved(v: Truth, cs: seq<Piece>, rows: seq<Row>)
    requires Conjunctive(cs) && Blind(v, cs)
    ensures Matching(v, Groups([Filter(true)] + cs), Delete(v, Groups([Filter(false)] + cs), rows)) == AsDeleted(Matching(v, Groups(cs), rows))
  {
    if rows != [] {
      var gs := Groups([Filter(false)] + cs);
      AllMoved(v, cs, rows[1..]);
      var after := Delete(v, gs, rows);
      FilterInFront(v, false, cs, rows[0]);
      FilterInFront(v, true, cs, after[0]);
      assert after[1..] == Delete(v, gs, rows[1..]);
      var r, rest := rows[0], Matching(v, Groups(cs), rows[1..]);
      assert Meets(v, Groups(cs), Row(r.data, false)) <==> Meets(v, Groups(cs), Row(r.data, true));
      assert [] + rest == rest && ([r] + rest)[1..] == rest;
    }
  }

  lemma {:induction false} AsDeletedAt(rows: seq<Row>)
    ensures |AsDeleted(rows)| == |rows| && forall i :: 0 <= i < |rows| ==> AsDeleted(rows)[i] == rows[i].(deleted := true)
  {
    if rows != [] { AsDeletedAt(rows[1..]); }
  }

  /** The window is a slice that depends on the number of rows alone. */
  lemma CutSlice(q: Query, rows: seq<Row>, others: seq<Row>) returns (from: nat, to: nat)
    requires |rows| == |others|
    ensures from <= to <= |rows| && Cut(q, rows) == rows[from..to] && Cut(q, others) == others[from..to]
  {
    from := if q.offset <= 0 then 0 else if q.offset <= |rows| then q.offset else |rows|;
    to := if q.limit <= 0 || |rows| - from <= q.limit then |rows| else from + q.limit;
    assert rows[from..][..to - from] == rows[from..to] && others[from..][..to - from] == others[from..to];
  }

  lemma CutAsDeleted(q: Query, rows: seq<Row>)
    ensures Cut(q, AsDeleted(rows)) == AsDeleted(Cut(q, rows))
  {
    var dead := AsDeleted(rows);
    AsDeletedAt(rows);
    var from, to := CutSlice(q, rows, dead);
    AsDeletedAt(rows[from..to]);
    assert dead[from..to] == AsDeleted(rows[from..to]);
  }

  lemma {:induction false} MatchingAsDeleted(v: Truth, cs: seq<Piece>, rows: seq<Row>)
    requires Blind(v, cs)
    ensures Matching(v, Groups(cs), AsDeleted(rows)) == AsDeleted(Matching(v, Groups(cs), rows))
  {
    if rows != [] {
      var r, dead, met := rows[0], AsDeleted(rows[1..]), Matching(v, Groups(cs), rows[1..]);
      MatchingAsDeleted(v, cs, rows[1..]);
      assert Meets(v, Groups(cs), Row(r.data, false)) <==> Meets(v, Groups(cs), Row(r.data, true));
      assert AsDeleted(rows)[1..] == dead && ([r] + met)[1..] == met;
      Nothing(met);
    }
  }

  lemma NothingMatches(v: Truth, gs: seq<seq<Atom>>, q: Query)
    ensures Cut(q, Matching(v, gs, [])) == []
  {
  }

  /** DeleteAll looks at the condition alone: it is accepted exactly if that is readable. After it
      the same query, if accepted, finds nothing, and OnlyTrashed finds, marked as deleted, exactly
      the rows that WithTrashed had found before: none is lost. */
  lemma DeleteAllMovesToTrash(q: Query, now: Value, v: Truth, rows: seq<Row>)
    requires Plain(q) && q.softDelete && AllWithoutOr(q.wheres)
    ensures AfterDeleteAll(q, now, v, rows).Some? <==> AllReadable(Full, q.driver, Own(q))
    ensures Accepted(q) ==>
      && AfterDeleteAll(q, now, v, rows).Some?
      && var after := AfterDeleteAll(q, now, v, rows).value;
         && Get(q, v, after) == Some([])
         && Get(WithTrashedOf(q), v, rows).Some?
         && (Blind(v, Pieces(q.wheres)) && Blind(v, Tests(q.having)) ==>
              Get(OnlyTrashedOf(q), v, after) == Some(AsDeleted(Get(WithTrashedOf(q), v, rows).value)))
  {
    DeleteAllIsDelete(q, now, v, rows);
    if Accepted(q) {
      var cs, hs, after := Pieces(q.wheres), Groups(Tests(q.having)), AfterDeleteAll(q, now, v, rows).value;
      OwnOf(q);
      ConjunctiveIff(q.wheres);
      SameAcceptance(q);
      GetIsMatching(q, v, after);
      NothingLeft(v, cs, rows);
      NothingMatches(v, hs, q);
      GetIsMatching(WithTrashedOf(q), v, rows);
      if Blind(v, cs) && Blind(v, Tests(q.having)) {
        GetIsMatching(OnlyTrashedOf(q), v, after);
        AllMoved(v, cs, rows);
        MatchingAsDeleted(v, Tests(q.having), Matching(v, Groups(cs), rows));
        CutAsDeleted(q, Unwindowed(WithTrashedOf(q), v, rows));
      }
    }
  }
}
