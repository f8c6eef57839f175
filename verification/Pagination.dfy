/**
 Count and Paginate (database/orm/query.go): terminal operations that run statements built
 from a copy of the caller's builder. The database answers a statement, without its select
 list and its window, with an ordered result or an error; LIMIT and OFFSET then cut a window
 out of that result. Counting is another statement, which the database may refuse.
 */
module Pagination {
  import opened Wrappers
  import opened GoTypes
  import opened Numerals
  import opened Conditions
  import opened QueryBuilder

  /** The rows of a statement, and the counts that COUNT(*) yields for one with GROUP BY or HAVING,
      one for each group; None is an error. */
  datatype Database<!T> = Database(
    rows: (Statement, seq<Value>) -> Option<seq<T>>,
    groups: (Statement, seq<Value>) -> Option<seq<nat>>)

  datatype Page<T> = Page(items: seq<T>, total: int, page: int, perPage: int, totalPages: int)

  // ------------------------------------------------------------ the database

  function Unpaged(sql: Statement): Statement
    requires sql.Select?
  {
    sql.(selects := [], limit := None, offset := None)
  }

  function Window<T>(rows: seq<T>, limit: Option<int>, offset: Option<int>): seq<T> {
    var from := if offset.None? || offset.value <= 0 then 0 else if offset.value <= |rows| then offset.value else |rows|;
    var rest := rows[from..];
    if limit.None? || limit.value < 0 || |rest| <= limit.value then rest else rest[..limit.value]
  }

  function Execute<T>(db: Database<T>, sql: Statement, args: seq<Value>): Option<seq<T>>
    requires sql.Select?
  {
    match db.rows(Unpaged(sql), args)
    case None => None
    case Some(rows) => Some(Window(rows, sql.limit, sql.offset))
  }

  function Lower(s: string): string {
    if s == "" then "" else [if 'A' <= s[0] <= 'Z' then s[0] - 'A' + 'a' else s[0]] + Lower(s[1..])
  }

  /** An order that refers to the counted column itself, by its name or its position. */
  predicate OrdersByCount(o: Order) {
    Lower(o.column) == "cnt" || (o.column != "" && AllDigits(o.column) && DigitsValue(o.column) == 1)
  }

  /** PostgreSQL lets an aggregate without GROUP BY be ordered by itself only, and not be locked. */
  predicate RefusesCount(d: Driver, sql: Statement)
    requires sql.Select?
  {
    d.Postgres? && (sql.forUpdate || exists i :: 0 <= i < |sql.orders| && !OrdersByCount(sql.orders[i]))
  }

  /** The first number that a COUNT(*) statement yields: with groups there is one for each group,
      and without them a single one, which an OFFSET would skip. */
  function ExecuteCount<T>(db: Database<T>, d: Driver, sql: Statement, args: seq<Value>): Option<nat>
    requires sql.Select?
  {
    if sql.groupBy != [] || sql.having != [] then
      (match db.groups(Unpaged(sql), args)
       case None => None
       case Some(counts) => if counts == [] || sql.offset.Some? then None else Some(counts[0]))
    else if RefusesCount(d, sql) || sql.offset.Some? then None
    else
      match db.rows(Unpaged(sql), args)
      case None => None
      case Some(rows) => Some(|rows|)
  }

  /** Everything the query matches, in order: its own limit and offset play no part. */
  function FullResult<T>(db: Database<T>, q: Query): Option<seq<T>> { db.rows(Unpaged(SelectOf(q)), SelectArgs(q)) }

  /** The statement that counts. */
  function CountOf(q: Query): Query { q.(selects := ["COUNT(*) AS cnt"], limit := 0, offset := 0) }

  function CountResult<T>(db: Database<T>, q: Query): Option<nat> {
    ExecuteCount(db, q.driver, SelectOf(CountOf(q)), SelectArgs(CountOf(q)))
  }

  // ------------------------------------------------------------ when counting counts the rows

  /** No grouping, and on PostgreSQL no order (other than by the count) and no lock. */
  predicate Countable(q: Query) {
    && q.groupBy == [] && q.having == []
    && (q.driver.Postgres? ==> !q.forUpdate && forall i :: 0 <= i < |q.orders| ==> OrdersByCount(q.orders[i]))
  }

  /** The number of rows of the full result, or an error if there is none. */
  function Expected<T>(db: Database<T>, q: Query): Option<nat> {
    match FullResult(db, q)
    case None => None
    case Some(rows) => Some(|rows|)
  }

  lemma CountableCounts<T>(db: Database<T>, q: Query)
    requires Countable(q)
    ensures CountResult(db, q) == Expected(db, q)
  {
    assert Unpaged(SelectOf(CountOf(q))) == Unpaged(SelectOf(q));
  }

  lemma HavingEmptyIff(q: Query)
    ensures SelectOf(q).having == [] <==> q.having == []
  {
    if q.having != [] {
      var cs := Tests(q.having);
      assert SelectOf(q).having[0] == Col(cs[0].column);
    }
  }

  lemma UncountableMiscounts(q: Query)
    requires !Countable(q)
    ensures exists db: Database<int> :: CountResult(db, q) != Expected(db, q)
  {
    var db := Database((sql: Statement, args: seq<Value>) => Some([0]), (sql: Statement, args: seq<Value>) => Some([2]));
    HavingEmptyIff(CountOf(q));
    assert Expected(db, q) == Some(1);
    assert CountResult(db, q) != Some(1);
  }

  /** Count yields the number of rows, on every database, exactly if the query is countable: with
      groups it yields the size of the first one, and PostgreSQL refuses the rest. */
  lemma CountsRowsIff(q: Query)
    ensures (forall db: Database<int> :: CountResult(db, q) == Expected(db, q)) <==> Countable(q)
  {
    if Countable(q) {
      forall db: Database<int> ensures CountResult(db, q) == Expected(db, q) { CountableCounts(db, q); }
    } else {
      UncountableMiscounts(q);
    }
  }

  /** So on PostgreSQL an ordered query can be neither counted nor paginated. */
  lemma OrderedPostgresRefused<T>(db: Database<T>, q: Query)
    requires q.driver.Postgres? && q.groupBy == [] && q.having == [] && q.orders == [Order("id", false)]
    ensures CountResult(db, q).None?
  {
    HavingEmptyIff(CountOf(q));
    assert Lower("id") == "id" by { assert "id"[1..] == "d" && "d"[1..] == ""; }
    assert !IsDigit("id"[0]);
    assert !OrdersByCount(SelectOf(CountOf(q)).orders[0]);
  }

  // ------------------------------------------------------------ the operations

  /** Neither operation has a modifies clause: the caller's builder stays as it is. */
  method Count<T>(q: Builder, db: Database<T>) returns (count: Option<nat>)
    ensures count == CountResult(db, q.State())
    ensures Countable(q.State()) ==> count == Expected(db, q.State())
  {
    var cq := q.Clone();
    cq.selects := ["COUNT(*) AS cnt"];
    cq.limitVal, cq.offsetVal := 0, 0;
    assert cq.State() == CountOf(q.State());
    var sql, args := cq.BuildSelect();
    count := ExecuteCount(db, q.driver, sql, args);
    if Countable(q.State()) { CountableCounts(db, q.State()); }
  }

  function PageNumber(page: int): int { if page < 1 then 1 else page }
  function PerPage(perPage: int): int { if perPage < 1 then 20 else perPage }

  function TotalPages(n: nat, per: int): nat
    requires per > 0
  {
    n / per + if n % per != 0 then 1 else 0
  }

  /** The offset, computed in 64 bits. */
  function OffsetOf(page: int, per: int): Int64 { Wrap((page - 1) * per) }

  /** What Paginate answers, given everything the query matches. */
  function PageOf<T>(full: seq<T>, page: int, perPage: int): Page<T> { PageWith(full, |full|, page, perPage) }

  function PageWith<T>(full: seq<T>, total: nat, page: int, perPage: int): Page<T> {
    var p, per := PageNumber(page), PerPage(perPage);
    Page(Window(full, Some(per), Some(OffsetOf(p, per))), total, p, per, TotalPages(total, per))
  }

  lemma WindowOfFull<T>(db: Database<T>, q: Query, limit: int, offset: int)
    requires limit > 0
    ensures
      var pq := q.(limit := limit, offset := offset);
      Execute(db, SelectOf(pq), SelectArgs(pq)) ==
        match FullResult(db, q)
        case None => None
        case Some(full) => Some(Window(full, Some(limit), Some(offset)))
  {
    assert Unpaged(SelectOf(q.(limit := limit, offset := offset))) == Unpaged(SelectOf(q));
  }

  /** Get on a copy of the builder with another window. */
  method GetWindow<T>(q: Builder, limit: int, offset: int, db: Database<T>) returns (items: Option<seq<T>>)
    requires limit > 0
    ensures items ==
      match FullResult(db, q.State())
      case None => None
      case Some(full) => Some(Window(full, Some(limit), Some(offset)))
  {
    var pq := q.Clone();
    pq.limitVal, pq.offsetVal := limit, offset;
    var sql, args := pq.BuildSelect();
    items := Execute(db, sql, args);
    WindowOfFull(db, q.State(), limit, offset);
    assert pq.State() == q.State().(limit := limit, offset := offset);
  }

  /** The answer to Paginate: an error if either statement fails. */
  function PaginateResult<T>(db: Database<T>, q: Query, page: int, perPage: int): Option<Page<T>> {
    var total, full := CountResult(db, q), FullResult(db, q);
    if total.None? || full.None? then None else Some(PageWith(full.value, total.value, page, perPage))
  }

  /** For a countable query it is the page of the full result. */
  lemma CountablePages<T>(db: Database<T>, q: Query, page: int, perPage: int)
    requires Countable(q)
    ensures PaginateResult(db, q, page, perPage) ==
      match FullResult(db, q)
      case None => None
      case Some(full) => Some(PageOf(full, page, perPage))
  {
    CountableCounts(db, q);
  }

  /** The answer says which page it is and how long a page is: the first, and twenty, unless asked otherwise. */
  lemma PageNumbers<T>(db: Database<T>, q: Query, page: int, perPage: int)
    ensures
      var r := PaginateResult(db, q, page, perPage);
      r.Some? ==>
        && r.value.page == (if page < 1 then 1 else page) && r.value.perPage == (if perPage < 1 then 20 else perPage)
        && CountResult(db, q) == Some(r.value.total) && |r.value.items| <= r.value.perPage
  {
  }

  method Paginate<T>(q: Builder, page: Int64, perPage: Int64, db: Database<T>) returns (result: Option<Page<T>>)
    ensures result == PaginateResult(db, q.State(), page, perPage)
  {
    var p, per: int := page, perPage;
    if p < 1 { p := 1; }
    if per < 1 { per := 20; }
    var total := Count(q, db);
    if total.None? { return None; }
    var items := GetWindow(q, per, OffsetOf(p, per), db);
    if items.None? { return None; }
    var totalPages := total.value / per;
    if total.value % per != 0 { totalPages := totalPages + 1; }
    result := Some(Page(items.value, total.value, p, per, totalPages));
  }

  // ------------------------------------------------------------ the pages make up the result

  lemma WrapInRange(x: int)
    requires 0 <= x <= MAX_INT
    ensures Wrap(x) == x
  {
  }

  lemma Monotone(a: nat, b: nat, per: nat)
    requires a <= b
    ensures a * per <= b * per
  {
  }

  lemma Quotient(n: nat, per: nat, t: nat, r: nat, k: nat)
    requires n == t * per + r && r < per
    ensures k * per < n <==> k < t + if r != 0 then 1 else 0
  {
    if k < t {
      Monotone(k + 1, t, per);
      assert (k + 1) * per == k * per + per;
    } else if k > t {
      Monotone(t + 1, k, per);
      assert (t + 1) * per == t * per + per;
    }
  }

  /** k pages leave something over exactly if there are more than k. */
  lemma MorePages(n: nat, per: nat, k: nat)
    requires per > 0
    ensures k * per < n <==> k < TotalPages(n, per)
  {
    Quotient(n, per, n / per, n % per, k);
  }

  function Ends(full: nat, k: nat, per: nat): nat { if k * per < full then k * per else full }

  lemma NextEnd(k: nat, per: nat)
    requires k >= 1
    ensures k * per == (k - 1) * per + per
  {
  }

  /** A page up to TotalPages is its slice of the result; no offset up to there overflows. */
  lemma PageIsSlice<T>(full: seq<T>, k: nat, perPage: Int64)
    requires |full| <= MAX_INT && 1 <= k <= TotalPages(|full|, PerPage(perPage))
    ensures
      var from, to := Ends(|full|, k - 1, PerPage(perPage)), Ends(|full|, k, PerPage(perPage));
      from < to && PageOf(full, k, perPage).items == full[from..to]
  {
    var per := PerPage(perPage);
    MorePages(|full|, per, k - 1);
    var start := (k - 1) * per;
    WrapInRange(start);
    NextEnd(k, per);
    SliceOfWindow(full, start, per);
  }

  lemma SliceOfWindow<T>(full: seq<T>, start: nat, per: nat)
    requires start <= |full|
    ensures Window(full, Some(per), Some(start)) == full[start..if start + per < |full| then start + per else |full|]
  {
  }

  /** Every page before the last is full, and the last is not empty. */
  lemma OnlyTheLastIsShort<T>(full: seq<T>, k: nat, perPage: Int64)
    requires |full| <= MAX_INT && 1 <= k <= TotalPages(|full|, PerPage(perPage))
    ensures
      var n, per := |PageOf(full, k, perPage).items|, PerPage(perPage);
      0 < n <= per && (k < TotalPages(|full|, per) ==> n == per)
  {
    var per := PerPage(perPage);
    PageIsSlice(full, k, perPage);
    MorePages(|full|, per, k - 1);
    MorePages(|full|, per, k);
    NextEnd(k, per);
  }

  /** The items of pages 1 to k, one after the other. */
  function Pages<T>(full: seq<T>, perPage: int, k: nat): seq<T> {
    if k == 0 then [] else Pages(full, perPage, k - 1) + PageOf(full, k, perPage).items
  }

  lemma SlicesJoin<T>(s: seq<T>, i: nat, j: nat)
    requires i <= j <= |s|
    ensures s[..i] + s[i..j] == s[..j]
  {
  }

  lemma {:induction false} PagesArePrefix<T>(full: seq<T>, perPage: Int64, k: nat)
    requires |full| <= MAX_INT && k <= TotalPages(|full|, PerPage(perPage))
    ensures Pages(full, perPage, k) == full[..Ends(|full|, k, PerPage(perPage))]
    decreases k
  {
    if k > 0 {
      PagesArePrefix(full, perPage, k - 1);
      PageIsSlice(full, k, perPage);
      SlicesJoin(full, Ends(|full|, k - 1, PerPage(perPage)), Ends(|full|, k, PerPage(perPage)));
    }
  }

  /** Pages 1..TotalPages, concatenated, are exactly the full result. */
  lemma PagesCover<T>(full: seq<T>, perPage: Int64)
    requires |full| <= MAX_INT
    ensures Pages(full, perPage, TotalPages(|full|, PerPage(perPage))) == full
  {
    var per := PerPage(perPage);
    var t := TotalPages(|full|, per);
    PagesArePrefix(full, perPage, t);
    MorePages(|full|, per, t);
  }

  /** A page after the last is empty exactly if its offset, as 64 bits hold it, is not before
      the end of the result. */
  lemma LaterPagesEmptyIff<T>(full: seq<T>, k: Int64, perPage: Int64)
    requires |full| <= MAX_INT && k > TotalPages(|full|, PerPage(perPage)) && k >= 1
    ensures PageOf(full, k, perPage).items == [] <==> full == [] || |full| <= Wrap((k - 1) * PerPage(perPage))
    ensures (k - 1) * PerPage(perPage) <= MAX_INT ==> PageOf(full, k, perPage).items == []
  {
    var per := PerPage(perPage);
    MorePages(|full|, per, k - 1);
    if (k - 1) * per <= MAX_INT { WrapInRange((k - 1) * per); }
  }

  /** A large enough page number wraps around to the first page. */
  lemma OverflowShowsTheFirstPage<T>(row: T)
    ensures var k := 0x4000_0000_0000_0001; k > TotalPages(1, 4) && PageOf([row], k, 4).items == PageOf([row], 1, 4).items == [row]
  {
    assert Wrap(0x4000_0000_0000_0000 * 4) == 0 == Wrap(0);
  }
}
