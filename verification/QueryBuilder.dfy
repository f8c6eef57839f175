/**
 The query builder and the statements it produces (database/orm/query.go,
 database/orm/extra.go). A statement is a record of its sections, in the order in which
 they appear in the text; conditions and SET lists are token sequences.
 */
module QueryBuilder {
  import opened Wrappers
  import opened GoTypes
  import opened Sequences
  import opened Conditions

  const NOT_DELETED := Clause("", Blank, Scalar(0), false, [RawPart(false, "deleted_at IS NULL", [])])
  const DELETED := Clause("", Blank, Scalar(0), false, [RawPart(false, "deleted_at IS NOT NULL", [])])

  datatype Order = Order(column: string, descending: bool)

  datatype Query = Query(
    driver: Driver, table: string, selects: seq<string>, wheres: seq<Clause>, orders: seq<Order>, limit: int, offset: int,
    groupBy: seq<string>, having: seq<Clause>, joins: seq<string>, softDelete: bool, onlyTrashed: bool, forUpdate: bool)

  datatype Statement =
    | Select(selects: seq<string>, table: string, joins: seq<string>, where: seq<Token>, groupBy: seq<string>,
             having: seq<Token>, orders: seq<Order>, limit: Option<int>, offset: Option<int>, forUpdate: bool)
    | Update(table: string, sets: seq<Token>, where: seq<Token>)
    | Delete(table: string, where: seq<Token>)

  /** The clauses after the soft-delete filter has been put in front. */
  function EffectiveWheres(q: Query): seq<Clause> {
    if q.softDelete then [NOT_DELETED] + q.wheres
    else if q.onlyTrashed then [DELETED] + q.wheres
    else q.wheres
  }

  /** The clauses of adjust: it knows the soft-delete filter but not OnlyTrashed. */
  function AdjustWheres(q: Query): seq<Clause> { if q.softDelete then [NOT_DELETED] + q.wheres else q.wheres }

  /** HAVING writes column, operator and placeholder of every clause. */
  function Tests(cs: seq<Clause>): (ps: seq<Piece>)
    ensures |ps| == |cs| && forall i :: 0 <= i < |ps| ==> ps[i] == Test(cs[i].isOr, cs[i].column, cs[i].op, cs[i].value)
  {
    seq(|cs|, i requires 0 <= i < |cs| => Test(cs[i].isOr, cs[i].column, cs[i].op, cs[i].value))
  }

  /** The WHERE section: empty if there is nothing to filter. */
  function WhereTokens(k: Style, d: Driver, cs: seq<Piece>, idx: nat): seq<Token> {
    if cs == [] then [] else CondTokens(k, d, cs, idx)
  }

  /** SELECT. */
  function SelectOf(q: Query): Statement {
    var cs := Pieces(EffectiveWheres(q));
    SelectWith(q, WhereTokens(Full, q.driver, cs, 1), WhereTokens(Short, q.driver, Tests(q.having), 1 + |CondArgs(Full, cs)|))
  }

  /** The sections around the conditions; FOR UPDATE only for the drivers that have it. */
  function SelectWith(q: Query, where: seq<Token>, having: seq<Token>): Statement {
    Select(if q.selects == [] then ["*"] else q.selects, q.table, q.joins, where, q.groupBy, having, q.orders,
           if q.limit > 0 then Some(q.limit) else None, if q.offset > 0 then Some(q.offset) else None, q.forUpdate && !q.driver.SQLite?)
  }

  function SelectArgs(q: Query): seq<Value> { CondArgs(Full, Pieces(EffectiveWheres(q))) + CondArgs(Short, Tests(q.having)) }

  /** column = placeholder, separated by commas. */
  function SetTokens(d: Driver, sets: seq<(string, Value)>, idx: nat): seq<Token> {
    if sets == [] then []
    else [Col(sets[0].0), Op(Equal), Placeholder(d, idx)] + (if |sets| == 1 then [] else [Comma] + SetTokens(d, sets[1..], idx + 1))
  }

  function SetArgs(sets: seq<(string, Value)>): seq<Value> { if sets == [] then [] else [sets[0].1] + SetArgs(sets[1..]) }

  /** Bulk UPDATE. */
  function UpdateOf(q: Query, sets: seq<(string, Value)>): Statement {
    Update(q.table, SetTokens(q.driver, sets, 1), WhereTokens(Full, q.driver, Pieces(EffectiveWheres(q)), |sets| + 1))
  }

  function UpdateArgs(q: Query, sets: seq<(string, Value)>): seq<Value> { SetArgs(sets) + CondArgs(Full, Pieces(EffectiveWheres(q))) }

  /** Bulk DELETE: a soft one sets deleted_at. */
  function DeleteOf(q: Query, now: Value): Statement {
    if q.softDelete then UpdateOf(q, [("deleted_at", now)]) else Delete(q.table, WhereTokens(Full, q.driver, Pieces(EffectiveWheres(q)), 1))
  }

  function DeleteArgs(q: Query, now: Value): seq<Value> {
    if q.softDelete then UpdateArgs(q, [("deleted_at", now)]) else CondArgs(Full, Pieces(EffectiveWheres(q)))
  }

  /** The amount without its sign; the smallest 64-bit integer is its own negation. */
  function Magnitude(n: int): int { if n < 0 then Negated(n) else n }

  /** Increment and decrement: column = column +/- $1. */
  function AdjustOf(q: Query, col: string, amount: int): Statement {
    Update(q.table, [Col(col), Op(Equal), Col(col), if amount < 0 then Minus else Plus, Placeholder(q.driver, 1)],
           WhereTokens(Short, q.driver, Pieces(AdjustWheres(q)), 2))
  }

  function AdjustArgs(q: Query, amount: int): seq<Value> { [Scalar(Magnitude(amount))] + CondArgs(Short, Pieces(AdjustWheres(q))) }

  lemma {:induction false} SetArgsLength(sets: seq<(string, Value)>)
    ensures |SetArgs(sets)| == |sets|
  {
    if sets != [] { SetArgsLength(sets[1..]); }
  }

  // ------------------------------------------------------------ placeholders denote their own values

  lemma AlignedMiddle(k: Style, before: seq<Value>, cs: seq<Piece>, after: seq<Value>)
    ensures Aligned(k, cs, before + CondArgs(k, cs) + after, |before| + 1)
  {
    var args := before + CondArgs(k, cs) + after;
    assert args[|before|..|before| + |CondArgs(k, cs)|] == CondArgs(k, cs);
  }

  /** A condition written by either loop after some arguments, and followed by others, is refused
      exactly if it is not readable, and otherwise recovers the clauses with their own values. */
  lemma ConditionReads(k: Style, d: Driver, before: seq<Value>, cs: seq<Piece>, after: seq<Value>)
    requires cs != []
    ensures Understood(d, WhereTokens(k, d, cs, |before| + 1), before + CondArgs(k, cs) + after, |before| + 1)
            == if AllReadable(k, d, cs) then Some(Groups(cs)) else None
  {
    AlignedMiddle(k, before, cs, after);
    ReadingRecoversClauses(k, d, cs, |before| + 1, before + CondArgs(k, cs) + after);
  }

  lemma FirstConditionReads(d: Driver, cs: seq<Piece>, after: seq<Value>)
    requires cs != []
    ensures Understood(d, WhereTokens(Full, d, cs, 1), CondArgs(Full, cs) + after, 1) == if AllReadable(Full, d, cs) then Some(Groups(cs)) else None
  {
    ConditionReads(Full, d, [], cs, after);
    Nothing(CondArgs(Full, cs));
  }

  /** SELECT: its WHERE section reads back as the effective clauses. */
  lemma SelectWhereReads(q: Query, cs: seq<Piece>)
    requires cs == Pieces(EffectiveWheres(q)) && cs != []
    ensures Understood(q.driver, SelectOf(q).where, SelectArgs(q), 1) == if AllReadable(Full, q.driver, cs) then Some(Groups(cs)) else None
  {
    FirstConditionReads(q.driver, cs, CondArgs(Short, Tests(q.having)));
  }

  /** Its HAVING section goes on counting where WHERE stopped, and recovers its own clauses. */
  lemma SelectHavingReads(q: Query)
    requires q.having != []
    ensures
      var cs := Tests(q.having);
      Understood(q.driver, SelectOf(q).having, SelectArgs(q), 1 + |CondArgs(Full, Pieces(EffectiveWheres(q)))|)
      == if AllReadable(Short, q.driver, cs) then Some(Groups(cs)) else None
  {
    var before := CondArgs(Full, Pieces(EffectiveWheres(q)));
    ConditionReads(Short, q.driver, before, Tests(q.having), []);
    Nothing(before + CondArgs(Short, Tests(q.having)));
  }

  /** Reads a SET list: each column with the argument its placeholder denotes. */
  function ReadSets(ts: seq<Token>, args: seq<Value>, pos: nat): Option<seq<(string, Value)>>
    decreases |ts|
  {
    if |ts| < 3 || !ts[0].Col? || ts[1] != Op(Equal) || Slot(ts[2], args, pos).None? then None
    else
      var one := (ts[0].name, Slot(ts[2], args, pos).value);
      if |ts| == 3 then Some([one])
      else if !ts[3].Comma? then None
      else
        var more := ReadSets(ts[4..], args, pos + 1);
        if more.None? then None else Some([one] + more.value)
  }

  lemma {:induction false} SetsRead(d: Driver, sets: seq<(string, Value)>, idx: nat, args: seq<Value>)
    requires sets != [] && 1 <= idx && idx - 1 + |sets| <= |args|
    requires args[idx - 1..idx - 1 + |sets|] == SetArgs(sets)
    ensures ReadSets(SetTokens(d, sets, idx), args, idx) == Some(sets)
    decreases |sets|
  {
    SetArgsLength(sets);
    var ts := SetTokens(d, sets, idx);
    assert args[idx - 1] == args[idx - 1..idx - 1 + |sets|][0] == sets[0].1;
    if |sets| > 1 {
      assert args[idx..idx + |sets[1..]|] == args[idx - 1..idx - 1 + |sets|][1..] == SetArgs(sets[1..]);
      SetsRead(d, sets[1..], idx + 1, args);
      assert ts[3] == Comma && ts[4..] == SetTokens(d, sets[1..], idx + 1);
      assert sets == [sets[0]] + sets[1..];
    } else {
      assert sets == [sets[0]];
    }
  }

  /** Bulk UPDATE: the SET list is read back with its own values. */
  lemma UpdateSetsRead(q: Query, sets: seq<(string, Value)>)
    requires sets != []
    ensures ReadSets(UpdateOf(q, sets).sets, UpdateArgs(q, sets), 1) == Some(sets)
  {
    var args := UpdateArgs(q, sets);
    SetArgsLength(sets);
    assert args[0..|sets|] == SetArgs(sets);
    SetsRead(q.driver, sets, 1, args);
  }

  /** And so is its condition, which goes on counting after the SET list. */
  lemma UpdateWhereReads(q: Query, sets: seq<(string, Value)>, cs: seq<Piece>)
    requires cs == Pieces(EffectiveWheres(q)) && cs != []
    ensures Understood(q.driver, UpdateOf(q, sets).where, UpdateArgs(q, sets), |sets| + 1)
            == if AllReadable(Full, q.driver, cs) then Some(Groups(cs)) else None
  {
    SetArgsLength(sets);
    ConditionReads(Full, q.driver, SetArgs(sets), cs, []);
    Nothing(SetArgs(sets) + CondArgs(Full, cs));
  }

  /** Bulk DELETE: a soft one sets deleted_at to its own argument, and both filter by the clauses. */
  lemma DeleteReads(q: Query, now: Value, cs: seq<Piece>)
    requires cs == Pieces(EffectiveWheres(q))
    ensures q.softDelete ==> ReadSets(DeleteOf(q, now).sets, DeleteArgs(q, now), 1) == Some([("deleted_at", now)])
    ensures cs != [] ==>
      Understood(q.driver, DeleteOf(q, now).where, DeleteArgs(q, now), if q.softDelete then 2 else 1)
      == if AllReadable(Full, q.driver, cs) then Some(Groups(cs)) else None
  {
    if q.softDelete {
      UpdateSetsRead(q, [("deleted_at", now)]);
      if cs != [] { UpdateWhereReads(q, [("deleted_at", now)], cs); }
    } else if cs != [] {
      FirstConditionReads(q.driver, cs, []);
      Nothing(CondArgs(Full, cs));
    }
  }

  /** A row's numbers by column. */
  type Numbers = map<string, int>

  /** Carries out a SET list that assigns one column the sum or difference of a column and an argument. */
  function Assigned(ts: seq<Token>, args: seq<Value>, row: Numbers): Option<Numbers> {
    if |ts| != 5 || !ts[0].Col? || ts[1] != Op(Equal) || !ts[2].Col? || !(ts[3].Plus? || ts[3].Minus?) then None
    else
      var n := Slot(ts[4], args, 1);
      if n.None? || !n.value.Scalar? || ts[0].name !in row || ts[2].name !in row then None
      else Some(row[ts[0].name := if ts[3].Plus? then row[ts[2].name] + n.value.v else row[ts[2].name] - n.value.v])
  }

  /** Carrying out the SET list of adjust. */
  lemma AdjustAssigns(q: Query, col: string, amount: int, row: Numbers)
    requires col in row
    ensures AdjustOf(q, col, amount).Update? && AdjustOf(q, col, amount).table == q.table
    ensures Assigned(AdjustOf(q, col, amount).sets, AdjustArgs(q, amount), row)
            == Some(row[col := row[col] + if amount < 0 then -Magnitude(amount) else amount])
  {
  }

  /** Increment: carrying out the SET list adds the amount, negative or not, to the column and leaves the
      others alone, exactly if the amount is not the smallest 64-bit integer. */
  lemma IncrementAdds(q: Query, col: string, amount: int, row: Numbers)
    requires MIN_INT <= amount <= MAX_INT && col in row
    ensures Assigned(AdjustOf(q, col, amount).sets, AdjustArgs(q, amount), row) == Some(row[col := row[col] + amount]) <==> amount != MIN_INT
  {
    AdjustAssigns(q, col, amount, row);
    var got := row[col := row[col] + if amount < 0 then -Magnitude(amount) else amount];
    assert got[col] == row[col] + amount <==> amount != MIN_INT;
    assert row[col := row[col] + amount][col] == row[col] + amount;
  }

  /** Decrement, which hands on the negated amount, subtracts every amount: the smallest one is negated
      twice over. */
  lemma DecrementSubtracts(q: Query, col: string, amount: int, row: Numbers)
    requires MIN_INT <= amount <= MAX_INT && col in row
    ensures Assigned(AdjustOf(q, col, Negated(amount)).sets, AdjustArgs(q, Negated(amount)), row) == Some(row[col := row[col] - amount])
  {
    var n := Negated(amount);
    AdjustAssigns(q, col, n, row);
    assert (if n < 0 then -Magnitude(n) else n) == -amount;
  }

  /** The condition of the shorter loop recovers its own clauses. */
  lemma AdjustReads(q: Query, col: string, amount: int, cs: seq<Piece>)
    requires cs == Pieces(AdjustWheres(q)) && cs != []
    ensures Understood(q.driver, AdjustOf(q, col, amount).where, AdjustArgs(q, amount), 2)
            == if AllReadable(Short, q.driver, cs) then Some(Groups(cs)) else None
  {
    ConditionReads(Short, q.driver, [Scalar(Magnitude(amount))], cs, []);
    Nothing([Scalar(Magnitude(amount))] + CondArgs(Short, cs));
  }

  predicate HasIn(cs: seq<Piece>) { exists i :: 0 <= i < |cs| && IsIn(cs[i]) }

  lemma FilterFirst(filter: Clause, cs: seq<Clause>)
    requires |filter.raw| == 1
    ensures Pieces([filter] + cs) == [RawPiece(filter.isOr, filter.raw[0].text, filter.raw[0].args)] + Pieces(cs)
  {
    PiecesConcat([filter], cs);
    PiecesOne(filter);
    assert PiecesOf(filter) == [RawPiece(filter.isOr, filter.raw[0].text, filter.raw[0].args)];
  }

  lemma SameClauses(q: Query)
    requires q.softDelete || !q.onlyTrashed
    ensures WhereTokens(Short, q.driver, Pieces(AdjustWheres(q)), 2) == WhereTokens(Full, q.driver, Pieces(EffectiveWheres(q)), 2)
            <==> !HasIn(Pieces(q.wheres))
  {
    var a, own := Pieces(AdjustWheres(q)), Pieces(q.wheres);
    if q.softDelete {
      FilterFirst(NOT_DELETED, q.wheres);
      assert forall i :: 0 <= i < |own| ==> a[i + 1] == own[i];
    }
    assert HasIn(a) <==> HasIn(own);
    if a != [] { ShortAgreesIff(q.driver, a, 2); }
  }

  lemma OneClauseLess(d: Driver, own: seq<Piece>)
    ensures WhereTokens(Short, d, own, 2) != WhereTokens(Full, d, [RawPiece(false, "deleted_at IS NOT NULL", [])] + own, 2)
  {
    var e := [RawPiece(false, "deleted_at IS NOT NULL", [])] + own;
    CondJoiners(Full, d, e, 2);
    if own == [] {
      assert CondTokens(Full, d, e, 2)[0] == Raw("deleted_at IS NOT NULL", 0);
    } else {
      CondJoiners(Short, d, own, 2);
    }
  }

  /** Increment and Decrement filter by the same condition as the other statements exactly if
      the builder has no IN list and is not restricted to deleted rows. */
  lemma AdjustAgreesIff(q: Query)
    ensures WhereTokens(Short, q.driver, Pieces(AdjustWheres(q)), 2) == WhereTokens(Full, q.driver, Pieces(EffectiveWheres(q)), 2)
            <==> !HasIn(Pieces(q.wheres)) && (q.softDelete || !q.onlyTrashed)
  {
    if q.softDelete || !q.onlyTrashed {
      SameClauses(q);
    } else {
      FilterFirst(DELETED, q.wheres);
      OneClauseLess(q.driver, Pieces(q.wheres));
    }
  }

  /** Number of ANDs and ORs. */
  function Joiners(ts: seq<Token>): nat {
    if ts == [] then 0 else (if ts[0].And? || ts[0].Or? then 1 else 0) + Joiners(ts[1..])
  }

  lemma {:induction false} JoinersConcat(a: seq<Token>, b: seq<Token>)
    ensures Joiners(a + b) == Joiners(a) + Joiners(b)
  {
    if a == [] {
      assert a + b == b;
    } else {
      assert (a + b)[0] == a[0] && (a + b)[1..] == a[1..] + b;
      JoinersConcat(a[1..], b);
    }
  }

  lemma {:induction false} NoJoiners(ts: seq<Token>)
    requires forall i :: 0 <= i < |ts| ==> !ts[i].And? && !ts[i].Or?
    ensures Joiners(ts) == 0
  {
    if ts != [] { NoJoiners(ts[1..]); }
  }

  lemma {:induction false} HolesPlain(d: Driver, n: nat, idx: nat)
    ensures forall i :: 0 <= i < |Holes(d, n, idx)| ==> !Holes(d, n, idx)[i].And? && !Holes(d, n, idx)[i].Or?
    decreases n
  {
    if n > 1 { HolesPlain(d, n - 1, idx + 1); }
  }

  lemma ClausePlain(k: Style, d: Driver, c: Piece, idx: nat)
    ensures Joiners(PieceTokens(k, d, c, idx)) == 0
  {
    if IsIn(c) && c.value.List? { HolesPlain(d, |c.value.vs|, idx); }
    NoJoiners(PieceTokens(k, d, c, idx));
  }

  /** n clauses are joined by n - 1 joiners. */
  lemma {:induction false} CondJoiners(k: Style, d: Driver, cs: seq<Piece>, idx: nat)
    requires cs != []
    ensures Joiners(CondTokens(k, d, cs, idx)) == |cs| - 1
    decreases |cs|
  {
    var next := idx + |PieceArgs(k, cs[0])|;
    ClausePlain(k, d, cs[0], idx);
    JoinersConcat(PieceTokens(k, d, cs[0], idx), MoreTokens(k, d, cs[1..], next));
    if |cs| > 1 {
      CondJoiners(k, d, cs[1..], next);
      assert MoreTokens(k, d, cs[1..], next)[1..] == CondTokens(k, d, cs[1..], next);
    }
  }

  // ------------------------------------------------------------ the builder

  function Spelling(op: Operator): string {
    match op
    case Equal => "=" case NotEqual => "!=" case Angle => "<>" case Greater => ">" case Less => "<"
    case AtLeast => ">=" case AtMost => "<=" case Like => "LIKE" case LowerLike => "like"
    case NotLike => "NOT LIKE" case LowerNotLike => "not like" case InList => "IN" case LowerIn => "in"
    case Is => "IS" case LowerIs => "is" case IsNot => "IS NOT" case LowerIsNot => "is not" case Blank => ""
  }

  /** sanitizeOperator: anything not on the list becomes "=". */
  function SanitizeOperator(op: string): (r: Operator)
    ensures r != Blank && (r != Equal ==> Spelling(r) == op)
  {
    if op == "!=" then NotEqual else if op == "<>" then Angle else if op == ">" then Greater else if op == "<" then Less
    else if op == ">=" then AtLeast else if op == "<=" then AtMost else if op == "LIKE" then Like else if op == "like" then LowerLike
    else if op == "NOT LIKE" then NotLike else if op == "not like" then LowerNotLike else if op == "IN" then InList
    else if op == "in" then LowerIn else if op == "IS" then Is else if op == "is" then LowerIs
    else if op == "IS NOT" then IsNot else if op == "is not" then LowerIsNot else Equal
  }

  /** An operator on the list keeps its spelling. */
  lemma ListedOperatorKept(op: Operator)
    requires op != Blank
    ensures SanitizeOperator(Spelling(op)) == op
  {
  }

  predicate SafeChar(c: char) { 'a' <= c <= 'z' || 'A' <= c <= 'Z' || '0' <= c <= '9' || c == '_' || c == '.' }

  /** safeColumn: the safe characters of a name. */
  function SafeColumn(col: string): (r: string)
    ensures forall i :: 0 <= i < |r| ==> SafeChar(r[i])
    ensures r == col <==> forall i :: 0 <= i < |col| ==> SafeChar(col[i])
    ensures |r| <= |col|
  {
    if col == "" then "" else (if SafeChar(col[0]) then [col[0]] else []) + SafeColumn(col[1..])
  }

  /** It goes through a name character by character, so the safe ones keep their order. */
  lemma {:induction false} SafeColumnJoins(a: string, b: string)
    ensures SafeColumn(a + b) == SafeColumn(a) + SafeColumn(b)
  {
    if a == "" {
      assert a + b == b;
    } else {
      assert (a + b)[0] == a[0] && (a + b)[1..] == a[1..] + b;
      SafeColumnJoins(a[1..], b);
    }
  }

  /** The new values with their column names made safe. */
  function SafeSets(values: seq<(string, Value)>): (r: seq<(string, Value)>)
    ensures |r| == |values| && forall i :: 0 <= i < |r| ==> r[i] == (SafeColumn(values[i].0), values[i].1)
  {
    seq(|values|, i requires 0 <= i < |values| => (SafeColumn(values[i].0), values[i].1))
  }

  /** The builder after WithTrashed, and after OnlyTrashed. */
  function WithTrashedOf(q: Query): Query { q.(softDelete := false, onlyTrashed := false) }
  function OnlyTrashedOf(q: Query): Query { q.(softDelete := false, onlyTrashed := true) }

  class Builder {
    const driver: Driver
    const table: string
    var selects: seq<string>
    var wheres: seq<Clause>
    var orders: seq<Order>
    var limitVal: int
    var offsetVal: int
    var groupBy: seq<string>
    var having: seq<Clause>
    var joins: seq<string>
    var softDelete: bool
    var onlyTrashed: bool
    var forUpdate: bool

    function State(): Query
      reads this
    {
      Query(driver, table, selects, wheres, orders, limitVal, offsetVal, groupBy, having, joins, softDelete, onlyTrashed, forUpdate)
    }

    constructor (q: Query)
      ensures State() == q
    {
      driver, table, selects, wheres, orders, limitVal, offsetVal := q.driver, q.table, q.selects, q.wheres, q.orders, q.limit, q.offset;
      groupBy, having, joins, softDelete, onlyTrashed, forUpdate := q.groupBy, q.having, q.joins, q.softDelete, q.onlyTrashed, q.forUpdate;
    }

    method Where(column: string, op: string, value: Value)
      modifies this`wheres
      ensures wheres == old(wheres) + [Clause(SafeColumn(column), SanitizeOperator(op), value, false, [])]
    {
      wheres := wheres + [Clause(SafeColumn(column), SanitizeOperator(op), value, false, [])];
    }

    method OrWhere(column: string, op: string, value: Value)
      modifies this`wheres
      ensures wheres == old(wheres) + [Clause(SafeColumn(column), SanitizeOperator(op), value, true, [])]
    {
      wheres := wheres + [Clause(SafeColumn(column), SanitizeOperator(op), value, true, [])];
    }

    method WhereRaw(raw: seq<RawPart>)
      modifies this`wheres
      ensures wheres == old(wheres) + [Clause("", Blank, Scalar(0), false, raw)]
    {
      wheres := wheres + [Clause("", Blank, Scalar(0), false, raw)];
    }

    method WithTrashed()
      modifies this`softDelete, this`onlyTrashed
      ensures State() == WithTrashedOf(old(State()))
    {
      softDelete, onlyTrashed := false, false;
    }

    method OnlyTrashed()
      modifies this`softDelete, this`onlyTrashed
      ensures State() == OnlyTrashedOf(old(State()))
    {
      softDelete, onlyTrashed := false, true;
    }

    /** A copy that shares nothing with the original. */
    method Clone() returns (c: Builder)
      ensures fresh(c) && c.State() == State()
    {
      c := new Builder(State());
    }

    /** The placeholder list of an IN. */
    method WriteHoles(n: nat, idx: nat) returns (phs: seq<Token>)
      ensures phs == Holes(driver, n, idx)
    {
      phs := [];
      var j := 0;
      while j < n
        invariant 0 <= j <= n && phs == HolesUpTo(driver, j, idx)
      {
        phs := phs + (if j > 0 then [Comma] else []) + [Placeholder(driver, idx + j)];
        j := j + 1;
      }
      HolesUpToAll(driver, n, idx);
    }

    /** One clause of the full loop; a raw text is written as it stands. */
    method WriteClause(w: Clause, idx: nat) returns (ts: seq<Token>, args: seq<Value>)
      ensures ts == CondTokens(Full, driver, PiecesOf(w), idx) && args == CondArgs(Full, PiecesOf(w))
    {
      if w.raw != [] {
        RawAsPieces(Full, driver, w, idx);
        return RawTokens(w.raw), RawArgs(w.raw);
      }
      OneTest(Full, driver, w, idx);
      if w.op.InList? {
        if !w.value.List? { return [], []; }
        var phs := WriteHoles(|w.value.vs|, idx);
        return [Col(w.column), In, LParen] + phs + [RParen], Scalars(w.value.vs);
      }
      return [Col(w.column), Op(w.op), Placeholder(driver, idx)], [w.value];
    }

    /** One round of the condition loop, after the first i clauses. */
    method WriteNext(cs: seq<Clause>, i: nat, args: seq<Value>, ts: seq<Token>, all: seq<Value>) returns (ts': seq<Token>, all': seq<Value>)
      requires i < |cs| && all == args + CondArgs(Full, Pieces(cs[..i])) && ts == WhereTokens(Full, driver, Pieces(cs[..i]), |args| + 1)
      ensures all' == args + CondArgs(Full, Pieces(cs[..i + 1])) && ts' == WhereTokens(Full, driver, Pieces(cs[..i + 1]), |args| + 1)
    {
      var cts, cargs := WriteClause(cs[i], |all| + 1);
      ts' := ts + ((if i > 0 then [Joiner(cs[i].isOr)] else []) + cts);
      all' := all + cargs;
      OneMoreClause(Full, driver, cs, i, args, ts, all, cts, cargs);
    }

    /** The condition loop of buildSelect and appendWhere, after `args` have been collected.
        The next placeholder number is always one more than the arguments collected. */
    method WriteWhere(cs: seq<Clause>, args: seq<Value>) returns (ts: seq<Token>, all: seq<Value>)
      ensures ts == WhereTokens(Full, driver, Pieces(cs), |args| + 1) && all == args + CondArgs(Full, Pieces(cs))
    {
      ts, all := [], args;
      NothingWritten(Full, cs, args);
      for i := 0 to |cs|
        invariant all == args + CondArgs(Full, Pieces(cs[..i]))
        invariant ts == WhereTokens(Full, driver, Pieces(cs[..i]), |args| + 1)
      {
        ts, all := WriteNext(cs, i, args, ts, all);
      }
      assert cs[..|cs|] == cs;
    }

    method AppendWhere(args: seq<Value>) returns (ts: seq<Token>, all: seq<Value>)
      ensures ts == WhereTokens(Full, driver, Pieces(EffectiveWheres(State())), |args| + 1)
      ensures all == args + CondArgs(Full, Pieces(EffectiveWheres(State())))
    {
      ts, all := WriteWhere(EffectiveWheres(State()), args);
    }

    /** The HAVING loop, which goes on counting. */
    method WriteHaving(cs: seq<Clause>, args: seq<Value>) returns (ts: seq<Token>, all: seq<Value>)
      ensures ts == WhereTokens(Short, driver, Tests(cs), |args| + 1) && all == args + CondArgs(Short, Tests(cs))
    {
      ts, all := [], args;
      var i, idx := 0, |args| + 1;
      assert Tests(cs[..0]) == [] && all == args + [];
      while i < |cs|
        invariant 0 <= i <= |cs| && idx == |all| + 1
        invariant all == args + CondArgs(Short, Tests(cs[..i]))
        invariant ts == WhereTokens(Short, driver, Tests(cs[..i]), |args| + 1)
      {
        TestsSnoc(driver, cs, i, |args| + 1, args);
        ts := ts + ((if i > 0 then [Joiner(cs[i].isOr)] else []) + [Col(cs[i].column), Op(cs[i].op), Placeholder(driver, idx)]);
        all := all + [cs[i].value];
        idx := idx + 1;
        i := i + 1;
      }
      assert cs[..|cs|] == cs;
    }

    /** buildSelect. */
    method BuildSelect() returns (sql: Statement, args: seq<Value>)
      ensures sql == SelectOf(State()) && args == SelectArgs(State())
      ensures sql.table == table && sql.joins == joins && sql.groupBy == groupBy && sql.orders == orders
      ensures sql.selects == if selects == [] then ["*"] else selects
    {
      var cs := EffectiveWheres(State());
      var where, wargs := WriteWhere(cs, []);
      Nothing(CondArgs(Full, Pieces(cs)));
      var hs: seq<Token>;
      hs, args := WriteHaving(having, wargs);
      sql := Select(if selects == [] then ["*"] else selects, table, joins, where, groupBy, hs, orders,
                    if limitVal > 0 then Some(limitVal) else None, if offsetVal > 0 then Some(offsetVal) else None, forUpdate && !driver.SQLite?);
    }

    /** One clause of the shorter loop. */
    method WriteShortClause(w: Clause, idx: nat) returns (ts: seq<Token>, args: seq<Value>)
      ensures ts == CondTokens(Short, driver, PiecesOf(w), idx) && args == CondArgs(Short, PiecesOf(w))
    {
      if w.raw != [] {
        RawAsPieces(Short, driver, w, idx);
        return RawTokens(w.raw), RawArgs(w.raw);
      }
      OneTest(Short, driver, w, idx);
      return [Col(w.column), Op(w.op), Placeholder(driver, idx)], [w.value];
    }

    method WriteShortNext(cs: seq<Clause>, i: nat, args: seq<Value>, ts: seq<Token>, all: seq<Value>) returns (ts': seq<Token>, all': seq<Value>)
      requires i < |cs| && all == args + CondArgs(Short, Pieces(cs[..i])) && ts == WhereTokens(Short, driver, Pieces(cs[..i]), |args| + 1)
      ensures all' == args + CondArgs(Short, Pieces(cs[..i + 1])) && ts' == WhereTokens(Short, driver, Pieces(cs[..i + 1]), |args| + 1)
    {
      var cts, cargs := WriteShortClause(cs[i], |all| + 1);
      ts' := ts + ((if i > 0 then [Joiner(cs[i].isOr)] else []) + cts);
      all' := all + cargs;
      OneMoreClause(Short, driver, cs, i, args, ts, all, cts, cargs);
    }

    /** The shorter loop of adjust. */
    method WriteShort(cs: seq<Clause>, args: seq<Value>) returns (ts: seq<Token>, all: seq<Value>)
      ensures ts == WhereTokens(Short, driver, Pieces(cs), |args| + 1) && all == args + CondArgs(Short, Pieces(cs))
    {
      ts, all := [], args;
      NothingWritten(Short, cs, args);
      for i := 0 to |cs|
        invariant all == args + CondArgs(Short, Pieces(cs[..i]))
        invariant ts == WhereTokens(Short, driver, Pieces(cs[..i]), |args| + 1)
      {
        ts, all := WriteShortNext(cs, i, args, ts, all);
      }
      assert cs[..|cs|] == cs;
    }

    /** UpdateAll; `values` is the map of new values in the order in which Go iterates over it. */
    method UpdateAll(values: seq<(string, Value)>) returns (sql: Option<Statement>, args: seq<Value>)
      ensures values == [] ==> sql.None?
      ensures values != [] ==> sql == Some(UpdateOf(State(), SafeSets(values))) && args == UpdateArgs(State(), SafeSets(values))
      ensures sql.Some? ==> sql.value.Update? && sql.value.table == table
    {
      if values == [] { return None, []; }
      var sets;
      sets, args := WriteSets(values);
      SetArgsLength(SafeSets(values));
      var where, all := AppendWhere(args);
      sql, args := Some(Update(table, sets, where)), all;
    }

    /** The SET loop. */
    method WriteSets(values: seq<(string, Value)>) returns (sets: seq<Token>, args: seq<Value>)
      ensures sets == SetTokens(driver, SafeSets(values), 1) && args == SetArgs(SafeSets(values))
    {
      sets, args := [], [];
      var i := 0;
      ghost var safe := SafeSets(values);
      while i < |values|
        invariant 0 <= i <= |values| && |args| == i
        invariant args + SetArgs(safe[i..]) == SetArgs(safe)
        invariant sets == SetsUpTo(driver, safe, i)
      {
        assert safe[i..][1..] == safe[i + 1..];
        var col, val := SafeColumn(values[i].0), values[i].1;
        sets := sets + ((if i > 0 then [Comma] else []) + [Col(col), Op(Equal), Placeholder(driver, i + 1)]);
        args := args + [val];
        i := i + 1;
      }
      assert safe[i..] == [];
      SetsUpToAll(driver, safe);
    }

    /** DeleteAll: a soft delete sets deleted_at, a hard one deletes. */
    method DeleteAll(now: Value) returns (sql: Statement, args: seq<Value>)
      ensures sql == DeleteOf(State(), now) && args == DeleteArgs(State(), now)
      ensures sql.table == table && if softDelete then sql.Update? else sql.Delete?
    {
      var where: seq<Token>;
      if softDelete {
        OneSet(driver, now);
        where, args := AppendWhere([now]);
        return Update(table, [Col("deleted_at"), Op(Equal), Placeholder(driver, 1)], where), args;
      }
      where, args := AppendWhere([]);
      Nothing(CondArgs(Full, Pieces(EffectiveWheres(State()))));
      sql := Delete(table, where);
    }

    /** Increment and Decrement add the amount, or its negation. */
    method Increment(column: string, amount: Int64) returns (sql: Statement, args: seq<Value>)
      ensures sql == AdjustOf(State(), SafeColumn(column), amount) && args == AdjustArgs(State(), amount)
    {
      sql, args := Adjust(column, amount);
    }

    method Decrement(column: string, amount: Int64) returns (sql: Statement, args: seq<Value>)
      ensures sql == AdjustOf(State(), SafeColumn(column), Negated(amount)) && args == AdjustArgs(State(), Negated(amount))
    {
      sql, args := Adjust(column, Negated(amount));
    }

    /** adjust: column = column +/- $1 under its own, shorter, condition loop. */
    method Adjust(column: string, amount: Int64) returns (sql: Statement, args: seq<Value>)
      ensures sql == AdjustOf(State(), SafeColumn(column), amount) && args == AdjustArgs(State(), amount)
    {
      var col, op, n: int := SafeColumn(column), Plus, amount;
      if amount < 0 { op, n := Minus, Negated(amount); }
      var where: seq<Token>;
      where, args := WriteShort(AdjustWheres(State()), [Scalar(n)]);
      sql := Update(table, [Col(col), Op(Equal), Col(col), op, Placeholder(driver, 1)], where);
    }
  }

  // ------------------------------------------------------------ what the loops have written so far

  lemma OneSet(d: Driver, now: Value)
    ensures SetTokens(d, [("deleted_at", now)], 1) == [Col("deleted_at"), Op(Equal), Placeholder(d, 1)] && SetArgs([("deleted_at", now)]) == [now]
  {
    assert [("deleted_at", now)][1..] == [];
  }

  function RawTokens(parts: seq<RawPart>): seq<Token>
    requires parts != []
  {
    [Raw(parts[0].text, |parts[0].args|)] + if |parts| == 1 then [] else [Joiner(parts[1].isOr)] + RawTokens(parts[1..])
  }

  function RawArgs(parts: seq<RawPart>): seq<Value> { if parts == [] then [] else parts[0].args + RawArgs(parts[1..]) }

  lemma {:induction false} RawWritten(k: Style, d: Driver, parts: seq<RawPart>, idx: nat)
    requires parts != []
    ensures CondTokens(k, d, RawPieces(parts), idx) == RawTokens(parts) && CondArgs(k, RawPieces(parts)) == RawArgs(parts)
    decreases |parts|
  {
    assert RawPieces(parts)[1..] == RawPieces(parts[1..]);
    if |parts| > 1 { RawWritten(k, d, parts[1..], idx + |parts[0].args|); }
  }

  /** A raw text is the tokens of its conditions. */
  lemma RawAsPieces(k: Style, d: Driver, w: Clause, idx: nat)
    requires w.raw != []
    ensures CondTokens(k, d, PiecesOf(w), idx) == RawTokens(w.raw) && CondArgs(k, PiecesOf(w)) == RawArgs(w.raw)
  {
    RawWritten(k, d, w.raw, idx);
    assert PiecesOf(w)[1..] == RawPieces(w.raw)[1..];
  }

  lemma OneTest(k: Style, d: Driver, w: Clause, idx: nat)
    requires w.raw == []
    ensures
      var c := Test(w.isOr, w.column, w.op, w.value);
      CondTokens(k, d, PiecesOf(w), idx) == PieceTokens(k, d, c, idx) && CondArgs(k, PiecesOf(w)) == PieceArgs(k, c)
  {
    assert PiecesOf(w)[1..] == [];
  }

  lemma NothingWritten(k: Style, cs: seq<Clause>, args: seq<Value>)
    ensures Pieces(cs[..0]) == [] && args + CondArgs(k, Pieces(cs[..0])) == args
  {
    assert cs[..0] == [];
  }

  /** One more clause, after those written so far. */
  lemma WhereSnoc(k: Style, d: Driver, cs: seq<Clause>, i: nat, start: nat)
    requires i < |cs|
    ensures
      var done, c := Pieces(cs[..i]), PiecesOf(cs[i]);
      WhereTokens(k, d, Pieces(cs[..i + 1]), start) ==
      WhereTokens(k, d, done, start) + ((if i > 0 then [Joiner(cs[i].isOr)] else []) + CondTokens(k, d, c, start + |CondArgs(k, done)|))
  {
    PiecesSnoc(cs, i);
    PiecesEmptyIff(cs[..i]);
    AfterOthers(k, d, Pieces(cs[..i]), PiecesOf(cs[i]), start);
  }

  lemma ArgsSnoc(k: Style, cs: seq<Clause>, i: nat, args: seq<Value>)
    requires i < |cs|
    ensures args + CondArgs(k, Pieces(cs[..i + 1])) == (args + CondArgs(k, Pieces(cs[..i]))) + CondArgs(k, PiecesOf(cs[i]))
  {
    PiecesSnoc(cs, i);
    ArgsConcat(k, Pieces(cs[..i]), PiecesOf(cs[i]));
    Regroup(args, CondArgs(k, Pieces(cs[..i])), CondArgs(k, PiecesOf(cs[i])));
  }

  /** One round of a condition loop keeps tokens and arguments in step. */
  lemma OneMoreClause(k: Style, d: Driver, cs: seq<Clause>, i: nat, args: seq<Value>, ts: seq<Token>, all: seq<Value>, cts: seq<Token>, cargs: seq<Value>)
    requires i < |cs| && all == args + CondArgs(k, Pieces(cs[..i])) && ts == WhereTokens(k, d, Pieces(cs[..i]), |args| + 1)
    requires cts == CondTokens(k, d, PiecesOf(cs[i]), |all| + 1) && cargs == CondArgs(k, PiecesOf(cs[i]))
    ensures all + cargs == args + CondArgs(k, Pieces(cs[..i + 1]))
    ensures ts + ((if i > 0 then [Joiner(cs[i].isOr)] else []) + cts) == WhereTokens(k, d, Pieces(cs[..i + 1]), |args| + 1)
  {
    WhereSnoc(k, d, cs, i, |args| + 1);
    ArgsSnoc(k, cs, i, args);
  }

  lemma AfterOthers(k: Style, d: Driver, done: seq<Piece>, c: seq<Piece>, start: nat)
    requires c != []
    ensures WhereTokens(k, d, done + c, start) ==
            WhereTokens(k, d, done, start) + ((if done != [] then [Joiner(c[0].isOr)] else []) + CondTokens(k, d, c, start + |CondArgs(k, done)|))
  {
    if done == [] {
      assert done + c == c;
    } else {
      CondConcat(k, d, done, c, start);
    }
  }

  lemma TestsSnoc(d: Driver, cs: seq<Clause>, i: nat, start: nat, args: seq<Value>)
    requires i < |cs|
    ensures
      var done := Tests(cs[..i]);
      var next := start + |CondArgs(Short, done)|;
      && WhereTokens(Short, d, Tests(cs[..i + 1]), start) == WhereTokens(Short, d, done, start) +
         ((if i > 0 then [Joiner(cs[i].isOr)] else []) + [Col(cs[i].column), Op(cs[i].op), Placeholder(d, next)])
      && args + CondArgs(Short, Tests(cs[..i + 1])) == args + CondArgs(Short, done) + [cs[i].value]
  {
    var done, c := Tests(cs[..i]), [Test(cs[i].isOr, cs[i].column, cs[i].op, cs[i].value)];
    assert Tests(cs[..i + 1]) == done + c;
    assert c[1..] == [];
    ArgsConcat(Short, done, c);
    assert CondArgs(Short, c) == [cs[i].value];
    Regroup(args, CondArgs(Short, done), CondArgs(Short, c));
    AfterOthers(Short, d, done, c, start);
  }

  function HolesUpTo(d: Driver, j: nat, idx: nat): seq<Token> {
    if j == 0 then [] else HolesUpTo(d, j - 1, idx) + (if j > 1 then [Comma] else []) + [Placeholder(d, idx + j - 1)]
  }

  lemma {:induction false} HolesFrom(d: Driver, j: nat, n: nat, idx: nat)
    requires j < n
    ensures HolesUpTo(d, j, idx) + (if j > 0 then [Comma] else []) + Holes(d, n - j, idx + j) == Holes(d, n, idx)
    decreases j
  {
    if j > 0 {
      HolesFrom(d, j - 1, n, idx);
      var a, b := HolesUpTo(d, j - 1, idx), Holes(d, n - j, idx + j);
      assert Holes(d, n - j + 1, idx + j - 1) == [Placeholder(d, idx + j - 1), Comma] + b;
    }
  }

  lemma HolesUpToAll(d: Driver, n: nat, idx: nat)
    ensures HolesUpTo(d, n, idx) == Holes(d, n, idx)
  {
    if n > 0 { HolesFrom(d, n - 1, n, idx); }
  }

  function SetsUpTo(d: Driver, sets: seq<(string, Value)>, i: nat): seq<Token>
    requires i <= |sets|
  {
    if i == 0 then []
    else SetsUpTo(d, sets, i - 1) + ((if i > 1 then [Comma] else []) + [Col(sets[i - 1].0), Op(Equal), Placeholder(d, i)])
  }

  lemma {:induction false} SetsFrom(d: Driver, sets: seq<(string, Value)>, i: nat)
    requires i < |sets|
    ensures SetsUpTo(d, sets, i) + ((if i > 0 then [Comma] else []) + SetTokens(d, sets[i..], i + 1)) == SetTokens(d, sets, 1)
    decreases i
  {
    if i == 0 {
      assert sets[0..] == sets && [] + SetTokens(d, sets, 1) == SetTokens(d, sets, 1);
    } else {
      SetsFrom(d, sets, i - 1);
      assert sets[i - 1..][0] == sets[i - 1] && sets[i - 1..][1..] == sets[i..];
      var one := [Col(sets[i - 1].0), Op(Equal), Placeholder(d, i)];
      var sep: seq<Token> := if i > 1 then [Comma] else [];
      assert SetTokens(d, sets[i - 1..], i) == one + ([Comma] + SetTokens(d, sets[i..], i + 1));
      Regroup(sep, one, [Comma] + SetTokens(d, sets[i..], i + 1));
      Regroup(SetsUpTo(d, sets, i - 1), sep + one, [Comma] + SetTokens(d, sets[i..], i + 1));
    }
  }

  lemma SetsUpToAll(d: Driver, sets: seq<(string, Value)>)
    ensures SetsUpTo(d, sets, |sets|) == SetTokens(d, sets, 1)
  {
    if sets != [] {
      var k := |sets| - 1;
      SetsFrom(d, sets, k);
      assert sets[k..] == [sets[k]];
    }
  }
}
