/**
 Conditions of the query builder (database/orm/query.go, database/orm/extra.go): how a flat
 list of AND/OR clauses is written as SQL tokens with placeholders, and how SQL reads
 those tokens back. AND binds tighter than OR; `$n` denotes the n-th argument, and `?`
 the argument at its own position. The text of a raw clause is written as it stands, without
 parentheses, so an OR inside it is an OR of the whole condition.
 */
module Conditions {
  import opened Wrappers
  import opened Sequences

  datatype Value = Scalar(v: int) | List(vs: seq<int>)

  /** The operators a clause can have, by their spelling: those on the builder's list, or none. */
  datatype Operator =
    | Equal | NotEqual | Angle | Greater | Less | AtLeast | AtMost | Like | LowerLike | NotLike | LowerNotLike
    | InList | LowerIn | Is | LowerIs | IsNot | LowerIsNot | Blank

  /** One condition inside a raw text, with the arguments of its placeholders. */
  datatype RawPart = RawPart(isOr: bool, text: string, args: seq<Value>)

  /** A whereClause. A non-empty `raw` is the list of conditions that the raw text consists of. */
  datatype Clause = Clause(column: string, op: Operator, value: Value, isOr: bool, raw: seq<RawPart>)

  /** One condition of the flat list, with the joiner in front of it. */
  datatype Piece =
    | RawPiece(isOr: bool, text: string, args: seq<Value>)
    | Test(isOr: bool, column: string, op: Operator, value: Value)

  datatype Token =
    | And | Or | Raw(text: string, holes: nat)
    | Col(name: string) | Op(op: Operator) | In | LParen | Comma | RParen
    | Numbered(n: nat) | Mark | Plus | Minus

  /** PostgreSQL numbers its placeholders; the others use plain question marks. */
  datatype Driver = Postgres | MySQL | SQLite

  function Placeholder(d: Driver, n: nat): Token { if d.Postgres? then Numbered(n) else Mark }

  // ------------------------------------------------------------ clauses and pieces

  function RawPieces(parts: seq<RawPart>): (ps: seq<Piece>)
    ensures |ps| == |parts| && forall i :: 0 <= i < |ps| ==> ps[i] == RawPiece(parts[i].isOr, parts[i].text, parts[i].args)
  {
    seq(|parts|, i requires 0 <= i < |parts| => RawPiece(parts[i].isOr, parts[i].text, parts[i].args))
  }

  /** A raw clause is as many conditions as its text has; its first one is joined by the clause's own joiner. */
  function PiecesOf(c: Clause): (ps: seq<Piece>)
    ensures ps != [] && ps[0].isOr == c.isOr
  {
    if c.raw == [] then [Test(c.isOr, c.column, c.op, c.value)]
    else RawPieces(c.raw)[0 := RawPiece(c.isOr, c.raw[0].text, c.raw[0].args)]
  }

  function Pieces(cs: seq<Clause>): seq<Piece> { FlatMap(PiecesOf, cs) }

  lemma PiecesEmptyIff(cs: seq<Clause>)
    ensures Pieces(cs) == [] <==> cs == []
  {
  }

  lemma PiecesConcat(a: seq<Clause>, b: seq<Clause>)
    ensures Pieces(a + b) == Pieces(a) + Pieces(b)
  {
    FlatMapConcat(PiecesOf, a, b);
  }

  lemma PiecesOne(c: Clause)
    ensures Pieces([c]) == PiecesOf(c)
  {
    FlatMapOne(PiecesOf, c);
  }

  lemma PiecesSnoc(cs: seq<Clause>, i: nat)
    requires i < |cs|
    ensures Pieces(cs[..i + 1]) == Pieces(cs[..i]) + PiecesOf(cs[i])
  {
    FlatMapSnoc(PiecesOf, cs, i);
  }

  // ------------------------------------------------------------ writing

  function Scalars(vs: seq<int>): (r: seq<Value>)
    ensures |r| == |vs|
  {
    if vs == [] then [] else [Scalar(vs[0])] + Scalars(vs[1..])
  }

  /** The full loop knows IN lists; the shorter one, used by adjust and HAVING, writes an IN
      like any other comparison. */
  datatype Style = Full | Short

  predicate IsIn(c: Piece) { c.Test? && c.op.InList? }

  function PieceArgs(k: Style, c: Piece): seq<Value> {
    if c.RawPiece? then c.args
    else if k.Full? && c.op.InList? then (if c.value.List? then Scalars(c.value.vs) else [])
    else [c.value]
  }

  /** n placeholders with commas between them. */
  function Holes(d: Driver, n: nat, idx: nat): seq<Token> {
    if n == 0 then []
    else if n == 1 then [Placeholder(d, idx)]
    else [Placeholder(d, idx), Comma] + Holes(d, n - 1, idx + 1)
  }

  /** In the full loop an IN whose value is not a list writes nothing. */
  function PieceTokens(k: Style, d: Driver, c: Piece, idx: nat): seq<Token> {
    if c.RawPiece? then [Raw(c.text, |c.args|)]
    else if k.Full? && c.op.InList? then
      (if c.value.List? then [Col(c.column), In, LParen] + Holes(d, |c.value.vs|, idx) + [RParen] else [])
    else [Col(c.column), Op(c.op), Placeholder(d, idx)]
  }

  function Joiner(isOr: bool): Token { if isOr then Or else And }

  /** A non-empty list of conditions, written from its first one on. */
  function CondTokens(k: Style, d: Driver, cs: seq<Piece>, idx: nat): seq<Token>
    requires cs != []
    decreases |cs|, 0
  {
    PieceTokens(k, d, cs[0], idx) + MoreTokens(k, d, cs[1..], idx + |PieceArgs(k, cs[0])|)
  }

  /** The conditions that follow others: each with its joiner in front. */
  function MoreTokens(k: Style, d: Driver, cs: seq<Piece>, idx: nat): seq<Token>
    decreases |cs|, 1
  {
    if cs == [] then [] else [Joiner(cs[0].isOr)] + CondTokens(k, d, cs, idx)
  }

  function CondArgs(k: Style, cs: seq<Piece>): seq<Value> {
    if cs == [] then [] else PieceArgs(k, cs[0]) + CondArgs(k, cs[1..])
  }

  // ------------------------------------------------------------ reading

  /** The text as a reader consumes it. */
  datatype Text = End | Tok(head: Token, tail: Text)

  function Size(t: Text): nat { if t.End? then 0 else 1 + Size(t.tail) }

  /** The tokens, followed by more text. */
  function TextOf(ts: seq<Token>, more: Text): Text { if ts == [] then more else Tok(ts[0], TextOf(ts[1..], more)) }

  /** A condition with its values in place. */
  datatype Atom = RawAtom(text: string, args: seq<Value>) | Compare(column: string, op: Operator, value: Value) | Among(column: string, values: seq<Value>)

  datatype Read<T> = Failed | Read(value: T, rest: Text, pos: nat)

  /** The argument a placeholder denotes. */
  function Slot(t: Token, args: seq<Value>, pos: nat): Option<Value> {
    var n := if t.Numbered? then t.n else pos;
    if (t.Numbered? || t.Mark?) && 1 <= n <= |args| then Some(args[n - 1]) else None
  }

  /** The operators that compare a column with one operand; IS with a value is SQLite's alone. */
  predicate Compares(d: Driver, op: Operator) {
    if op.Is? || op.LowerIs? || op.IsNot? || op.LowerIsNot? then d.SQLite? else !op.InList? && !op.LowerIn? && !op.Blank?
  }

  /** Placeholders up to the closing parenthesis. */
  function ReadList(t: Text, args: seq<Value>, pos: nat): (r: Read<seq<Value>>)
    ensures r.Read? ==> Size(r.rest) < Size(t)
  {
    if t.End? then Failed
    else if t.head.RParen? then Read([], t.tail, pos)
    else
      var v := Slot(t.head, args, pos);
      if v.None? || t.tail.End? then Failed
      else if t.tail.head.RParen? then Read([v.value], t.tail.tail, pos + 1)
      else if !t.tail.head.Comma? || t.tail.tail.End? || t.tail.tail.head.RParen? then Failed
      else
        var more := ReadList(t.tail.tail, args, pos + 1);
        if more.Failed? then Failed else Read([v.value] + more.value, more.rest, more.pos)
  }

  /** IN with a list; an empty one is SQLite's alone. */
  function ReadAmong(d: Driver, column: string, t: Text, args: seq<Value>, pos: nat): (r: Read<Atom>)
    ensures r.Read? ==> Size(r.rest) < Size(t)
  {
    var list := ReadList(t, args, pos);
    if list.Failed? || (list.value == [] && !d.SQLite?) then Failed else Read(Among(column, list.value), list.rest, list.pos)
  }

  function ReadAtom(d: Driver, t: Text, args: seq<Value>, pos: nat): (r: Read<Atom>)
    ensures r.Read? ==> Size(r.rest) < Size(t)
  {
    if t.End? then Failed
    else if t.head.Raw? then
      (if 1 <= pos && pos - 1 + t.head.holes <= |args|
       then Read(RawAtom(t.head.text, args[pos - 1..pos - 1 + t.head.holes]), t.tail, pos + t.head.holes) else Failed)
    else if !t.head.Col? || t.head.name == "" || t.tail.End? || t.tail.tail.End? then Failed
    else
      var op, operand := t.tail.head, t.tail.tail.head;
      assert Size(t.tail) == 2 + Size(t.tail.tail.tail);
      if op.In? && operand.LParen? then ReadAmong(d, t.head.name, t.tail.tail.tail, args, pos)
      else if op.Op? && Compares(d, op.op) && Slot(operand, args, pos).Some? then
        Read(Compare(t.head.name, op.op, Slot(operand, args, pos).value), t.tail.tail.tail, pos + 1)
      else Failed
  }

  /** conj := atom { AND atom } */
  function ReadConj(d: Driver, t: Text, args: seq<Value>, pos: nat): (r: Read<seq<Atom>>)
    ensures r.Read? ==> Size(r.rest) < Size(t)
    decreases Size(t)
  {
    var a := ReadAtom(d, t, args, pos);
    if a.Failed? then Failed
    else if a.rest.End? || !a.rest.head.And? then Read([a.value], a.rest, a.pos)
    else
      var more := ReadConj(d, a.rest.tail, args, a.pos);
      if more.Failed? then Failed else Read([a.value] + more.value, more.rest, more.pos)
  }

  /** disj := conj { OR conj }, up to the end of the text. */
  function ReadDisj(d: Driver, t: Text, args: seq<Value>, pos: nat): Option<seq<seq<Atom>>>
    decreases Size(t)
  {
    var c := ReadConj(d, t, args, pos);
    if c.Failed? then None
    else if c.rest.End? then Some([c.value])
    else if !c.rest.head.Or? then None
    else
      var more := ReadDisj(d, c.rest.tail, args, c.pos);
      if more.None? then None else Some([c.value] + more.value)
  }

  /** What the database understands by a section of a statement whose placeholders count from pos. */
  function Understood(d: Driver, ts: seq<Token>, args: seq<Value>, pos: nat): Option<seq<seq<Atom>>> {
    ReadDisj(d, TextOf(ts, End), args, pos)
  }

  // ------------------------------------------------------------ what the builder means

  /** Whether SQL accepts what a loop writes for a condition: a column and, in the full loop, an
      IN with a list; anything else needs an operator that compares. */
  predicate Readable(k: Style, d: Driver, c: Piece) {
    c.RawPiece? || (c.column != "" &&
      if k.Full? && c.op.InList? then c.value.List? && (c.value.vs != [] || d.SQLite?) else Compares(d, c.op))
  }

  ghost predicate AllReadable(k: Style, d: Driver, cs: seq<Piece>) { forall i :: 0 <= i < |cs| ==> Readable(k, d, cs[i]) }

  function AtomOf(c: Piece): Atom {
    if c.RawPiece? then RawAtom(c.text, c.args)
    else if c.op.InList? && c.value.List? then Among(c.column, Scalars(c.value.vs))
    else Compare(c.column, c.op, c.value)
  }

  function Atoms(cs: seq<Piece>): seq<Atom> {
    if cs == [] then [] else [AtomOf(cs[0])] + Atoms(cs[1..])
  }

  predicate Alone(cs: seq<Piece>)
    requires cs != []
  {
    |cs| == 1 || cs[1].isOr
  }

  /** The first AND-group: the conditions up to the next one joined by OR. */
  function FirstGroup(cs: seq<Piece>): seq<Atom>
    requires cs != []
  {
    if Alone(cs) then [AtomOf(cs[0])] else [AtomOf(cs[0])] + FirstGroup(cs[1..])
  }

  /** The conditions after the first AND-group. */
  function Others(cs: seq<Piece>): (r: seq<Piece>)
    requires cs != []
    ensures |r| < |cs| && (r != [] ==> r[0].isOr)
  {
    if Alone(cs) then cs[1..] else Others(cs[1..])
  }

  /** The conditions as an OR of AND-groups. The joiner of the first one does not matter. */
  function Groups(cs: seq<Piece>): seq<seq<Atom>>
    decreases |cs|
  {
    if cs == [] then [] else [FirstGroup(cs)] + Groups(Others(cs))
  }

  function Flatten(gs: seq<seq<Atom>>): seq<Atom> { if gs == [] then [] else gs[0] + Flatten(gs[1..]) }

  lemma {:induction false} GroupThenOthers(cs: seq<Piece>)
    requires cs != []
    ensures FirstGroup(cs) + Atoms(Others(cs)) == Atoms(cs)
    decreases |cs|
  {
    if !Alone(cs) {
      GroupThenOthers(cs[1..]);
      assert [AtomOf(cs[0])] + FirstGroup(cs[1..]) + Atoms(Others(cs[1..])) == [AtomOf(cs[0])] + (FirstGroup(cs[1..]) + Atoms(Others(cs[1..])));
    }
  }

  /** Grouping neither drops nor reorders a condition. */
  lemma {:induction false} GroupsKeepAll(cs: seq<Piece>)
    ensures Flatten(Groups(cs)) == Atoms(cs)
    decreases |cs|
  {
    if cs != [] {
      GroupThenOthers(cs);
      GroupsKeepAll(Others(cs));
      assert Groups(cs)[1..] == Groups(Others(cs));
    }
  }

  // ------------------------------------------------------------ the text that is written

  lemma {:induction false} TextOfConcat(a: seq<Token>, b: seq<Token>, more: Text)
    ensures TextOf(a + b, more) == TextOf(a, TextOf(b, more))
  {
    if a == [] {
      assert a + b == b;
    } else {
      TextOfConcat(a[1..], b, more);
      assert (a + b)[0] == a[0] && (a + b)[1..] == a[1..] + b;
    }
  }

  lemma TextOfOne(x: Token, more: Text)
    ensures TextOf([x], more) == Tok(x, more)
  {
    assert [x][1..] == [];
  }

  lemma TextOfTwo(x: Token, y: Token, more: Text)
    ensures TextOf([x, y], more) == Tok(x, Tok(y, more))
  {
    assert [x, y][1..] == [y];
    TextOfOne(y, more);
  }

  lemma TextOfThree(x: Token, y: Token, z: Token, more: Text)
    ensures TextOf([x, y, z], more) == Tok(x, Tok(y, Tok(z, more)))
  {
    assert [x, y, z][1..] == [y, z];
    TextOfTwo(y, z, more);
  }

  function HolesText(d: Driver, n: nat, idx: nat, more: Text): Text {
    if n == 0 then more
    else if n == 1 then Tok(Placeholder(d, idx), more)
    else Tok(Placeholder(d, idx), Tok(Comma, HolesText(d, n - 1, idx + 1, more)))
  }

  lemma {:induction false} HolesTextIs(d: Driver, n: nat, idx: nat, more: Text)
    ensures TextOf(Holes(d, n, idx), more) == HolesText(d, n, idx, more)
    decreases n
  {
    if n == 1 {
      TextOfOne(Placeholder(d, idx), more);
    } else if n > 1 {
      HolesTextIs(d, n - 1, idx + 1, more);
      TextOfConcat([Placeholder(d, idx), Comma], Holes(d, n - 1, idx + 1), more);
      TextOfTwo(Placeholder(d, idx), Comma, HolesText(d, n - 1, idx + 1, more));
    }
  }

  function PieceText(k: Style, d: Driver, c: Piece, idx: nat, more: Text): Text {
    if c.RawPiece? then Tok(Raw(c.text, |c.args|), more)
    else if k.Full? && c.op.InList? then
      (if c.value.List? then Tok(Col(c.column), Tok(In, Tok(LParen, HolesText(d, |c.value.vs|, idx, Tok(RParen, more))))) else more)
    else Tok(Col(c.column), Tok(Op(c.op), Tok(Placeholder(d, idx), more)))
  }

  lemma InTextIs(d: Driver, column: string, n: nat, idx: nat, more: Text)
    ensures TextOf([Col(column), In, LParen] + Holes(d, n, idx) + [RParen], more)
            == Tok(Col(column), Tok(In, Tok(LParen, HolesText(d, n, idx, Tok(RParen, more)))))
  {
    TextOfConcat([Col(column), In, LParen] + Holes(d, n, idx), [RParen], more);
    TextOfOne(RParen, more);
    TextOfConcat([Col(column), In, LParen], Holes(d, n, idx), Tok(RParen, more));
    HolesTextIs(d, n, idx, Tok(RParen, more));
    TextOfThree(Col(column), In, LParen, HolesText(d, n, idx, Tok(RParen, more)));
  }

  lemma PieceTextIs(k: Style, d: Driver, c: Piece, idx: nat, more: Text)
    ensures TextOf(PieceTokens(k, d, c, idx), more) == PieceText(k, d, c, idx, more)
  {
    if c.RawPiece? {
      TextOfOne(Raw(c.text, |c.args|), more);
    } else if k.Full? && c.op.InList? {
      if c.value.List? { InTextIs(d, c.column, |c.value.vs|, idx, more); }
    } else {
      TextOfThree(Col(c.column), Op(c.op), Placeholder(d, idx), more);
    }
  }

  function CondText(k: Style, d: Driver, cs: seq<Piece>, idx: nat): Text
    requires cs != []
    decreases |cs|, 0
  {
    PieceText(k, d, cs[0], idx, MoreText(k, d, cs[1..], idx + |PieceArgs(k, cs[0])|))
  }

  function MoreText(k: Style, d: Driver, cs: seq<Piece>, idx: nat): Text
    decreases |cs|, 1
  {
    if cs == [] then End else Tok(Joiner(cs[0].isOr), CondText(k, d, cs, idx))
  }

  lemma {:induction false} CondTextIs(k: Style, d: Driver, cs: seq<Piece>, idx: nat)
    requires cs != []
    ensures TextOf(CondTokens(k, d, cs, idx), End) == CondText(k, d, cs, idx)
    decreases |cs|
  {
    var next, tail := idx + |PieceArgs(k, cs[0])|, cs[1..];
    TextOfConcat(PieceTokens(k, d, cs[0], idx), MoreTokens(k, d, tail, next), End);
    if tail != [] {
      CondTextIs(k, d, tail, next);
      TextOfConcat([Joiner(tail[0].isOr)], CondTokens(k, d, tail, next), End);
      TextOfOne(Joiner(tail[0].isOr), CondText(k, d, tail, next));
    }
    PieceTextIs(k, d, cs[0], idx, MoreText(k, d, tail, next));
  }

  // ------------------------------------------------------------ reading undoes writing

  lemma ScalarsHead(vs: seq<int>, idx: nat, args: seq<Value>)
    requires vs != [] && 1 <= idx && idx - 1 + |vs| <= |args| && args[idx - 1..idx - 1 + |vs|] == Scalars(vs)
    ensures args[idx - 1] == Scalar(vs[0]) && args[idx..idx + |vs[1..]|] == Scalars(vs[1..])
  {
    assert args[idx - 1] == args[idx - 1..idx - 1 + |vs|][0];
    assert args[idx..idx + |vs[1..]|] == args[idx - 1..idx - 1 + |vs|][1..];
  }

  lemma {:induction false} ReadHoles(d: Driver, vs: seq<int>, idx: nat, args: seq<Value>, more: Text)
    requires 1 <= idx && idx - 1 + |vs| <= |args| && args[idx - 1..idx - 1 + |vs|] == Scalars(vs)
    ensures ReadList(HolesText(d, |vs|, idx, Tok(RParen, more)), args, idx) == Read(Scalars(vs), more, idx + |vs|)
    decreases |vs|
  {
    if vs != [] {
      ScalarsHead(vs, idx, args);
      if |vs| == 1 {
        assert Scalars(vs) == [Scalar(vs[0])] by { assert vs[1..] == []; }
      } else {
        ReadHoles(d, vs[1..], idx + 1, args, more);
      }
    }
  }

  /** What follows a condition: the end or a joiner. */
  predicate Follows(t: Text) { t.End? || t.head.And? || t.head.Or? }

  /** One condition, wherever it stands, is read back with its own values; SQL refuses it exactly if
      it is not readable. */
  lemma ReadPiece(k: Style, d: Driver, c: Piece, idx: nat, args: seq<Value>, more: Text)
    requires 1 <= idx && idx - 1 + |PieceArgs(k, c)| <= |args| && Follows(more)
    requires args[idx - 1..idx - 1 + |PieceArgs(k, c)|] == PieceArgs(k, c)
    ensures ReadAtom(d, PieceText(k, d, c, idx, more), args, idx) ==
            if Readable(k, d, c) then Read(AtomOf(c), more, idx + |PieceArgs(k, c)|) else Failed
  {
    if c.Test? {
      if k.Full? && c.op.InList? {
        if c.value.List? { ReadHoles(d, c.value.vs, idx, args, more); }
      } else {
        assert args[idx - 1] == args[idx - 1..idx][0];
      }
    }
  }

  /** From position idx on, the arguments are those of the conditions. */
  ghost predicate Aligned(k: Style, cs: seq<Piece>, args: seq<Value>, idx: nat) {
    1 <= idx && idx - 1 + |CondArgs(k, cs)| <= |args| && args[idx - 1..idx - 1 + |CondArgs(k, cs)|] == CondArgs(k, cs)
  }

  lemma AlignedHead(k: Style, cs: seq<Piece>, args: seq<Value>, idx: nat)
    requires cs != [] && Aligned(k, cs, args, idx)
    ensures idx - 1 + |PieceArgs(k, cs[0])| <= |args| && args[idx - 1..idx - 1 + |PieceArgs(k, cs[0])|] == PieceArgs(k, cs[0])
    ensures Aligned(k, cs[1..], args, idx + |PieceArgs(k, cs[0])|)
  {
    var a, n := PieceArgs(k, cs[0]), |PieceArgs(k, cs[0])|;
    var all := args[idx - 1..idx - 1 + |CondArgs(k, cs)|];
    assert all[..n] == args[idx - 1..idx - 1 + n] && all[n..] == args[idx - 1 + n..idx - 1 + |CondArgs(k, cs)|];
    assert CondArgs(k, cs)[..n] == a && CondArgs(k, cs)[n..] == CondArgs(k, cs[1..]);
  }

  /** The placeholder number at which the conditions after the first group begin. */
  function OthersAt(k: Style, cs: seq<Piece>, idx: nat): nat
    requires cs != []
  {
    if Alone(cs) then idx + |PieceArgs(k, cs[0])| else OthersAt(k, cs[1..], idx + |PieceArgs(k, cs[0])|)
  }

  /** The conditions of the first AND-group, all readable. */
  predicate FirstReadable(k: Style, d: Driver, cs: seq<Piece>)
    requires cs != []
  {
    Readable(k, d, cs[0]) && (Alone(cs) || FirstReadable(k, d, cs[1..]))
  }

  lemma {:induction false} ReadableSplit(k: Style, d: Driver, cs: seq<Piece>)
    requires cs != []
    ensures AllReadable(k, d, cs) <==> FirstReadable(k, d, cs) && AllReadable(k, d, Others(cs))
    decreases |cs|
  {
    assert AllReadable(k, d, cs) <==> Readable(k, d, cs[0]) && AllReadable(k, d, cs[1..]) by {
      assert forall i :: 0 <= i < |cs[1..]| ==> cs[1..][i] == cs[i + 1];
      assert forall i :: 1 <= i < |cs| ==> cs[i] == cs[1..][i - 1];
    }
    if !Alone(cs) { ReadableSplit(k, d, cs[1..]); }
  }

  /** The first condition of a list. */
  lemma ReadHead(k: Style, d: Driver, cs: seq<Piece>, idx: nat, args: seq<Value>)
    requires cs != [] && Aligned(k, cs, args, idx)
    ensures
      var next := idx + |PieceArgs(k, cs[0])|;
      ReadAtom(d, CondText(k, d, cs, idx), args, idx) ==
        if Readable(k, d, cs[0]) then Read(AtomOf(cs[0]), MoreText(k, d, cs[1..], next), next) else Failed
  {
    AlignedHead(k, cs, args, idx);
    ReadPiece(k, d, cs[0], idx, args, MoreText(k, d, cs[1..], idx + |PieceArgs(k, cs[0])|));
  }

  lemma {:induction false} OthersAligned(k: Style, cs: seq<Piece>, idx: nat, args: seq<Value>)
    requires cs != [] && Aligned(k, cs, args, idx)
    ensures Aligned(k, Others(cs), args, OthersAt(k, cs, idx))
    decreases |cs|
  {
    AlignedHead(k, cs, args, idx);
    if !Alone(cs) { OthersAligned(k, cs[1..], idx + |PieceArgs(k, cs[0])|, args); }
  }

  lemma ConjReads(d: Driver, t: Text, args: seq<Value>, pos: nat, a: Read<Atom>, more: Read<seq<Atom>>)
    requires ReadAtom(d, t, args, pos) == a
    requires a.Read? && a.rest.Tok? && a.rest.head.And? ==> ReadConj(d, a.rest.tail, args, a.pos) == more
    ensures ReadConj(d, t, args, pos) ==
      if a.Failed? then Failed
      else if a.rest.End? || !a.rest.head.And? then Read([a.value], a.rest, a.pos)
      else if more.Failed? then Failed else Read([a.value] + more.value, more.rest, more.pos)
  {
  }

  /** What reading the first AND-group must give. */
  function GroupRead(k: Style, d: Driver, cs: seq<Piece>, idx: nat): Read<seq<Atom>>
    requires cs != []
  {
    var j := OthersAt(k, cs, idx);
    if FirstReadable(k, d, cs) then Read(FirstGroup(cs), MoreText(k, d, Others(cs), j), j) else Failed
  }

  lemma ConjFails(d: Driver, t: Text, args: seq<Value>, pos: nat)
    requires ReadAtom(d, t, args, pos).Failed?
    ensures ReadConj(d, t, args, pos).Failed?
  {
  }

  lemma ConjEnds(d: Driver, t: Text, args: seq<Value>, pos: nat, a: Atom, rest: Text, next: nat)
    requires ReadAtom(d, t, args, pos) == Read(a, rest, next) && (rest.End? || !rest.head.And?)
    ensures ReadConj(d, t, args, pos) == Read([a], rest, next)
  {
  }

  lemma MoreEnds(k: Style, d: Driver, cs: seq<Piece>, idx: nat)
    requires cs != [] && Alone(cs)
    ensures var rest := MoreText(k, d, cs[1..], idx); rest.End? || !rest.head.And?
    ensures Others(cs) == cs[1..] && FirstGroup(cs) == [AtomOf(cs[0])]
  {
  }

  lemma GroupEnds(k: Style, d: Driver, cs: seq<Piece>, idx: nat, args: seq<Value>)
    requires cs != [] && Alone(cs) && Aligned(k, cs, args, idx)
    ensures ReadConj(d, CondText(k, d, cs, idx), args, idx) == GroupRead(k, d, cs, idx)
  {
    var next := idx + |PieceArgs(k, cs[0])|;
    ReadHead(k, d, cs, idx, args);
    MoreEnds(k, d, cs, next);
    if Readable(k, d, cs[0]) {
      ConjEnds(d, CondText(k, d, cs, idx), args, idx, AtomOf(cs[0]), MoreText(k, d, cs[1..], next), next);
    } else {
      ConjFails(d, CondText(k, d, cs, idx), args, idx);
    }
  }

  lemma GroupGoesOn(k: Style, d: Driver, cs: seq<Piece>, idx: nat, args: seq<Value>)
    requires cs != [] && !Alone(cs) && Aligned(k, cs, args, idx)
    requires
      var next := idx + |PieceArgs(k, cs[0])|;
      ReadConj(d, CondText(k, d, cs[1..], next), args, next) == GroupRead(k, d, cs[1..], next)
    ensures ReadConj(d, CondText(k, d, cs, idx), args, idx) == GroupRead(k, d, cs, idx)
  {
    var next := idx + |PieceArgs(k, cs[0])|;
    ReadHead(k, d, cs, idx, args);
    if Readable(k, d, cs[0]) {
      ConjReads(d, CondText(k, d, cs, idx), args, idx, Read(AtomOf(cs[0]), MoreText(k, d, cs[1..], next), next), GroupRead(k, d, cs[1..], next));
    } else {
      ConjFails(d, CondText(k, d, cs, idx), args, idx);
    }
  }

  /** The first AND-group is read up to the end or an OR, or refused. */
  lemma {:induction false} ReadGroup(k: Style, d: Driver, cs: seq<Piece>, idx: nat, args: seq<Value>)
    requires cs != [] && Aligned(k, cs, args, idx)
    ensures ReadConj(d, CondText(k, d, cs, idx), args, idx) == GroupRead(k, d, cs, idx)
    decreases |cs|
  {
    if Alone(cs) {
      GroupEnds(k, d, cs, idx, args);
    } else {
      AlignedHead(k, cs, args, idx);
      ReadGroup(k, d, cs[1..], idx + |PieceArgs(k, cs[0])|, args);
      GroupGoesOn(k, d, cs, idx, args);
    }
  }

  lemma {:induction false} ReadText(k: Style, d: Driver, cs: seq<Piece>, idx: nat, args: seq<Value>)
    requires cs != [] && Aligned(k, cs, args, idx)
    ensures ReadDisj(d, CondText(k, d, cs, idx), args, idx) == if AllReadable(k, d, cs) then Some(Groups(cs)) else None
    decreases |cs|
  {
    ReadGroup(k, d, cs, idx, args);
    OthersAligned(k, cs, idx, args);
    ReadableSplit(k, d, cs);
    var rest, j := Others(cs), OthersAt(k, cs, idx);
    if rest == [] {
      assert Groups(cs) == [FirstGroup(cs)];
    } else {
      ReadText(k, d, rest, j, args);
    }
  }

  /** Read with SQL's precedence, the tokens that a loop emits and the arguments it collects give
      back the builder's conditions, each with its own values, as an OR of AND-groups; SQL
      refuses them exactly if some condition is not readable. */
  lemma ReadingRecoversClauses(k: Style, d: Driver, cs: seq<Piece>, idx: nat, args: seq<Value>)
    requires cs != [] && Aligned(k, cs, args, idx)
    ensures Understood(d, CondTokens(k, d, cs, idx), args, idx) == if AllReadable(k, d, cs) then Some(Groups(cs)) else None
  {
    CondTextIs(k, d, cs, idx);
    ReadText(k, d, cs, idx, args);
  }

  /** The lower-case operator "in", which the builder lets through, is refused by every database,
      with a list as with a single value. */
  lemma LowerCaseInRefused(k: Style, d: Driver, column: string, v: Value)
    ensures Understood(d, CondTokens(k, d, [Test(false, column, LowerIn, v)], 1), [v], 1).None?
  {
    var cs := [Test(false, column, LowerIn, v)];
    assert CondArgs(k, cs) == [v] by { assert cs[1..] == []; }
    assert [v][0..1] == [v];
    ReadingRecoversClauses(k, d, cs, 1, [v]);
    assert !Readable(k, d, cs[0]);
  }

  // ------------------------------------------------------------ the shorter loop

  lemma DifferentHead(d: Driver, cs: seq<Piece>, idx: nat)
    requires cs != [] && IsIn(cs[0])
    ensures CondTokens(Short, d, cs, idx) != CondTokens(Full, d, cs, idx)
  {
    var a, b := CondTokens(Short, d, cs, idx), CondTokens(Full, d, cs, idx);
    assert a[0] == Col(cs[0].column) && a[1] == Op(InList);
    if cs[0].value.List? {
      assert b[1] == In;
    } else if |cs| > 1 {
      assert b == MoreTokens(Full, d, cs[1..], idx);
      assert b[0] == Joiner(cs[1].isOr);
    } else {
      assert cs[1..] == [] && MoreTokens(Full, d, cs[1..], idx) == [];
      assert PieceTokens(Full, d, cs[0], idx) == [];
      assert b == [];
    }
  }

  lemma SameTails(h: seq<Token>, a: seq<Token>, b: seq<Token>)
    ensures h + a == h + b <==> a == b
  {
    if h + a == h + b { assert a == (h + a)[|h|..] == (h + b)[|h|..] == b; }
  }

  /** The shorter loop writes the same condition exactly if there is no IN. */
  lemma {:induction false} ShortAgreesIff(d: Driver, cs: seq<Piece>, idx: nat)
    requires cs != []
    ensures CondTokens(Short, d, cs, idx) == CondTokens(Full, d, cs, idx) <==> forall i :: 0 <= i < |cs| ==> !IsIn(cs[i])
    decreases |cs|
  {
    if IsIn(cs[0]) {
      DifferentHead(d, cs, idx);
    } else {
      var h, tail, next := PieceTokens(Full, d, cs[0], idx), cs[1..], idx + |PieceArgs(Full, cs[0])|;
      SameTails(h, MoreTokens(Short, d, tail, next), MoreTokens(Full, d, tail, next));
      if tail != [] {
        ShortAgreesIff(d, tail, next);
        SameTails([Joiner(tail[0].isOr)], CondTokens(Short, d, tail, next), CondTokens(Full, d, tail, next));
        assert (forall i :: 0 <= i < |cs| ==> !IsIn(cs[i])) <==> (forall i :: 0 <= i < |tail| ==> !IsIn(tail[i])) by {
          assert forall i :: 0 <= i < |tail| ==> tail[i] == cs[i + 1];
          assert forall i :: 1 <= i < |cs| ==> cs[i] == tail[i - 1];
        }
      }
    }
  }

  // ------------------------------------------------------------ conditions after conditions

  lemma {:induction false} ArgsConcat(k: Style, a: seq<Piece>, b: seq<Piece>)
    ensures CondArgs(k, a + b) == CondArgs(k, a) + CondArgs(k, b)
  {
    if a == [] {
      assert a + b == b;
    } else {
      ArgsConcat(k, a[1..], b);
      assert (a + b)[0] == a[0] && (a + b)[1..] == a[1..] + b;
      Regroup(PieceArgs(k, a[0]), CondArgs(k, a[1..]), CondArgs(k, b));
    }
  }

  /** A condition written piece by piece can be written in two parts. */
  lemma {:induction false} MoreConcat(k: Style, d: Driver, a: seq<Piece>, b: seq<Piece>, idx: nat)
    ensures MoreTokens(k, d, a + b, idx) == MoreTokens(k, d, a, idx) + MoreTokens(k, d, b, idx + |CondArgs(k, a)|)
    decreases |a|
  {
    if a == [] {
      assert a + b == b && [] + MoreTokens(k, d, b, idx) == MoreTokens(k, d, b, idx);
    } else {
      CondConcat(k, d, a, b, idx);
      assert (a + b)[0] == a[0];
      Regroup([Joiner(a[0].isOr)], CondTokens(k, d, a, idx), MoreTokens(k, d, b, idx + |CondArgs(k, a)|));
    }
  }

  lemma CondHead(k: Style, d: Driver, a: seq<Piece>, b: seq<Piece>, idx: nat)
    requires a != []
    ensures CondTokens(k, d, a + b, idx) == PieceTokens(k, d, a[0], idx) + MoreTokens(k, d, a[1..] + b, idx + |PieceArgs(k, a[0])|)
    ensures |CondArgs(k, a)| == |PieceArgs(k, a[0])| + |CondArgs(k, a[1..])|
  {
    assert (a + b)[0] == a[0] && (a + b)[1..] == a[1..] + b;
  }

  lemma {:induction false} CondConcat(k: Style, d: Driver, a: seq<Piece>, b: seq<Piece>, idx: nat)
    requires a != []
    ensures CondTokens(k, d, a + b, idx) == CondTokens(k, d, a, idx) + MoreTokens(k, d, b, idx + |CondArgs(k, a)|)
    decreases |a|, 0
  {
    var next := idx + |PieceArgs(k, a[0])|;
    CondHead(k, d, a, b, idx);
    MoreConcat(k, d, a[1..], b, next);
    Regroup(PieceTokens(k, d, a[0], idx), MoreTokens(k, d, a[1..], next), MoreTokens(k, d, b, next + |CondArgs(k, a[1..])|));
  }
}
