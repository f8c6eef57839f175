/**
 Cron fields (schedule/schedule.go). A field is "*" or a comma list of values, ranges and
 steps; parsing collects the numbers it denotes. The loop of a range may go on for long or
 for ever, so parsing is followed for a number of rounds in each loop.
 */
module Cron {
  import opened Wrappers
  import opened Strings
  import opened Numerals
  import opened GoTypes
  import opened CronLoops
  import opened Powers

  datatype Field = Field(all: bool, items: set<int>)

  datatype Outcome = Parsed(field: Field) | Bad | Running

  // ------------------------------------------------------------ what a field denotes

  datatype Part = Value(n: int) | Range(a: int, b: int, step: int) | Every(step: int)

  /** A part with numbers that fit into 64 bits and a positive step. */
  predicate Proper(p: Part) {
    match p
    case Value(_) => true
    case Range(a, b, step) => MIN_INT <= a <= MAX_INT && MIN_INT <= b <= MAX_INT && 0 < step <= MAX_INT
    case Every(step) => 0 < step <= MAX_INT
  }

  predicate Denotes(p: Part, min: int, max: int, v: int)
    requires Proper(p)
  {
    match p
    case Value(n) => v == n
    case Range(a, b, step) => Progression(a, b, step, v)
    case Every(step) => Progression(min, max, step, v)
  }

  /** The counter of a range passes the largest integer. */
  predicate RangeOverruns(p: Part)
    requires Proper(p)
  {
    p.Range? && Overruns(p.a, p.b, p.step)
  }

  /** The loop of the part comes to its end: a range must stay below the top of its counter. */
  predicate Ends(p: Part)
    requires Proper(p)
  {
    p.Range? ==> p.b < Top(p.a, p.step)
  }

  /** The part lets v through: it denotes v, or it is a range that overruns and whose counter
      comes to v before it is above the bound. */
  ghost predicate Admits(p: Part, min: int, max: int, v: int)
    requires Proper(p)
  {
    Denotes(p, min, max, v) || (RangeOverruns(p) && Passes(p.a, p.b, p.step, v))
  }

  // ------------------------------------------------------------ reading

  function ParseBody(body: string, step: int): (p: Option<Part>)
    requires 0 < step <= MAX_INT
    ensures p.Some? ==> Proper(p.value)
  {
    if '-' in body then
      var a, b := Atoi(Before(body, '-')), Atoi(After(body, '-'));
      if a.None? || b.None? then None else Some(Range(a.value, b.value, step))
    else if Atoi(body).None? then None
    else Some(Value(Atoi(body).value))
  }

  /** One part of the list. A step on a single value is checked and has no effect. */
  function ParsePart(text: string): (p: Option<Part>)
    ensures p.Some? ==> Proper(p.value)
  {
    var part := TrimSpace(text);
    if '/' in part then
      var n := Atoi(After(part, '/'));
      if n.None? || n.value <= 0 then None
      else if Before(part, '/') == "*" then Some(Every(n.value))
      else ParseBody(Before(part, '/'), n.value)
    else ParseBody(part, 1)
  }

  /** The numbers in range. */
  function Within(vs: set<int>, min: int, max: int): set<int> { set v | v in vs && min <= v <= max }

  /** What the loop over the parts does with one of them. */
  function PartItems(p: Part, min: int, max: int, rounds: nat): Visited
    requires Proper(p)
  {
    match p
    case Value(n) => Visited(if min <= n <= max then {n} else {}, true)
    case Range(a, b, step) =>
      var r := Visit(a, b, step, rounds);
      Visited(Within(r.seen, min, max), r.ended)
    case Every(step) => Visit(min, max, step, rounds)
  }

  datatype Scanned = Items(items: set<int>) | ScanBad | ScanRunning

  ghost predicate ProperIfAny(ps: seq<Option<Part>>) { forall i :: 0 <= i < |ps| && ps[i].Some? ==> Proper(ps[i].value) }

  /** The parts of the list, each parsed. */
  function ParseAll(texts: seq<string>): (ps: seq<Option<Part>>)
    ensures |ps| == |texts| && ProperIfAny(ps) && forall i :: 0 <= i < |ps| ==> ps[i] == ParsePart(texts[i])
  {
    seq(|texts|, i requires 0 <= i < |texts| => ParsePart(texts[i]))
  }

  /** The parts up to the first one that is wrong or whose loop has not ended. */
  function Scan(ps: seq<Option<Part>>, min: int, max: int, rounds: nat): Scanned
    requires ProperIfAny(ps)
  {
    if ps == [] then Items({})
    else if ps[0].None? then ScanBad
    else
      var r := PartItems(ps[0].value, min, max, rounds);
      if !r.ended then ScanRunning else With(r.seen, Scan(ps[1..], min, max, rounds))
  }

  function With(items: set<int>, s: Scanned): Scanned { if s.Items? then Items(items + s.items) else s }

  function FieldOf(s: string, min: int, max: int, rounds: nat): Outcome {
    if s == "*" then Parsed(Field(true, {}))
    else
      match Scan(ParseAll(Split(s, ',')), min, max, rounds)
      case Items(items) => Parsed(Field(false, items))
      case ScanBad => Bad
      case ScanRunning => Running
  }

  /** cronField.match. */
  predicate Match(f: Field, v: int) { f.all || v in f.items }

  // ------------------------------------------------------------ the grammar

  predicate Number(text: string, n: int) { Atoi(text) == Some(n) }

  /** s is x and y with the first c between them. */
  ghost predicate Cut(s: string, c: char, x: string, y: string) { s == x + [c] + y && c !in x }

  lemma CutIff(s: string, c: char, x: string, y: string)
    ensures Cut(s, c, x, y) <==> c in s && x == Before(s, c) && y == After(s, c)
  {
    if Cut(s, c, x, y) {
      IndexOfFirst(x, c, y);
      assert s[|x|] == c;
    } else if c in s {
      var i := IndexOf(s, c);
      assert s == s[..i] + [c] + s[i + 1..];
    }
  }

  /** value "-" value */
  ghost predicate SpellsRange(body: string, a: int, b: int) {
    exists x: string, y: string :: Cut(body, '-', x, y) && Number(x, a) && Number(y, b)
  }

  /** value | value "-" value */
  ghost predicate SpellsBody(body: string, step: int, p: Part) {
    match p
    case Value(n) => '-' !in body && Number(body, n)
    case Range(a, b, s) => s == step && SpellsRange(body, a, b)
    case Every(_) => false
  }

  ghost predicate SpellsStepped(x: string, z: string, p: Part) {
    && Atoi(z).Some?
    && Atoi(z).value > 0
    && if x == "*" then p == Every(Atoi(z).value) else SpellsBody(x, Atoi(z).value, p)
  }

  /** body | body "/" step | "*" "/" step, where a step is positive. */
  ghost predicate Spells(part: string, p: Part) {
    ('/' !in part && SpellsBody(part, 1, p)) || exists x: string, z: string :: Cut(part, '/', x, z) && SpellsStepped(x, z, p)
  }

  lemma RangeIff(body: string, a: int, b: int)
    ensures SpellsRange(body, a, b) <==> '-' in body && Number(Before(body, '-'), a) && Number(After(body, '-'), b)
  {
    if x: string, y: string :| Cut(body, '-', x, y) && Number(x, a) && Number(y, b) { CutIff(body, '-', x, y); }
    if '-' in body { CutIff(body, '-', Before(body, '-'), After(body, '-')); }
  }

  lemma ParseBodyIff(body: string, step: int, p: Part)
    requires 0 < step <= MAX_INT
    ensures ParseBody(body, step) == Some(p) <==> SpellsBody(body, step, p)
  {
    if p.Range? { RangeIff(body, p.a, p.b); }
  }

  lemma SteppedIff(part: string, p: Part)
    ensures (exists x: string, z: string :: Cut(part, '/', x, z) && SpellsStepped(x, z, p))
            <==> '/' in part && SpellsStepped(Before(part, '/'), After(part, '/'), p)
  {
    if x: string, z: string :| Cut(part, '/', x, z) && SpellsStepped(x, z, p) { CutIff(part, '/', x, z); }
    if '/' in part { CutIff(part, '/', Before(part, '/'), After(part, '/')); }
  }

  /** Parsing a part recognises the grammar, and nothing else. */
  lemma ParsePartIff(text: string, p: Part)
    ensures ParsePart(text) == Some(p) <==> Spells(TrimSpace(text), p)
  {
    var part := TrimSpace(text);
    SteppedIff(part, p);
    if '/' in part {
      var n := Atoi(After(part, '/'));
      if n.Some? && n.value > 0 { ParseBodyIff(Before(part, '/'), n.value, p); }
    } else {
      ParseBodyIff(part, 1, p);
    }
  }

  // ------------------------------------------------------------ accepted fields

  /** The part is right and its loop has ended. */
  predicate Good(p: Option<Part>, min: int, max: int, rounds: nat) {
    p.Some? && Proper(p.value) && PartItems(p.value, min, max, rounds).ended
  }

  predicate AllGood(ps: seq<Option<Part>>, min: int, max: int, rounds: nat) {
    forall i :: 0 <= i < |ps| ==> Good(ps[i], min, max, rounds)
  }

  /** v is stored for the part. */
  predicate StoredFor(p: Option<Part>, min: int, max: int, rounds: nat, v: int) {
    p.Some? && Proper(p.value) && v in PartItems(p.value, min, max, rounds).seen
  }

  predicate AnyStores(ps: seq<Option<Part>>, min: int, max: int, rounds: nat, v: int) {
    exists i :: 0 <= i < |ps| && StoredFor(ps[i], min, max, rounds, v)
  }

  lemma {:induction false} ScanItemsIff(ps: seq<Option<Part>>, min: int, max: int, rounds: nat, v: int)
    requires ProperIfAny(ps)
    ensures
      var r := Scan(ps, min, max, rounds);
      && (r.Items? <==> AllGood(ps, min, max, rounds))
      && (r.Items? ==> (v in r.items <==> AnyStores(ps, min, max, rounds, v)))
  {
    if ps != [] {
      var tail := ps[1..];
      ScanItemsIff(tail, min, max, rounds, v);
      assert forall i :: 1 <= i < |ps| ==> ps[i] == tail[i - 1];
      assert forall i :: 0 <= i < |tail| ==> tail[i] == ps[i + 1];
      assert AllGood(ps, min, max, rounds) <==> Good(ps[0], min, max, rounds) && AllGood(tail, min, max, rounds);
      assert AnyStores(ps, min, max, rounds, v) <==> StoredFor(ps[0], min, max, rounds, v) || AnyStores(tail, min, max, rounds, v);
    }
  }

  /** The five fields count from 0 or 1 to less than sixty. */
  predicate FieldBounds(min: int, max: int) { 0 <= min <= 1 <= max <= MAX_INT / 2 }

  /** A number of rounds after which the loop of a part that does not overrun has ended. */
  function Enough(p: Part, min: int, max: int): int {
    match p
    case Value(_) => 0
    case Range(a, b, _) => b - a + 1
    case Every(_) => if max - min + 1 >= 3 then max - min + 1 else 3
  }

  /** What is stored for a part beside the numbers it denotes. */
  function Stray(p: Part, min: int, max: int): set<int>
    requires Proper(p)
  {
    if p.Every? && Overruns(min, max, p.step) then {MIN_INT, -1} else {}
  }

  function DenotedSet(p: Part, min: int, max: int): set<int>
    requires Proper(p)
  {
    set v: int | min <= v <= max && Denotes(p, min, max, v)
  }

  /** The loop of a part that is no overrunning range ends and stores the numbers it denotes. */
  lemma PartStores(p: Part, min: int, max: int, rounds: nat)
    requires FieldBounds(min, max) && Proper(p) && !RangeOverruns(p) && rounds >= Enough(p, min, max)
    ensures PartItems(p, min, max, rounds) == Visited(DenotedSet(p, min, max) + Stray(p, min, max), true)
  {
    match p
    case Value(n) => assert DenotedSet(p, min, max) == if min <= n <= max then {n} else {};
    case Range(a, b, step) => VisitExact(a, b, step, rounds);
    case Every(step) => StarVisits(min, max, step, rounds);
  }

  /** And whenever it has ended, it has stored just that. */
  lemma PartStored(p: Part, min: int, max: int, rounds: nat)
    requires FieldBounds(min, max) && Proper(p) && !RangeOverruns(p) && PartItems(p, min, max, rounds).ended
    ensures PartItems(p, min, max, rounds).seen == DenotedSet(p, min, max) + Stray(p, min, max)
  {
    var e := Enough(p, min, max);
    var enough: nat := if e >= 0 then e else 0;
    PartStores(p, min, max, enough);
    match p
    case Value(_) =>
    case Range(a, b, step) => VisitStable(a, b, step, rounds, enough);
    case Every(step) => VisitStable(min, max, step, rounds, enough);
  }

  /** A number in range is stored for a part exactly if the part lets it through. */
  lemma StoredIff(p: Part, min: int, max: int, rounds: nat, v: int)
    requires FieldBounds(min, max) && Proper(p) && PartItems(p, min, max, rounds).ended && min <= v <= max
    ensures v in PartItems(p, min, max, rounds).seen <==> Admits(p, min, max, v)
  {
    if RangeOverruns(p) {
      SeenIff(p.a, p.b, p.step, rounds, v);
      if Denotes(p, min, max, v) { MeantIsSeen(p.a, p.b, p.step, rounds, v); }
    } else {
      PartStored(p, min, max, rounds);
    }
  }

  /** A part of the list, as the grammar reads it, denotes v. */
  ghost predicate SomePartDenotes(texts: seq<string>, min: int, max: int, v: int) {
    exists i, p :: 0 <= i < |texts| && Spells(TrimSpace(texts[i]), p) && Proper(p) && Denotes(p, min, max, v)
  }

  /** A part of the list, as the grammar reads it, lets v through. */
  ghost predicate SomePartAdmits(texts: seq<string>, min: int, max: int, v: int) {
    exists i, p :: 0 <= i < |texts| && Spells(TrimSpace(texts[i]), p) && Proper(p) && Admits(p, min, max, v)
  }

  /** The parts of a field. */
  function PartsOf(s: string): (ps: seq<Option<Part>>)
    ensures ProperIfAny(ps)
  {
    ParseAll(Split(s, ','))
  }

  /** None of the ranges overruns. */
  predicate NoOverrun(ps: seq<Option<Part>>) {
    forall i :: 0 <= i < |ps| && ps[i].Some? && Proper(ps[i].value) ==> !RangeOverruns(ps[i].value)
  }

  ghost predicate AnyPartAdmits(ps: seq<Option<Part>>, min: int, max: int, v: int) {
    exists i :: 0 <= i < |ps| && ps[i].Some? && Proper(ps[i].value) && Admits(ps[i].value, min, max, v)
  }

  lemma StoredAdmits(ps: seq<Option<Part>>, min: int, max: int, rounds: nat, v: int)
    requires FieldBounds(min, max) && ProperIfAny(ps) && AllGood(ps, min, max, rounds) && min <= v <= max
    ensures AnyStores(ps, min, max, rounds, v) <==> AnyPartAdmits(ps, min, max, v)
  {
    forall i | 0 <= i < |ps|
      ensures ps[i].Some? && Proper(ps[i].value) && (StoredFor(ps[i], min, max, rounds, v) <==> Admits(ps[i].value, min, max, v))
    {
      assert Good(ps[i], min, max, rounds);
      StoredIff(ps[i].value, min, max, rounds, v);
    }
  }

  /** The grammar reads the parts as parsing does. */
  lemma SpelledAdmits(texts: seq<string>, min: int, max: int, v: int)
    ensures AnyPartAdmits(ParseAll(texts), min, max, v) <==> SomePartAdmits(texts, min, max, v)
  {
    var ps := ParseAll(texts);
    if i :| 0 <= i < |ps| && ps[i].Some? && Proper(ps[i].value) && Admits(ps[i].value, min, max, v) {
      ParsePartIff(texts[i], ps[i].value);
    }
    if i, p :| 0 <= i < |texts| && Spells(TrimSpace(texts[i]), p) && Proper(p) && Admits(p, min, max, v) {
      ParsePartIff(texts[i], p);
      assert ps[i] == Some(p);
    }
  }

  /** In an accepted field a number in range matches exactly if the field is "*" or some comma part
      lets it through. */
  lemma AcceptedMatches(s: string, min: int, max: int, rounds: nat, v: int)
    requires FieldBounds(min, max) && FieldOf(s, min, max, rounds).Parsed? && min <= v <= max
    ensures Match(FieldOf(s, min, max, rounds).field, v) <==> s == "*" || SomePartAdmits(Split(s, ','), min, max, v)
  {
    if s != "*" {
      ScanItemsIff(PartsOf(s), min, max, rounds, v);
      StoredAdmits(PartsOf(s), min, max, rounds, v);
      SpelledAdmits(Split(s, ','), min, max, v);
    }
  }

  /** Where no range overruns, to let a number through is to denote it. */
  lemma AdmitsIsDenotes(texts: seq<string>, min: int, max: int, v: int)
    requires NoOverrun(ParseAll(texts))
    ensures SomePartAdmits(texts, min, max, v) <==> SomePartDenotes(texts, min, max, v)
  {
    if i, p :| 0 <= i < |texts| && Spells(TrimSpace(texts[i]), p) && Proper(p) && Admits(p, min, max, v) {
      ParsePartIff(texts[i], p);
      assert ParseAll(texts)[i] == Some(p);
    }
    if i, p :| 0 <= i < |texts| && Spells(TrimSpace(texts[i]), p) && Proper(p) && Denotes(p, min, max, v) {
      assert Admits(p, min, max, v);
    }
  }

  /** In particular, if none of its ranges overruns, a number matches exactly if the field is "*" or
      some comma part denotes it. */
  lemma DenotedMatches(s: string, min: int, max: int, rounds: nat, v: int)
    requires FieldBounds(min, max) && FieldOf(s, min, max, rounds).Parsed? && NoOverrun(PartsOf(s)) && min <= v <= max
    ensures Match(FieldOf(s, min, max, rounds).field, v) <==> s == "*" || SomePartDenotes(Split(s, ','), min, max, v)
  {
    AcceptedMatches(s, min, max, rounds, v);
    AdmitsIsDenotes(Split(s, ','), min, max, v);
  }

  /** Some part is a star whose counter overruns. */
  predicate HasStrayStar(ps: seq<Option<Part>>, min: int, max: int) {
    exists i :: 0 <= i < |ps| && ps[i].Some? && Proper(ps[i].value) && Stray(ps[i].value, min, max) != {}
  }

  lemma StrayStored(ps: seq<Option<Part>>, min: int, max: int, rounds: nat, v: int)
    requires FieldBounds(min, max) && ProperIfAny(ps) && AllGood(ps, min, max, rounds) && !(min <= v <= max)
    ensures AnyStores(ps, min, max, rounds, v) ==> HasStrayStar(ps, min, max)
    ensures v == -1 && HasStrayStar(ps, min, max) ==> AnyStores(ps, min, max, rounds, v)
  {
    forall i | 0 <= i < |ps|
      ensures ps[i].Some? && Proper(ps[i].value) && (StoredFor(ps[i], min, max, rounds, v) <==> v in Stray(ps[i].value, min, max))
    {
      assert Good(ps[i], min, max, rounds);
      if ps[i].value.Every? { PartStored(ps[i].value, min, max, rounds); }
    }
  }

  /** An accepted field stores only numbers in range exactly if none of its stars overruns. */
  lemma StoredInRangeIff(s: string, min: int, max: int, rounds: nat)
    requires FieldBounds(min, max) && FieldOf(s, min, max, rounds).Parsed? && s != "*"
    ensures (forall v :: v in FieldOf(s, min, max, rounds).field.items ==> min <= v <= max) <==> !HasStrayStar(PartsOf(s), min, max)
  {
    var ps, items := PartsOf(s), FieldOf(s, min, max, rounds).field.items;
    forall v | v in items && !(min <= v <= max)
      ensures HasStrayStar(ps, min, max)
    {
      ScanItemsIff(ps, min, max, rounds, v);
      StrayStored(ps, min, max, rounds, v);
    }
    if HasStrayStar(ps, min, max) {
      ScanItemsIff(ps, min, max, rounds, -1);
      StrayStored(ps, min, max, rounds, -1);
      assert -1 in items;
    }
  }

  ghost predicate Spelled(text: string) { exists p :: Spells(TrimSpace(text), p) }

  lemma SpelledIff(text: string)
    ensures Spelled(text) <==> ParsePart(text).Some?
  {
    if ParsePart(text).Some? { ParsePartIff(text, ParsePart(text).value); }
    if p :| Spells(TrimSpace(text), p) { ParsePartIff(text, p); }
  }

  /** Every comma part is grammatical. */
  ghost predicate AllSpelled(texts: seq<string>) { forall i :: 0 <= i < |texts| ==> Spelled(texts[i]) }

  predicate AllParsed(ps: seq<Option<Part>>) { forall i :: 0 <= i < |ps| ==> ps[i].Some? }

  lemma AllSpelledIff(texts: seq<string>)
    ensures AllSpelled(texts) <==> AllParsed(ParseAll(texts))
  {
    forall i | 0 <= i < |texts|
      ensures Spelled(texts[i]) <==> ParseAll(texts)[i].Some?
    {
      SpelledIff(texts[i]);
    }
  }

  /** The field is accepted after some number of rounds. */
  ghost predicate Accepted(s: string, min: int, max: int) { exists rounds: nat :: FieldOf(s, min, max, rounds).Parsed? }

  lemma RangeEndsIff(p: Part, min: int, max: int)
    requires Proper(p) && p.Range?
    ensures (exists rounds: nat :: PartItems(p, min, max, rounds).ended) <==> Ends(p)
  {
    EverEndsIff(p.a, p.b, p.step);
    if rounds: nat :| Visit(p.a, p.b, p.step, rounds).ended { assert PartItems(p, min, max, rounds).ended; }
    if rounds: nat :| PartItems(p, min, max, rounds).ended {
      assert Visit(p.a, p.b, p.step, rounds).ended;
      assert EverEnds(p.a, p.b, p.step);
    }
  }

  /** A part's loop ends after some number of rounds exactly if it is no range up to the top of its
      counter. */
  lemma PartEndsIff(p: Part, min: int, max: int)
    requires FieldBounds(min, max) && Proper(p)
    ensures (exists rounds: nat :: PartItems(p, min, max, rounds).ended) <==> Ends(p)
  {
    if p.Range? {
      RangeEndsIff(p, min, max);
    } else {
      var rounds: nat := Enough(p, min, max);
      PartStores(p, min, max, rounds);
    }
  }

  /** Every part is right, and its loop comes to its end. */
  ghost predicate AllEnd(ps: seq<Option<Part>>) { forall i :: 0 <= i < |ps| ==> ps[i].Some? && Proper(ps[i].value) && Ends(ps[i].value) }

  lemma GoodLonger(p: Option<Part>, min: int, max: int, rounds: nat, more: nat)
    requires Good(p, min, max, rounds) && rounds <= more
    ensures Good(p, min, max, more)
  {
    match p.value
    case Value(_) =>
    case Range(a, b, step) => MoreRounds(a, b, step, rounds, more);
    case Every(step) => MoreRounds(min, max, step, rounds, more);
  }

  /** Some number of rounds is enough for all parts. */
  lemma {:induction false} CommonRounds(ps: seq<Option<Part>>, min: int, max: int) returns (rounds: nat)
    requires FieldBounds(min, max) && AllEnd(ps)
    ensures AllGood(ps, min, max, rounds)
  {
    if ps == [] {
      rounds := 0;
    } else {
      var tail := CommonRounds(ps[1..], min, max);
      PartEndsIff(ps[0].value, min, max);
      var head: nat :| PartItems(ps[0].value, min, max, head).ended;
      rounds := if head > tail then head else tail;
      forall i | 0 <= i < |ps|
        ensures Good(ps[i], min, max, rounds)
      {
        if i == 0 {
          GoodLonger(ps[0], min, max, head, rounds);
        } else {
          assert ps[i] == ps[1..][i - 1];
          GoodLonger(ps[i], min, max, tail, rounds);
        }
      }
    }
  }

  lemma GoodIsEnding(ps: seq<Option<Part>>, min: int, max: int, rounds: nat)
    requires FieldBounds(min, max) && AllGood(ps, min, max, rounds)
    ensures AllEnd(ps)
  {
    forall i | 0 <= i < |ps|
      ensures ps[i].Some? && Proper(ps[i].value) && Ends(ps[i].value)
    {
      assert Good(ps[i], min, max, rounds);
      PartEndsIff(ps[i].value, min, max);
    }
  }

  /** The text is grammatical and no range up to the top of its counter. */
  ghost predicate SpelledEnding(text: string) { exists p :: Spells(TrimSpace(text), p) && Proper(p) && Ends(p) }

  ghost predicate AllSpelledEnding(texts: seq<string>) { forall i :: 0 <= i < |texts| ==> SpelledEnding(texts[i]) }

  lemma SpelledEndingIff(text: string)
    ensures SpelledEnding(text) <==> ParsePart(text).Some? && Ends(ParsePart(text).value)
  {
    if ParsePart(text).Some? { ParsePartIff(text, ParsePart(text).value); }
    if p :| Spells(TrimSpace(text), p) && Proper(p) && Ends(p) { ParsePartIff(text, p); }
  }

  lemma AllEndIff(texts: seq<string>)
    ensures AllSpelledEnding(texts) <==> AllEnd(ParseAll(texts))
  {
    forall i | 0 <= i < |texts|
      ensures SpelledEnding(texts[i]) <==> ParseAll(texts)[i].Some? && Ends(ParseAll(texts)[i].value)
    {
      SpelledEndingIff(texts[i]);
    }
  }

  /** A field with an ungrammatical part is never accepted. */
  lemma AcceptedIsSpelled(s: string, min: int, max: int, rounds: nat)
    requires FieldOf(s, min, max, rounds).Parsed? && s != "*"
    ensures AllSpelled(Split(s, ','))
  {
    AllSpelledIff(Split(s, ','));
    ScanItemsIff(PartsOf(s), min, max, rounds, 0);
    assert forall i :: 0 <= i < |PartsOf(s)| ==> Good(PartsOf(s)[i], min, max, rounds);
  }

  /** A field is accepted exactly if it is "*" or every comma part is grammatical and no range among
      them goes up to the top of its counter. */
  lemma AcceptedIff(s: string, min: int, max: int)
    requires FieldBounds(min, max)
    ensures Accepted(s, min, max) <==> s == "*" || AllSpelledEnding(Split(s, ','))
  {
    var ps := PartsOf(s);
    AllEndIff(Split(s, ','));
    if s == "*" {
      assert FieldOf(s, min, max, 0).Parsed?;
    } else {
      if rounds: nat :| FieldOf(s, min, max, rounds).Parsed? {
        ScanItemsIff(ps, min, max, rounds, 0);
        GoodIsEnding(ps, min, max, rounds);
      }
      if AllEnd(ps) {
        var rounds := CommonRounds(ps, min, max);
        ScanItemsIff(ps, min, max, rounds, 0);
        assert FieldOf(s, min, max, rounds).Parsed?;
      }
    }
  }

  // ------------------------------------------------------------ the loops

  /** The loop of a stepped star, which stores every counter. */
  method AddStar(items: set<int>, min: int, max: int, step: int, rounds: nat) returns (r: set<int>, ended: bool)
    ensures var all := Visit(min, max, step, rounds); ended == all.ended && (ended ==> r == items + all.seen)
  {
    r := items;
    var v, left: nat := min, rounds;
    while v <= max
      invariant Visit(min, max, step, rounds).ended == Visit(v, max, step, left).ended
      invariant items + Visit(min, max, step, rounds).seen == r + Visit(v, max, step, left).seen
      decreases left
    {
      if left == 0 { return r, false; }
      r := r + {v};
      v, left := Add(v, step), left - 1;
    }
    ended := true;
  }

  /** The loop of a range, which stores the counters in range. */
  method AddRange(items: set<int>, a: int, b: int, step: int, min: int, max: int, rounds: nat) returns (r: set<int>, ended: bool)
    ensures var all := Visit(a, b, step, rounds); ended == all.ended && (ended ==> r == items + Within(all.seen, min, max))
  {
    r := items;
    var v, left: nat := a, rounds;
    while v <= b
      invariant Visit(a, b, step, rounds).ended == Visit(v, b, step, left).ended
      invariant items + Within(Visit(a, b, step, rounds).seen, min, max) == r + Within(Visit(v, b, step, left).seen, min, max)
      decreases left
    {
      if left == 0 { return r, false; }
      if min <= v <= max { r := r + {v}; }
      v, left := Add(v, step), left - 1;
    }
    ended := true;
  }

  method AddPart(items: set<int>, p: Part, min: int, max: int, rounds: nat) returns (r: set<int>, ended: bool)
    requires Proper(p)
    ensures var one := PartItems(p, min, max, rounds); ended == one.ended && (ended ==> r == items + one.seen)
  {
    match p
    case Value(n) => return if min <= n <= max then items + {n} else items, true;
    case Range(a, b, step) => r, ended := AddRange(items, a, b, step, min, max, rounds);
    case Every(step) => r, ended := AddStar(items, min, max, step, rounds);
  }

  /** One turn of the loop over the parts. */
  lemma ScanStep(ps: seq<Option<Part>>, i: nat, min: int, max: int, rounds: nat, items: set<int>)
    requires ProperIfAny(ps) && i < |ps| && Scan(ps, min, max, rounds) == With(items, Scan(ps[i..], min, max, rounds))
    ensures
      match ps[i]
      case None => Scan(ps, min, max, rounds) == ScanBad
      case Some(p) =>
        var one := PartItems(p, min, max, rounds);
        if !one.ended then Scan(ps, min, max, rounds) == ScanRunning
        else Scan(ps, min, max, rounds) == With(items + one.seen, Scan(ps[i + 1..], min, max, rounds))
  {
    assert ps[i..][0] == ps[i] && ps[i..][1..] == ps[i + 1..];
    var rest := Scan(ps[i + 1..], min, max, rounds);
    if ps[i].Some? && rest.Items? {
      var seen := PartItems(ps[i].value, min, max, rounds).seen;
      assert items + (seen + rest.items) == (items + seen) + rest.items;
    }
  }

  lemma ScanEnds(ps: seq<Option<Part>>, min: int, max: int, rounds: nat, items: set<int>)
    requires ProperIfAny(ps)
    ensures With({}, Scan(ps[0..], min, max, rounds)) == Scan(ps, min, max, rounds)
    ensures With(items, Scan(ps[|ps|..], min, max, rounds)) == Items(items)
  {
    assert ps[0..] == ps && ps[|ps|..] == [] && items + {} == items;
    var r := Scan(ps, min, max, rounds);
    if r.Items? { assert {} + r.items == r.items; }
  }

  /** parseField. */
  method ParseField(s: string, min: int, max: int, rounds: nat) returns (r: Outcome)
    ensures r == FieldOf(s, min, max, rounds)
  {
    if s == "*" { return Parsed(Field(true, {})); }
    var items: set<int> := {};
    var texts := Split(s, ',');
    ghost var ps := ParseAll(texts);
    var i := 0;
    ScanEnds(ps, min, max, rounds, {});
    while i < |texts|
      invariant 0 <= i <= |texts|
      invariant Scan(ps, min, max, rounds) == With(items, Scan(ps[i..], min, max, rounds))
    {
      ScanStep(ps, i, min, max, rounds, items);
      var p := ParsePart(texts[i]);
      if p.None? { return Bad; }
      var ended;
      items, ended := AddPart(items, p.value, min, max, rounds);
      if !ended { return Running; }
      i := i + 1;
    }
    ScanEnds(ps, min, max, rounds, items);
    return Parsed(Field(false, items));
  }

  // ------------------------------------------------------------ printing and reading back

  /** A part with the numbers a text can carry without a sign. */
  predicate Printable(p: Part) {
    match p
    case Value(n) => 0 <= n <= MAX_INT
    case Range(a, b, step) => 0 <= a <= MAX_INT && 0 <= b <= MAX_INT && 0 < step <= MAX_INT
    case Every(step) => 0 < step <= MAX_INT
  }

  function RangeText(a: nat, b: nat): string { Decimal(a) + "-" + Decimal(b) }

  function PrintPart(p: Part): string
    requires Printable(p)
  {
    match p
    case Value(n) => Decimal(n)
    case Range(a, b, step) => if step == 1 then RangeText(a, b) else RangeText(a, b) + "/" + Decimal(step)
    case Every(step) => "*" + "/" + Decimal(step)
  }

  ghost predicate AllPrintable(parts: seq<Part>) { forall i :: 0 <= i < |parts| ==> Printable(parts[i]) }

  function PrintField(parts: seq<Part>): string
    requires parts != [] && forall i :: 0 <= i < |parts| ==> Printable(parts[i])
  {
    if |parts| == 1 then PrintPart(parts[0]) else PrintPart(parts[0]) + [','] + PrintField(parts[1..])
  }

  lemma DecimalPlain(n: nat)
    ensures var t := Decimal(n); t != "" && '-' !in t && '/' !in t && ',' !in t && '*' !in t && NoSpace(t)
  {
    DecimalReads(n);
  }

  lemma PrintedRangeSpells(a: nat, b: nat)
    requires a <= MAX_INT && b <= MAX_INT
    ensures var body := RangeText(a, b); SpellsRange(body, a, b) && '/' !in body && body != "*"
  {
    AtoiDecimal(a);
    AtoiDecimal(b);
    DecimalPlain(a);
    DecimalPlain(b);
    var body := RangeText(a, b);
    assert Cut(body, '-', Decimal(a), Decimal(b));
    assert body[0] == Decimal(a)[0];
  }

  lemma SteppedSpells(body: string, step: nat, p: Part)
    requires 0 < step <= MAX_INT && '/' !in body && (if body == "*" then p == Every(step) else SpellsBody(body, step, p))
    ensures Spells(body + "/" + Decimal(step), p)
  {
    AtoiDecimal(step);
    assert Cut(body + "/" + Decimal(step), '/', body, Decimal(step)) && SpellsStepped(body, Decimal(step), p);
  }

  lemma PrintedPlain(p: Part)
    requires Printable(p)
    ensures var t := PrintPart(p); t != "" && t != "*" && ',' !in t && NoSpace(t) && TrimSpace(t) == t
  {
    match p
    case Value(n) => DecimalPlain(n);
    case Range(a, b, step) => DecimalPlain(a); DecimalPlain(b); DecimalPlain(step);
    case Every(step) => DecimalPlain(step);
    TrimPlain(PrintPart(p));
  }

  lemma PrintedRange(a: nat, b: nat, step: nat)
    requires Printable(Range(a, b, step))
    ensures Spells(PrintPart(Range(a, b, step)), Range(a, b, step))
  {
    PrintedRangeSpells(a, b);
    assert SpellsBody(RangeText(a, b), step, Range(a, b, step));
    if step != 1 { SteppedSpells(RangeText(a, b), step, Range(a, b, step)); }
  }

  lemma PrintedSpells(p: Part)
    requires Printable(p)
    ensures Spells(PrintPart(p), p)
  {
    match p
    case Value(n) =>
      AtoiDecimal(n);
      DecimalPlain(n);
      assert SpellsBody(Decimal(n), 1, p);
    case Range(a, b, step) => PrintedRange(a, b, step);
    case Every(step) => SteppedSpells("*", step, p);
  }

  /** A printed part is read as itself. */
  lemma PrintedPartReads(p: Part)
    requires Printable(p)
    ensures ParsePart(PrintPart(p)) == Some(p)
  {
    PrintedSpells(p);
    PrintedPlain(p);
    ParsePartIff(PrintPart(p), p);
  }

  function PrintParts(parts: seq<Part>): (r: seq<string>)
    requires forall i :: 0 <= i < |parts| ==> Printable(parts[i])
    ensures |r| == |parts| && forall i :: 0 <= i < |parts| ==> r[i] == PrintPart(parts[i])
  {
    seq(|parts|, i requires 0 <= i < |parts| => PrintPart(parts[i]))
  }

  lemma PrintPartsTail(parts: seq<Part>)
    requires parts != [] && AllPrintable(parts)
    ensures PrintParts(parts) == [PrintPart(parts[0])] + PrintParts(parts[1..])
  {
  }

  lemma {:induction false} SplitPrinted(parts: seq<Part>)
    requires parts != [] && AllPrintable(parts)
    ensures Split(PrintField(parts), ',') == PrintParts(parts)
    decreases |parts|
  {
    PrintedPlain(parts[0]);
    if |parts| == 1 {
      SplitWhole(PrintPart(parts[0]), ',');
    } else {
      SplitPrinted(parts[1..]);
      SplitFirst(PrintPart(parts[0]), ',', PrintField(parts[1..]));
      PrintPartsTail(parts);
    }
  }

  /** The numbers some part denotes. */
  function Denoted(parts: seq<Part>, min: int, max: int): set<int>
    requires AllProper(parts)
  {
    set v: int | min <= v <= max && AnyDenotes(parts, min, max, v)
  }

  predicate AnyDenotes(parts: seq<Part>, min: int, max: int, v: int)
    requires AllProper(parts)
  {
    exists i :: 0 <= i < |parts| && Denotes(parts[i], min, max, v)
  }

  predicate AllProper(parts: seq<Part>) { forall i :: 0 <= i < |parts| ==> Proper(parts[i]) }

  lemma PrintedScan(parts: seq<Part>, i: nat)
    requires AllPrintable(parts) && i < |parts|
    ensures ParsePart(PrintParts(parts)[i]) == Some(parts[i])
  {
    PrintedPartReads(parts[i]);
  }

  lemma PrintedIsNoStar(parts: seq<Part>)
    requires parts != [] && AllPrintable(parts)
    ensures PrintField(parts) != "*"
  {
    PrintedPlain(parts[0]);
    if |parts| > 1 { assert PrintField(parts)[|PrintPart(parts[0])|] == ','; }
  }

  /** The loops store what the parts denote and no more. */
  lemma ScanReads(ps: seq<Option<Part>>, parts: seq<Part>, min: int, max: int, rounds: nat, v: int)
    requires FieldBounds(min, max) && AllProper(parts) && |ps| == |parts| && forall i :: 0 <= i < |ps| ==> ps[i] == Some(parts[i])
    requires forall i :: 0 <= i < |parts| ==>
      !RangeOverruns(parts[i]) && Stray(parts[i], min, max) == {} && rounds >= Enough(parts[i], min, max)
    ensures Scan(ps, min, max, rounds).Items? && (v in Scan(ps, min, max, rounds).items <==> v in Denoted(parts, min, max))
  {
    forall i | 0 <= i < |ps|
      ensures Good(ps[i], min, max, rounds) && (StoredFor(ps[i], min, max, rounds, v) <==> min <= v <= max && Denotes(parts[i], min, max, v))
    {
      PartStores(parts[i], min, max, rounds);
    }
    ScanItemsIff(ps, min, max, rounds, v);
  }

  /** What is printed is parsed part by part. */
  lemma PrintedParts(parts: seq<Part>)
    requires parts != [] && AllPrintable(parts)
    ensures var ps := PartsOf(PrintField(parts)); |ps| == |parts| && forall i :: 0 <= i < |ps| ==> ps[i] == Some(parts[i])
  {
    SplitPrinted(parts);
    forall i | 0 <= i < |parts|
      ensures ParsePart(PrintParts(parts)[i]) == Some(parts[i])
    {
      PrintedScan(parts, i);
    }
  }

  /** No counter of the part overruns, and the rounds are enough for its loop. */
  predicate Tame(p: Part, min: int, max: int, rounds: nat) {
    Proper(p) && !RangeOverruns(p) && Stray(p, min, max) == {} && rounds >= Enough(p, min, max)
  }

  lemma ScanIsDenoted(ps: seq<Option<Part>>, parts: seq<Part>, min: int, max: int, rounds: nat)
    requires FieldBounds(min, max) && AllProper(parts) && |ps| == |parts| && forall i :: 0 <= i < |ps| ==> ps[i] == Some(parts[i])
    requires forall i :: 0 <= i < |parts| ==> Tame(parts[i], min, max, rounds)
    ensures Scan(ps, min, max, rounds) == Items(Denoted(parts, min, max))
  {
    forall v
      ensures Scan(ps, min, max, rounds).Items? && (v in Scan(ps, min, max, rounds).items <==> v in Denoted(parts, min, max))
    {
      ScanReads(ps, parts, min, max, rounds, v);
    }
    ScanReads(ps, parts, min, max, rounds, 0);
    assert Scan(ps, min, max, rounds).items == Denoted(parts, min, max);
  }

  /** A printed field none of whose counters overruns is read back as the numbers its parts denote. */
  lemma FieldRoundTrip(parts: seq<Part>, min: int, max: int, rounds: nat)
    requires FieldBounds(min, max) && parts != [] && AllPrintable(parts) && AllProper(parts)
    requires forall i :: 0 <= i < |parts| ==> Tame(parts[i], min, max, rounds)
    ensures FieldOf(PrintField(parts), min, max, rounds) == Parsed(Field(false, Denoted(parts, min, max)))
  {
    PrintedIsNoStar(parts);
    PrintedParts(parts);
    ScanIsDenoted(PartsOf(PrintField(parts)), parts, min, max, rounds);
  }

  function Values(ns: seq<int>): (r: seq<Part>)
    ensures |r| == |ns| && forall i :: 0 <= i < |ns| ==> r[i] == Value(ns[i])
  {
    seq(|ns|, i requires 0 <= i < |ns| => Value(ns[i]))
  }

  /** Any non-empty set of numbers in range, printed as a comma list in any order, is read back
      as that set. */
  lemma SubsetRoundTrip(ns: seq<int>, min: int, max: int)
    requires FieldBounds(min, max) && ns != [] && forall i :: 0 <= i < |ns| ==> min <= ns[i] <= max
    ensures FieldOf(PrintField(Values(ns)), min, max, 0) == Parsed(Field(false, set n | n in ns))
  {
    var parts := Values(ns);
    FieldRoundTrip(parts, min, max, 0);
    forall v
      ensures v in Denoted(parts, min, max) <==> v in ns
    {
      if v in ns {
        var i :| 0 <= i < |ns| && ns[i] == v;
        assert Denotes(parts[i], min, max, v);
      }
    }
  }

  // ------------------------------------------------------------ counters that overrun

  /** A field of a single part. */
  lemma OnePart(text: string, p: Part, min: int, max: int, rounds: nat)
    requires Proper(p) && ParsePart(text) == Some(p) && text != "*" && ',' !in text
    ensures
      var r := PartItems(p, min, max, rounds);
      FieldOf(text, min, max, rounds) == if r.ended then Parsed(Field(false, r.seen)) else Running
  {
    SplitWhole(text, ',');
    var ps := ParseAll([text]);
    assert ps == [Some(p)] && ps[1..] == [];
    OneScanned(p, min, max, rounds);
  }

  lemma OneScanned(p: Part, min: int, max: int, rounds: nat)
    requires Proper(p)
    ensures var r := PartItems(p, min, max, rounds); Scan([Some(p)], min, max, rounds) == if r.ended then Items(r.seen) else ScanRunning
  {
    assert [Some(p)][1..] == [];
    var r := PartItems(p, min, max, rounds);
    assert r.seen + {} == r.seen;
  }

  /** The days "*" "/" 9223372036854775807 are accepted, and two numbers that are no days are stored. */
  lemma OverrunStoresNonDays(p: Part, rounds: nat)
    requires p == Every(MAX_INT) && rounds >= 3
    ensures FieldOf(PrintPart(p), 1, 31, rounds) == Parsed(Field(false, {1, MIN_INT, -1}))
  {
    PrintedPlain(p);
    PrintedPartReads(p);
    OnePart(PrintPart(p), p, 1, 31, rounds);
    StarOverrun(31, rounds);
  }

  lemma StarIsNoPart()
    ensures ParsePart("*").None?
  {
    TrimPlain("*");
  }

  /** Parsing the field goes on for ever. */
  ghost predicate Hangs(text: string, min: int, max: int) { forall rounds: nat :: FieldOf(text, min, max, rounds) == Running }

  /** A field that is a single range is never accepted, nor refused, exactly if the range goes up to
      the top of its counter: its loop does not end. */
  lemma RangeHangsIff(text: string, p: Part, min: int, max: int)
    requires ',' !in text && Spells(TrimSpace(text), p) && p.Range? && Proper(p)
    ensures Hangs(text, min, max) <==> p.b >= Top(p.a, p.step)
  {
    ParsePartIff(text, p);
    StarIsNoPart();
    RangeEndsIff(p, min, max);
    forall rounds: nat
      ensures FieldOf(text, min, max, rounds) == Running <==> !PartItems(p, min, max, rounds).ended
    {
      OnePart(text, p, min, max, rounds);
    }
  }

  /** In particular every range up to the largest integer hangs, and so do the even numbers up to the
      integer before. */
  lemma HangingRanges(p: Part, min: int, max: int)
    requires p.Range? && Printable(p) && (p.b == MAX_INT || p == Range(0, MAX_INT - 1, 2))
    ensures Hangs(PrintPart(p), min, max)
  {
    var text := PrintPart(p);
    PrintedPlain(p);
    PrintedSpells(p);
    RangeHangsIff(text, p, min, max);
    HighBounds(p.a, p.step);
  }

  lemma HighBounds(a: int, step: nat)
    requires 0 < step
    ensures Top(a, step) <= MAX_INT && Top(0, 2) == MAX_INT - 1
  {
    assert Twos(2) == 1 && Pow2(1) == 2;
  }

  /** A range that overruns can end and store a number it does not denote: the range from 5 to 5 with
      the step 9223372036854775806 comes back through 1. */
  lemma OverrunMatchesWrongly(p: Part, rounds: nat)
    requires p == Range(5, 5, MAX_INT - 1) && rounds >= 3
    ensures FieldOf(PrintPart(p), 0, 59, rounds) == Parsed(Field(false, {5, 1})) && !Denotes(p, 0, 59, 1)
  {
    PrintedPlain(p);
    PrintedPartReads(p);
    OnePart(PrintPart(p), p, 0, 59, rounds);
    ComesBackThroughOne(rounds);
    TwoMinutes();
  }

  lemma TwoMinutes()
    ensures Within({5, MIN_INT + 3, 1}, 0, 59) == {5, 1}
  {
  }

  lemma ComesBackThroughOne(rounds: nat)
    requires rounds >= 3
    ensures Visit(5, 5, MAX_INT - 1, rounds) == Visited({5, MIN_INT + 3, 1}, true)
  {
    var s := MAX_INT - 1;
    assert Add(5, s) == MIN_INT + 3 && Add(MIN_INT + 3, s) == 1 && Add(1, s) == MAX_INT;
    assert Visit(MAX_INT, 5, s, rounds - 3) == Visited({}, true);
    assert Visit(1, 5, s, rounds - 2) == Visited({1}, true);
    assert Visit(MIN_INT + 3, 5, s, rounds - 1) == Visited({MIN_INT + 3} + {1}, true);
    assert {5} + ({MIN_INT + 3} + {1}) == {5, MIN_INT + 3, 1};
  }
}
