/**
 Generating routes again and again (ai/generator/register.go): each run reads the generated
 file, records one model in it and prints it anew.
 */
module RouteRegistry {
  import opened Wrappers
  import opened Strings
  import opened Sequences
  import opened GeneratedRoutes
  import opened GeneratedText

  // ------------------------------------------------------------ the whole file

  /** What follows the route lines. */
  function Rest(rs: seq<Route>): seq<string> {
    Print(Opening()) + if rs == [] then Print(Closing()) else Print(Lookups()) + (Print(Calls(rs)) + Print(Closing()))
  }

  function FileLines(rs: seq<Route>): seq<string> { Print(Header()) + (RouteLines(rs) + Rest(rs)) }

  lemma RestIsCode(rs: seq<Route>)
    requires AllPlain(rs)
    ensures AllCode(Rest(rs))
  {
    PrintIsCode(Opening());
    PrintIsCode(Lookups());
    PrintIsCode(Calls(rs));
    PrintIsCode(Closing());
    CodeConcat(Print(Calls(rs)), Print(Closing()));
    CodeConcat(Print(Lookups()), Print(Calls(rs)) + Print(Closing()));
    CodeConcat(Print(Opening()), if rs == [] then Print(Closing()) else Print(Lookups()) + (Print(Calls(rs)) + Print(Closing())));
  }

  lemma CodeConcat(a: seq<string>, b: seq<string>)
    requires AllCode(a) && AllCode(b)
    ensures AllCode(a + b)
  {
  }

  /** Reading the printed file gives the list back exactly if every name in it is non-empty and
      free of whitespace. */
  lemma PrintedReadsIff(rs: seq<Route>)
    ensures ParseText(Text(FileLines(rs))) == rs <==> AllPlain(rs)
  {
    if AllPlain(rs) {
      PrintIsCode(Header());
      RestIsCode(rs);
      ReadsBetweenCode(Print(Header()), rs, Rest(rs));
    } else {
      ReadNamesArePlain(Split(Text(FileLines(rs)), '\n'));
    }
  }

  // ------------------------------------------------------------ the loops

  lemma {:induction false} TextConcat(a: seq<string>, b: seq<string>)
    ensures Text(a + b) == Text(a) + Text(b)
  {
    if a == [] {
      assert a + b == b;
    } else {
      TextConcat(a[1..], b);
      assert (a + b)[0] == a[0] && (a + b)[1..] == a[1..] + b;
    }
  }

  lemma PrintConcat(a: seq<Line>, b: seq<Line>)
    ensures Print(a + b) == Print(a) + Print(b)
  {
  }

  lemma CallsStep(rs: seq<Route>, i: nat)
    requires i < |rs|
    ensures Text(Print(Calls(rs[i..]))) == Text(Print(Call(rs[i]))) + Text(Print(Calls(rs[i + 1..])))
  {
    assert rs[i..][0] == rs[i] && rs[i..][1..] == rs[i + 1..];
    PrintConcat(Call(rs[i]), Calls(rs[i + 1..]));
    TextConcat(Print(Call(rs[i])), Print(Calls(rs[i + 1..])));
  }

  lemma RouteLinesStep(rs: seq<Route>, i: nat)
    requires i < |rs|
    ensures Text(RouteLines(rs[i..])) == (RouteLine(rs[i]) + ['\n']) + Text(RouteLines(rs[i + 1..]))
  {
    assert rs[i..][0] == rs[i] && rs[i..][1..] == rs[i + 1..];
    assert RouteLines(rs[i..])[1..] == RouteLines(rs[i + 1..]);
  }

  lemma NothingLeft(rs: seq<Route>)
    ensures Text(Print(Calls(rs[|rs|..]))) == "" && Text(RouteLines(rs[|rs|..])) == ""
    ensures rs[0..] == rs
  {
    assert rs[|rs|..] == [];
  }

  /** Moving a piece from what is still to be written to what has been written. */
  lemma Moved<T>(b: seq<T>, piece: seq<T>, rest: seq<T>, left: seq<T>, all: seq<T>)
    requires b + left == all && left == piece + rest
    ensures (b + piece) + rest == all
  {
  }

  /** The first loop of the printer. */
  method WriteRouteLines(rs: seq<Route>) returns (b: string)
    ensures b == Text(RouteLines(rs))
  {
    b := "";
    NothingLeft(rs);
    for i := 0 to |rs|
      invariant b + Text(RouteLines(rs[i..])) == Text(RouteLines(rs))
    {
      RouteLinesStep(rs, i);
      Moved(b, RouteLine(rs[i]) + ['\n'], Text(RouteLines(rs[i + 1..])), Text(RouteLines(rs[i..])), Text(RouteLines(rs)));
      b := b + (RouteLine(rs[i]) + ['\n']);
    }
  }

  /** Its second loop. */
  method WriteCalls(rs: seq<Route>) returns (b: string)
    ensures b == Text(Print(Calls(rs)))
  {
    b := "";
    NothingLeft(rs);
    for i := 0 to |rs|
      invariant b + Text(Print(Calls(rs[i..]))) == Text(Print(Calls(rs)))
    {
      CallsStep(rs, i);
      var piece := Text(Print(Call(rs[i])));
      Moved(b, piece, Text(Print(Calls(rs[i + 1..]))), Text(Print(Calls(rs[i..]))), Text(Print(Calls(rs))));
      b := b + piece;
    }
  }

  /** renderGeneratedRoutes. */
  method RenderGeneratedRoutes(rs: seq<Route>) returns (src: string)
    ensures src == Text(FileLines(rs))
  {
    var lines := WriteRouteLines(rs);
    var body := Text(Print(Closing()));
    if rs != [] {
      var calls := WriteCalls(rs);
      body := Text(Print(Lookups())) + (calls + body);
    }
    src := Text(Print(Header())) + (lines + (Text(Print(Opening())) + body));
    Assembled(rs);
  }

  lemma Assembled(rs: seq<Route>)
    ensures
      var body := if rs == [] then Text(Print(Closing())) else Text(Print(Lookups())) + (Text(Print(Calls(rs))) + Text(Print(Closing())));
      Text(FileLines(rs)) == Text(Print(Header())) + (Text(RouteLines(rs)) + (Text(Print(Opening())) + body))
  {
    var o, c, l, k := Print(Opening()), Print(Closing()), Print(Lookups()), Print(Calls(rs));
    TextConcat(Print(Header()), RouteLines(rs) + Rest(rs));
    TextConcat(RouteLines(rs), Rest(rs));
    TextConcat(o, if rs == [] then c else l + (k + c));
    TextConcat(l, k + c);
    TextConcat(k, c);
  }

  /** parseGeneratedRoutes. */
  method ParseGeneratedRoutes(src: string) returns (out: seq<Route>)
    ensures out == ParseText(src)
  {
    out := [];
    var lines := Split(src, '\n');
    assert lines[0..] == lines;
    for i := 0 to |lines|
      invariant out + FlatMap(ParseLine, lines[i..]) == FlatMap(ParseLine, lines)
    {
      CollectStep(lines, i);
      var found := ParseLine(lines[i]);
      Moved(out, found, FlatMap(ParseLine, lines[i + 1..]), FlatMap(ParseLine, lines[i..]), FlatMap(ParseLine, lines));
      out := out + found;
    }
    assert lines[|lines|..] == [] && out + [] == out;
  }

  lemma CollectStep(lines: seq<string>, i: nat)
    requires i < |lines|
    ensures FlatMap(ParseLine, lines[i..]) == ParseLine(lines[i]) + FlatMap(ParseLine, lines[i + 1..])
  {
    assert lines[i..][0] == lines[i] && lines[i..][1..] == lines[i + 1..];
  }

  // ------------------------------------------------------------ one run

  /** The first route of the model gets the flag; if there is none, it is appended. */
  function Upsert(rs: seq<Route>, model: string, auth: bool): seq<Route> {
    if rs == [] then [Route(model, auth)]
    else if rs[0].model == model then [Route(model, auth)] + rs[1..]
    else [rs[0]] + Upsert(rs[1..], model, auth)
  }

  function Existing(file: Option<string>): seq<Route> { if file.None? then [] else ParseText(file.value) }

  lemma {:induction false} UpsertIs(rs: seq<Route>, model: string, auth: bool, i: nat)
    requires i <= |rs| && forall j :: 0 <= j < i ==> rs[j].model != model
    requires i < |rs| ==> rs[i].model == model
    ensures Upsert(rs, model, auth) == rs[..i] + [Route(model, auth)] + (if i < |rs| then rs[i + 1..] else [])
    decreases |rs|
  {
    if rs != [] && i > 0 {
      UpsertIs(rs[1..], model, auth, i - 1);
      assert rs[..i] == [rs[0]] + rs[1..][..i - 1];
      if i < |rs| { assert rs[1..][i..] == rs[i + 1..]; }
    }
  }

  /** The loop of registerRoutes. */
  method UpsertRoute(existing: seq<Route>, model: string, auth: bool) returns (r: seq<Route>)
    ensures r == Upsert(existing, model, auth)
  {
    var i := 0;
    while i < |existing| && existing[i].model != model
      invariant 0 <= i <= |existing| && forall j :: 0 <= j < i ==> existing[j].model != model
    {
      i := i + 1;
    }
    UpsertIs(existing, model, auth, i);
    if i < |existing| {
      r := existing[i := existing[i].(auth := auth)];
    } else {
      r := existing + [Route(model, auth)];
    }
  }

  class Generator {
    /** The generated file, if it exists. */
    var generated: Option<string>

    constructor ()
      ensures generated == None
    {
      generated := None;
    }

    /** registerRoutes. */
    method RegisterRoutes(model: string, auth: bool)
      modifies this
      ensures generated == Some(Text(FileLines(Upsert(Existing(old(generated)), model, auth))))
    {
      var existing: seq<Route> := [];
      if generated.Some? { existing := ParseGeneratedRoutes(generated.value); }
      existing := UpsertRoute(existing, model, auth);
      var src := RenderGeneratedRoutes(existing);
      generated := Some(src);
    }
  }

  // ------------------------------------------------------------ any number of runs

  datatype Run = Run(model: string, auth: bool)

  /** The file after the runs, starting without one. */
  function FileAfter(runs: seq<Run>): Option<string> {
    if runs == [] then None
    else
      var n := |runs| - 1;
      Some(Text(FileLines(Upsert(Existing(FileAfter(runs[..n])), runs[n].model, runs[n].auth))))
  }

  /** The models, in the order in which they were first registered. */
  function FirstSeen(runs: seq<Run>): seq<string> {
    if runs == [] then []
    else
      var n := |runs| - 1;
      var before := FirstSeen(runs[..n]);
      if runs[n].model in before then before else before + [runs[n].model]
  }

  /** The flag of the last run for the model. */
  predicate Latest(runs: seq<Run>, model: string) {
    runs != [] && var n := |runs| - 1; if runs[n].model == model then runs[n].auth else Latest(runs[..n], model)
  }

  function Registered(runs: seq<Run>): (rs: seq<Route>)
    ensures |rs| == |FirstSeen(runs)|
    ensures forall i :: 0 <= i < |rs| ==> rs[i] == Route(FirstSeen(runs)[i], Latest(runs, FirstSeen(runs)[i]))
  {
    var names := FirstSeen(runs);
    seq(|names|, i requires 0 <= i < |names| => Route(names[i], Latest(runs, names[i])))
  }

  /** The run that first registered a model, or the number of runs. */
  function FirstRun(runs: seq<Run>, model: string): (r: nat)
    ensures r <= |runs| && (r < |runs| ==> runs[r].model == model) && forall i :: 0 <= i < r ==> runs[i].model != model
  {
    if runs == [] then 0
    else
      var n := |runs| - 1;
      var r := FirstRun(runs[..n], model);
      if r < n || runs[n].model == model then r else n + 1
  }

  /** Each model stands before those that were first registered later: so each stands once. */
  ghost predicate InOrder(runs: seq<Run>, names: seq<string>) {
    forall i, j :: 0 <= i < j < |names| ==> FirstRun(runs, names[i]) < FirstRun(runs, names[j])
  }

  lemma FirstRunStep(runs: seq<Run>, m: string)
    requires runs != []
    ensures
      var n := |runs| - 1;
      var r := FirstRun(runs[..n], m);
      FirstRun(runs, m) == if r < n then r else if runs[n].model == m then n else n + 1
  {
  }

  lemma {:induction false} SeenIff(runs: seq<Run>, m: string)
    ensures m in FirstSeen(runs) <==> FirstRun(runs, m) < |runs|
  {
    if runs != [] {
      SeenIff(runs[..|runs| - 1], m);
      FirstRunStep(runs, m);
    }
  }

  /** FirstSeen lists the models that were registered, each once, in the order of their first
      registration. */
  lemma {:induction false} FirstSeenInOrder(runs: seq<Run>)
    ensures InOrder(runs, FirstSeen(runs))
  {
    if runs != [] {
      var n := |runs| - 1;
      FirstSeenInOrder(runs[..n]);
      var before, names := FirstSeen(runs[..n]), FirstSeen(runs);
      forall i, j | 0 <= i < j < |names|
        ensures FirstRun(runs, names[i]) < FirstRun(runs, names[j])
      {
        assert names[i] == before[i];
        SeenIff(runs[..n], names[i]);
        SeenIff(runs[..n], names[j]);
        FirstRunStep(runs, names[i]);
        FirstRunStep(runs, names[j]);
      }
    }
  }

  /** Recording one more run. */
  lemma UpsertRegistered(runs: seq<Run>)
    requires runs != []
    ensures var n := |runs| - 1; Upsert(Registered(runs[..n]), runs[n].model, runs[n].auth) == Registered(runs)
  {
    var n := |runs| - 1;
    var before, m := FirstSeen(runs[..n]), runs[n].model;
    if m in before {
      var k :| 0 <= k < |before| && before[k] == m;
      UpsertSeen(runs, k);
    } else {
      UpsertNew(runs);
    }
  }

  lemma UpsertAt(rs: seq<Route>, model: string, auth: bool, k: nat)
    requires k < |rs| && rs[k].model == model && forall j :: 0 <= j < k ==> rs[j].model != model
    ensures Upsert(rs, model, auth) == rs[k := Route(model, auth)]
  {
    UpsertIs(rs, model, auth, k);
  }

  lemma UpsertSeen(runs: seq<Run>, k: nat)
    requires runs != [] && k < |FirstSeen(runs[..|runs| - 1])| && FirstSeen(runs[..|runs| - 1])[k] == runs[|runs| - 1].model
    ensures var n := |runs| - 1; Upsert(Registered(runs[..n]), runs[n].model, runs[n].auth) == Registered(runs)
  {
    var n := |runs| - 1;
    var before, rs, m := FirstSeen(runs[..n]), Registered(runs[..n]), runs[n].model;
    assert FirstSeen(runs) == before;
    forall j | 0 <= j < |before| && j != k
      ensures before[j] != m
    {
      FirstSeenInOrder(runs[..n]);
    }
    UpsertAt(rs, m, runs[n].auth, k);
    assert forall j :: 0 <= j < |before| ==> rs[k := Route(m, runs[n].auth)][j] == Registered(runs)[j];
  }

  lemma UpsertNew(runs: seq<Run>)
    requires runs != [] && runs[|runs| - 1].model !in FirstSeen(runs[..|runs| - 1])
    ensures var n := |runs| - 1; Upsert(Registered(runs[..n]), runs[n].model, runs[n].auth) == Registered(runs)
  {
    var n := |runs| - 1;
    var before, rs, m := FirstSeen(runs[..n]), Registered(runs[..n]), runs[n].model;
    UpsertIs(rs, m, runs[n].auth, |rs|);
    var after := rs + [Route(m, runs[n].auth)];
    assert FirstSeen(runs) == before + [m];
    assert forall j :: 0 <= j < |before| ==> before[j] != m;
    assert forall j :: 0 <= j < |after| ==> after[j] == Registered(runs)[j];
  }

  /** Over any number of runs the file holds each model once, in the order of its first
      registration, with the flag of its last. */
  lemma {:induction false} FileHoldsRegistered(runs: seq<Run>)
    requires forall i :: 0 <= i < |runs| ==> PlainName(runs[i].model)
    ensures Existing(FileAfter(runs)) == Registered(runs) && AllPlain(Registered(runs))
  {
    forall i | 0 <= i < |Registered(runs)|
      ensures PlainName(Registered(runs)[i].model)
    {
      SeenIff(runs, FirstSeen(runs)[i]);
    }
    if runs != [] {
      FileHoldsRegistered(runs[..|runs| - 1]);
      UpsertRegistered(runs);
      PrintedReadsIff(Registered(runs));
    }
  }
}
