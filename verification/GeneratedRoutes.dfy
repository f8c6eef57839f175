/**
 The file of generated routes (ai/generator/register.go): it is printed from a list of routes,
 read back at the next generation, and updated. Formatting the printed source is taken to
 leave it as it is.
 */
module GeneratedRoutes {
  import opened Strings
  import opened Sequences

  datatype Route = Route(model: string, auth: bool)

  const PREFIX := "// gai-route:"

  /** A model name that can be read back: non-empty and free of whitespace. */
  predicate PlainName(s: string) { s != "" && NoSpace(s) }

  // ------------------------------------------------------------ lines

  /** Each line with its newline. */
  function Text(lines: seq<string>): string { if lines == [] then "" else lines[0] + ['\n'] + Text(lines[1..]) }

  function ParseLine(raw: string): seq<Route> {
    var line := TrimSpace(raw);
    if !HasPrefix(line, PREFIX) then []
    else
      var parts := Fields(TrimSpace(line[|PREFIX|..]));
      if parts == [] then [] else [Route(parts[0], |parts| > 1 && parts[1] == "auth")]
  }

  function ParseText(src: string): seq<Route> { FlatMap(ParseLine, Split(src, '\n')) }

  lemma SplitOneMore(line: string, rest: string, parts: seq<string>)
    requires '\n' !in line && Split(rest, '\n') == parts + [""]
    ensures Split(line + ['\n'] + rest, '\n') == ([line] + parts) + [""]
  {
    SplitFirst(line, '\n', rest);
  }

  ghost predicate OneLiners(lines: seq<string>) { forall i :: 0 <= i < |lines| ==> '\n' !in lines[i] }

  /** Splitting undoes joining. */
  lemma {:induction false} SplitText(lines: seq<string>)
    requires OneLiners(lines)
    ensures Split(Text(lines), '\n') == lines + [""]
  {
    if lines != [] {
      SplitText(lines[1..]);
      SplitOneMore(lines[0], Text(lines[1..]), lines[1..]);
      assert [lines[0]] + lines[1..] == lines;
    }
  }

  // ------------------------------------------------------------ lines of code

  lemma {:induction false} TrimRightKeepsFirst(s: string)
    requires s != "" && !IsSpace(s[0])
    ensures TrimRight(s) != "" && TrimRight(s)[0] == s[0]
    decreases |s|
  {
    if IsSpace(s[|s| - 1]) { TrimRightKeepsFirst(s[..|s| - 1]); }
  }

  /** The first character that is no space is not a slash. */
  predicate Code(line: string) { '\n' !in line && (TrimLeft(line) == "" || TrimLeft(line)[0] != '/') }

  lemma NoPrefix(s: string)
    requires s == "" || s[0] != '/'
    ensures !HasPrefix(s, PREFIX)
  {
    if |PREFIX| <= |s| { assert s[..|PREFIX|][0] != PREFIX[0]; }
  }

  lemma CodeIsNoRoute(line: string)
    requires Code(line)
    ensures ParseLine(line) == []
  {
    if TrimLeft(line) != "" { TrimRightKeepsFirst(TrimLeft(line)); }
    NoPrefix(TrimSpace(line));
  }

  ghost predicate AllCode(lines: seq<string>) { forall i :: 0 <= i < |lines| ==> Code(lines[i]) }

  lemma {:induction false} CodeHasNoRoutes(lines: seq<string>)
    requires AllCode(lines)
    ensures FlatMap(ParseLine, lines) == []
  {
    if lines != [] {
      CodeIsNoRoute(lines[0]);
      CodeHasNoRoutes(lines[1..]);
    }
  }

  function Tabs(n: nat): string { if n == 0 then "" else "\t" + Tabs(n - 1) }

  /** Code without its indentation. */
  predicate CodeText(t: string) { '\n' !in t && (t == "" || (!IsSpace(t[0]) && t[0] != '/')) }

  lemma {:induction false} IndentedIsCode(n: nat, t: string)
    requires CodeText(t)
    ensures Code(Tabs(n) + t)
  {
    if n == 0 {
      assert Tabs(0) + t == t;
    } else {
      IndentedIsCode(n - 1, t);
      var inner := Tabs(n - 1) + t;
      assert Tabs(n) + t == "\t" + inner;
      assert ("\t" + inner)[1..] == inner;
    }
  }

  datatype Line = Line(indent: nat, text: string)

  function Print(ls: seq<Line>): (r: seq<string>)
    ensures |r| == |ls| && forall i :: 0 <= i < |ls| ==> r[i] == Tabs(ls[i].indent) + ls[i].text
  {
    seq(|ls|, i requires 0 <= i < |ls| => Tabs(ls[i].indent) + ls[i].text)
  }

  ghost predicate AllCodeText(ls: seq<Line>) { forall i :: 0 <= i < |ls| ==> CodeText(ls[i].text) }

  lemma PrintIsCode(ls: seq<Line>)
    requires AllCodeText(ls)
    ensures AllCode(Print(ls))
  {
    forall i | 0 <= i < |ls|
      ensures Code(Print(ls)[i])
    {
      IndentedIsCode(ls[i].indent, ls[i].text);
    }
  }

  // ------------------------------------------------------------ route lines

  function RouteWords(r: Route): string { r.model + if r.auth then " auth" else "" }

  function RouteLine(r: Route): string { PREFIX + RouteWords(r) }

  function RouteLines(rs: seq<Route>): seq<string> { if rs == [] then [] else [RouteLine(rs[0])] + RouteLines(rs[1..]) }

  lemma WordsOfRoute(r: Route)
    requires PlainName(r.model)
    ensures Fields(RouteWords(r)) == if r.auth then [r.model, "auth"] else [r.model]
  {
    if r.auth {
      assert " auth" == [' '] + "auth" && "auth" + "" == "auth";
      FieldsFirst("auth", "");
      FieldsSkip(' ', "auth");
      FieldsFirst(r.model, " auth");
    } else {
      FieldsFirst(r.model, "");
    }
  }

  lemma Unprefixed(words: string)
    requires words != "" && !IsSpace(words[|words| - 1])
    ensures var line := PREFIX + words; TrimSpace(line) == line && HasPrefix(line, PREFIX) && line[|PREFIX|..] == words
  {
    var line := PREFIX + words;
    assert line[0] == '/' && line[|line| - 1] == words[|words| - 1];
    TrimPlain(line);
    assert line[..|PREFIX|] == PREFIX;
  }

  lemma WordsEnd(r: Route)
    requires PlainName(r.model)
    ensures var w := RouteWords(r); w != "" && !IsSpace(w[0]) && !IsSpace(w[|w| - 1]) && '\n' !in w
  {
    var w := RouteWords(r);
    assert w[0] == r.model[0];
    if r.auth { assert w[|w| - 1] == 'h'; } else { assert w == r.model; }
  }

  lemma RouteLineReads(r: Route)
    requires PlainName(r.model)
    ensures ParseLine(RouteLine(r)) == [r] && '\n' !in RouteLine(r)
  {
    WordsEnd(r);
    Unprefixed(RouteWords(r));
    TrimPlain(RouteWords(r));
    WordsOfRoute(r);
  }

  lemma TwoWords(model: string, word: string)
    requires PlainName(model) && PlainName(word)
    ensures Fields(model + (" " + word)) == [model, word]
  {
    var tail := " " + word;
    assert tail[0] == ' ' && tail == [' '] + word && word + "" == word;
    FieldsFirst(word, "");
    FieldsSkip(' ', word);
    FieldsFirst(model, tail);
  }

  lemma MarkedWords(words: string)
    requires words != "" && !IsSpace(words[0]) && !IsSpace(words[|words| - 1]) && Fields(words) != []
    ensures ParseLine(PREFIX + words) == [Route(Fields(words)[0], |Fields(words)| > 1 && Fields(words)[1] == "auth")]
  {
    Unprefixed(words);
    TrimPlain(words);
  }

  /** The second word of a marker line, if there is one, asks for authentication exactly if it is "auth". */
  lemma SecondWordDecides(model: string, word: string)
    requires PlainName(model) && PlainName(word)
    ensures ParseLine(PREFIX + (model + (" " + word))) == [Route(model, word == "auth")]
  {
    var words := model + (" " + word);
    assert words[0] == model[0] && words[|words| - 1] == word[|word| - 1];
    TwoWords(model, word);
    MarkedWords(words);
  }

  ghost predicate AllPlain(rs: seq<Route>) { forall i :: 0 <= i < |rs| ==> PlainName(rs[i].model) }

  lemma {:induction false} RouteLinesRead(rs: seq<Route>)
    requires AllPlain(rs)
    ensures FlatMap(ParseLine, RouteLines(rs)) == rs && OneLiners(RouteLines(rs))
  {
    if rs != [] {
      RouteLineReads(rs[0]);
      RouteLinesRead(rs[1..]);
      assert [rs[0]] + rs[1..] == rs;
    }
  }

  lemma FoundBetweenCode(before: seq<string>, rs: seq<Route>, after: seq<string>)
    requires AllCode(before) && AllPlain(rs) && AllCode(after)
    ensures FlatMap(ParseLine, before + (RouteLines(rs) + after)) == rs
  {
    RouteLinesRead(rs);
    CodeHasNoRoutes(before);
    CodeHasNoRoutes(after);
    FlatMapConcat(ParseLine, before, RouteLines(rs) + after);
    FlatMapConcat(ParseLine, RouteLines(rs), after);
    Nothing(rs);
  }

  lemma BetweenCodeOneLiners(before: seq<string>, rs: seq<Route>, after: seq<string>)
    requires AllCode(before) && AllPlain(rs) && AllCode(after)
    ensures OneLiners(before + (RouteLines(rs) + after))
  {
    RouteLinesRead(rs);
  }

  /** Route lines between code are read back, whatever the code. */
  lemma ReadsBetweenCode(before: seq<string>, rs: seq<Route>, after: seq<string>)
    requires AllCode(before) && AllPlain(rs) && AllCode(after)
    ensures ParseText(Text(before + (RouteLines(rs) + after))) == rs
  {
    var lines := before + (RouteLines(rs) + after);
    BetweenCodeOneLiners(before, rs, after);
    SplitText(lines);
    FoundBetweenCode(before, rs, after);
    LastLineEmpty(lines);
  }

  /** What follows the last newline holds no route. */
  lemma LastLineEmpty(lines: seq<string>)
    ensures FlatMap(ParseLine, lines + [""]) == FlatMap(ParseLine, lines)
  {
    IndentedIsCode(0, "");
    CodeIsNoRoute("");
    FlatMapConcat(ParseLine, lines, [""]);
    FlatMapOne(ParseLine, "");
    Nothing(FlatMap(ParseLine, lines));
  }

  lemma FirstWordIsPlain(s: string)
    ensures Fields(s) != [] ==> PlainName(Fields(s)[0])
  {
  }

  lemma ParsedIsPlain(line: string)
    ensures AllPlain(ParseLine(line))
  {
    if HasPrefix(TrimSpace(line), PREFIX) { FirstWordIsPlain(TrimSpace(TrimSpace(line)[|PREFIX|..])); }
  }

  /** Whatever the file holds, the names read from it are plain. */
  lemma {:induction false} ReadNamesArePlain(lines: seq<string>)
    ensures AllPlain(FlatMap(ParseLine, lines))
  {
    if lines != [] {
      ParsedIsPlain(lines[0]);
      ReadNamesArePlain(lines[1..]);
    }
  }
}

/** The text of the generated file around its route lines. A longer line is put together from its
    clauses: a callee and its arguments, or one parameter after the other. */
module GeneratedText {
  import opened Strings
  import opened GeneratedRoutes

  /** The framework's module path. */
  const MODULE := "github.com/Hlgxz/gai"

  function Imported(path: string): (t: string)
    requires '\n' !in path
    ensures CodeText(t)
  {
    "\"" + path + "\""
  }

  /** Code that goes on with more code. */
  function Then(first: string, more: string): (t: string)
    requires CodeText(first) && first != "" && '\n' !in more
    ensures CodeText(t) && t != ""
  {
    first + more
  }

  function At(indent: nat, t: string): (ls: seq<Line>)
    requires CodeText(t)
    ensures AllCodeText(ls)
  {
    [Line(indent, t)]
  }

  function Header(): (ls: seq<Line>)
    ensures AllCodeText(ls)
  {
    Start() + Imports() + At(0, ")") + At(0, "")
  }

  function Start(): (ls: seq<Line>)
    ensures AllCodeText(ls)
  {
    At(0, "package routes") + At(0, "") + At(0, "import (")
  }

  function Imports(): (ls: seq<Line>)
    ensures AllCodeText(ls)
  {
    [Line(1, Imported(MODULE)), Line(1, Imported(MODULE + "/auth")), Line(1, Imported(MODULE + "/database/orm")), Line(1, Imported(MODULE + "/router"))]
  }

  function Opening(): (ls: seq<Line>)
    ensures AllCodeText(ls)
  {
    At(0, "") + At(0, Then(Then("func registerGenerated", "(app *gai.Application, "), "r *router.Router) {"))
  }

  function DbLookup(): (ls: seq<Line>)
    ensures AllCodeText(ls)
  {
    At(1, "var db *orm.DB") + At(1, "if app.Has(\"db\") {") + At(2, MakeDb()) + At(1, "}")
  }

  function MakeDb(): (t: string)
    ensures CodeText(t)
  {
    Then("db = gai.Make[*orm.DB]", "(app.Container, \"db\")")
  }

  function AuthLookup(): (ls: seq<Line>)
    ensures AllCodeText(ls)
  {
    AuthGuard() + At(2, MakeAuth()) + At(1, "}")
  }

  function AuthGuard(): (ls: seq<Line>)
    ensures AllCodeText(ls)
  {
    At(1, "var authMgr *auth.Manager") + At(1, "if app.Has(\"auth\") {")
  }

  function MakeAuth(): (t: string)
    ensures CodeText(t)
  {
    Then("authMgr = ", "gai.Make[*auth.Manager]" + "(app.Container, \"auth\")")
  }

  /** The call that registers the routes of one model. */
  function Call(r: Route): (ls: seq<Line>)
    ensures '\n' !in r.model ==> AllCodeText(ls)
  {
    if r.auth then Guarded(Then("if db != nil ", "&& authMgr != nil {"), r.model, "Routes(r, db, authMgr)")
    else Guarded("if db != nil {", r.model, "Routes(r, db)")
  }

  function Guarded(guard: string, model: string, tail: string): (ls: seq<Line>)
    requires CodeText(guard) && '\n' !in tail
    ensures '\n' !in model ==> AllCodeText(ls)
  {
    [Line(1, guard), Line(2, Registration(model, tail)), Line(1, "}")]
  }

  function Registration(model: string, tail: string): (t: string)
    ensures '\n' !in model && '\n' !in tail ==> CodeText(t)
  {
    var t := "Register" + (model + tail);
    assert t[0] == 'R';
    t
  }

  function Calls(rs: seq<Route>): (ls: seq<Line>)
    ensures (forall i :: 0 <= i < |rs| ==> '\n' !in rs[i].model) ==> AllCodeText(ls)
  {
    if rs == [] then [] else Call(rs[0]) + Calls(rs[1..])
  }

  function Lookups(): (ls: seq<Line>)
    ensures AllCodeText(ls)
  {
    DbLookup() + AuthLookup()
  }

  function Closing(): (ls: seq<Line>)
    ensures AllCodeText(ls)
  {
    At(0, "}")
  }

  // ------------------------------------------------------------ reading the calls

  predicate HasSuffix(t: string, suffix: string) { |suffix| <= |t| && t[|t| - |suffix|..] == suffix }

  const CALLEE := "Register"
  const PLAIN_ARGS := "Routes(r, db)"
  const AUTH_ARGS := "Routes(r, db, authMgr)"

  /** The model in a call with the given arguments. */
  function Callee(t: string, args: string): (model: seq<string>) {
    if |CALLEE| + |args| <= |t| && HasPrefix(t, CALLEE) && HasSuffix(t, args) then [t[|CALLEE|..|t| - |args|]] else []
  }

  /** A guarded call: one with the authentication manager needs both to be there, one without it the
      database only. */
  function ReadCall(guard: string, call: string, end: string): seq<Route> {
    if end != "}" then []
    else if guard == "if db != nil {" then Routes(Callee(call, PLAIN_ARGS), false)
    else if HasPrefix(guard, "if db != nil ") && guard[|"if db != nil "|..] == "&& authMgr != nil {" then Routes(Callee(call, AUTH_ARGS), true)
    else []
  }

  function Routes(models: seq<string>, auth: bool): seq<Route> { if models == [] then [] else [Route(models[0], auth)] }

  /** The calls of the file, three lines each, without their indentation. */
  function ReadCalls(lines: seq<string>): seq<Route> {
    if |lines| < 3 then []
    else ReadCall(TrimLeft(lines[0]), TrimLeft(lines[1]), TrimLeft(lines[2])) + ReadCalls(lines[3..])
  }

  lemma {:induction false} Unindented(n: nat, t: string)
    requires t == "" || !IsSpace(t[0])
    ensures TrimLeft(Tabs(n) + t) == t
  {
    if n == 0 {
      assert Tabs(0) + t == t;
    } else {
      Unindented(n - 1, t);
      var inner := Tabs(n - 1) + t;
      assert Tabs(n) + t == "\t" + inner && ("\t" + inner)[1..] == inner;
    }
  }

  lemma CalleeReads(model: string, args: string)
    ensures Callee(Registration(model, args), args) == [model]
  {
    var t := Registration(model, args);
    assert t[..|CALLEE|] == CALLEE && t[|CALLEE|..] == model + args;
    assert t[|t| - |args|..] == args && t[|CALLEE|..|t| - |args|] == model;
  }

  lemma GuardReads(r: Route)
    ensures
      var ls := Call(r);
      |ls| == 3 && ReadCall(ls[0].text, ls[1].text, ls[2].text) == [r]
      && forall i :: 0 <= i < 3 ==> ls[i].text != "" && !IsSpace(ls[i].text[0])
  {
    if r.auth {
      CalleeReads(r.model, AUTH_ARGS);
      var g := Then("if db != nil ", "&& authMgr != nil {");
      assert g[..|"if db != nil "|] == "if db != nil " && g[|"if db != nil "|..] == "&& authMgr != nil {";
      assert g[|"if db != nil "|] != '{';
    } else {
      CalleeReads(r.model, PLAIN_ARGS);
    }
  }

  lemma PrintedFirst(ls: seq<Line>, more: seq<Line>)
    requires |ls| == 3 && forall i :: 0 <= i < 3 ==> ls[i].text != "" && !IsSpace(ls[i].text[0])
    ensures
      var lines := Print(ls + more);
      |lines| == 3 + |more| && lines[3..] == Print(more) && forall i :: 0 <= i < 3 ==> TrimLeft(lines[i]) == ls[i].text
  {
    forall i | 0 <= i < 3 ensures TrimLeft(Print(ls + more)[i]) == ls[i].text { Unindented(ls[i].indent, ls[i].text); }
  }

  /** The printed calls read back as the routes, each with its flag. */
  lemma {:induction false} CallsRead(rs: seq<Route>)
    ensures ReadCalls(Print(Calls(rs))) == rs
  {
    if rs != [] {
      var ls, lines := Call(rs[0]), Print(Calls(rs));
      GuardReads(rs[0]);
      CallsRead(rs[1..]);
      PrintedFirst(ls, Calls(rs[1..]));
      assert rs == [rs[0]] + rs[1..];
    }
  }
}
