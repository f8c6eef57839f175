/** Reverse routing: building a URL from a route and looking it up again (router/router.go). */
module RouteUrls {
  import opened Wrappers
  import opened Paths
  import opened RouteTable

  function Value(params: map<string, string>, name: string): string {
    if name in params then params[name] else ""
  }

  /** The parameter name a pattern segment refers to. */
  function NameOf(seg: string): Option<string> {
    if seg != "" && seg[0] == ':' then Some(seg[1..]) else if seg == "*" then Some("*") else None
  }

  function FillOne(seg: string, params: map<string, string>): string {
    if NameOf(seg).Some? then Value(params, NameOf(seg).value) else seg
  }

  function Fill(segs: seq<string>, params: map<string, string>): (out: seq<string>)
    ensures |out| == |segs|
  {
    if segs == [] then [] else [FillOne(segs[0], params)] + Fill(segs[1..], params)
  }

  function Url(pattern: string, params: map<string, string>): string {
    "/" + Join(Fill(Segments(pattern), params))
  }

  function NamesIn(segs: seq<string>): set<string> {
    set seg | seg in segs && NameOf(seg).Some? :: NameOf(seg).value
  }

  /** Every parameter of the pattern has a non-empty, slash-free value. */
  ghost predicate Filled(segs: seq<string>, params: map<string, string>) {
    forall n :: n in NamesIn(segs) ==> Paths.Plain(Value(params, n))
  }

  lemma {:induction false} FillPlain(segs: seq<string>, params: map<string, string>)
    requires Filled(segs, params) && forall s :: s in segs ==> Paths.Plain(s)
    ensures forall s :: s in Fill(segs, params) ==> Paths.Plain(s)
  {
    if segs != [] {
      assert segs[0] in segs;
      FilledTail(segs, params);
      FillPlain(segs[1..], params);
    }
  }

  lemma NamesTail(segs: seq<string>)
    requires segs != []
    ensures NamesIn(segs) == NamesIn(segs[1..]) + (if NameOf(segs[0]).Some? then {NameOf(segs[0]).value} else {})
  {
    assert segs == [segs[0]] + segs[1..];
    assert segs[0] in segs;
    forall n | n in NamesIn(segs[1..]) ensures n in NamesIn(segs) {
      var seg :| seg in segs[1..] && NameOf(seg).Some? && NameOf(seg).value == n;
      assert seg in segs;
    }
    forall n | n in NamesIn(segs) ensures n in NamesIn(segs[1..]) || NameOf(segs[0]) == Some(n) {
      var seg :| seg in segs && NameOf(seg).Some? && NameOf(seg).value == n;
      assert seg == segs[0] || seg in segs[1..];
    }
  }

  lemma FilledTail(segs: seq<string>, params: map<string, string>)
    requires segs != [] && Filled(segs, params)
    ensures Filled(segs[1..], params)
    ensures NameOf(segs[0]).Some? ==> NameOf(segs[0]).value in NamesIn(segs)
    ensures NamesIn(segs) == NamesIn(segs[1..]) + (if NameOf(segs[0]).Some? then {NameOf(segs[0]).value} else {})
  {
    NamesTail(segs);
  }

  /** Splitting the built URL gives the pattern with its parameters replaced. */
  lemma UrlSplits(pattern: string, params: map<string, string>)
    requires Filled(Segments(pattern), params)
    ensures Segments(Url(pattern, params)) == Fill(Segments(pattern), params)
  {
    PartsPlain(pattern, []);
    FillPlain(Segments(pattern), params);
    SegmentsOfUrl(Fill(Segments(pattern), params));
  }

  /** The segments of the pattern that have something to show for: those without a parameter, and those whose
      parameter is given and not empty. */
  function Shown(segs: seq<string>, params: map<string, string>): seq<string> {
    if segs == [] then []
    else
      var n := NameOf(segs[0]);
      (if n.None? then [segs[0]] else if n.value in params && params[n.value] != "" then [params[n.value]] else []) + Shown(segs[1..], params)
  }

  /** The value of every given parameter of the pattern has no slash. */
  ghost predicate NoSlashes(segs: seq<string>, params: map<string, string>) {
    forall i :: 0 <= i < |segs| && NameOf(segs[i]).Some? && NameOf(segs[i]).value in params ==> '/' !in params[NameOf(segs[i]).value]
  }

  lemma {:induction false} JoinedParts(segs: seq<string>, params: map<string, string>)
    requires NoSlashes(segs, params) && forall s :: s in segs ==> Paths.Plain(s)
    ensures Segments(Join(Fill(segs, params))) == Shown(segs, params)
    decreases |segs|
  {
    if segs != [] {
      var first, rest := FillOne(segs[0], params), Fill(segs[1..], params);
      assert segs[0] in segs && '/' !in first;
      assert forall s :: s in segs[1..] ==> s in segs;
      assert forall i :: 0 <= i < |segs[1..]| ==> segs[1..][i] == segs[i + 1];
      JoinedParts(segs[1..], params);
      PartsAfter(first, rest);
      assert Fill(segs, params) == [first] + rest;
    }
  }

  /** A slash-free part in front is the first segment, unless it is empty. */
  lemma PartsAfter(first: string, rest: seq<string>)
    requires '/' !in first
    ensures Segments(Join([first] + rest)) == (if first == "" then [] else [first]) + Segments(Join(rest))
  {
    var all := [first] + rest;
    if rest == [] {
      assert Join(all) == first + [] && first + [] == first;
      PartsOfPlain(first, [], []);
      assert [] + first == first;
    } else {
      assert all[1..] == rest;
      var tail := ['/'] + Join(rest);
      assert Join(all) == first + tail;
      PartsOfPlain(first, tail, []);
      assert [] + first == first && tail[0] == '/' && tail[1..] == Join(rest);
    }
  }

  /** Whatever parameters are given, if none of their values has a slash: the built URL splits into the
      segments that have something to show for, and a parameter that is missing or empty leaves no
      segment. */
  lemma UrlSegments(pattern: string, params: map<string, string>)
    requires NoSlashes(Segments(pattern), params)
    ensures Segments(Url(pattern, params)) == Shown(Segments(pattern), params)
  {
    PartsPlain(pattern, []);
    JoinedParts(Segments(pattern), params);
    var url := Url(pattern, params);
    assert url[0] == '/' && url[1..] == Join(Fill(Segments(pattern), params));
  }

  /** No segment follows a wildcard. */
  ghost predicate WildLast(segs: seq<string>) {
    forall k :: 0 <= k < |segs| - 1 ==> segs[k] != "*"
  }

  /** Every parameter of the pattern was named first by this pattern's own name for it. */
  ghost predicate NamesFirst(regs: seq<Route>, at: EdgePath, segs: seq<string>)
    decreases |segs|
  {
    segs == [] || (
      && (EdgeOf(segs[0]).Param? ==> NameAt(regs, at) == Some(segs[0][1..]))
      && NamesFirst(regs, Down(at, EdgeOf(segs[0])), segs[1..]))
  }

  function Bound(segs: seq<string>, params: map<string, string>): map<string, string> {
    map n | n in NamesIn(segs) :: Value(params, n)
  }

  lemma BoundTail(segs: seq<string>, params: map<string, string>, acc: map<string, string>)
    requires segs != [] && Filled(segs, params)
    ensures
      var n := NameOf(segs[0]);
      (if n.Some? then acc[n.value := Value(params, n.value)] else acc) + Bound(segs[1..], params) == acc + Bound(segs, params)
  {
    FilledTail(segs, params);
  }

  lemma {:induction false} NormAbove(at: EdgePath, segs: seq<string>)
    ensures Above(at, Norm(at, segs))
    decreases |segs|
  {
    if segs != [] {
      NormAbove(Down(at, EdgeOf(segs[0])), Below(segs));
      AboveUp(at, EdgeOf(segs[0]), Norm(at, segs));
    }
  }

  /** In an unambiguous table the walk along a filled pattern reaches the pattern and
      collects exactly the values that were filled in. */
  lemma {:induction false} WalkCollects(
    regs: seq<Route>, at: EdgePath, segs: seq<string>, params: map<string, string>, acc: map<string, string>)
    requires Unambiguous(regs) && Norm(at, segs) in RouteTable.Plain(regs)
    requires WildLast(segs) && Filled(segs, params) && NamesFirst(regs, at, segs)
    ensures Walk(regs, at, Fill(segs, params), acc) == Some(Stop(Norm(at, segs), acc + Bound(segs, params)))
    decreases |segs|
  {
    if segs == [] {
      assert acc + Bound(segs, params) == acc;
    } else {
      var e, fill := EdgeOf(segs[0]), Fill(segs, params);
      NormAbove(Down(at, e), Below(segs));
      assert Branch(regs, Down(at, e));
      BoundTail(segs, params, acc);
      assert fill[0] == FillOne(segs[0], params) && fill[1..] == Fill(segs[1..], params);
      if e.Wild? {
        assert |segs| == 1 && segs[1..] == [] && fill == [fill[0]];
        assert !Branch(regs, Down(at, Static(fill[0]))) && !Branch(regs, Down(at, Param));
        assert acc["*" := fill[0]] + Bound([], params) == acc["*" := fill[0]];
      } else {
        FilledTail(segs, params);
        assert e.Param? ==> !Branch(regs, Down(at, Static(fill[0])));
        WalkCollects(regs, Down(at, e), segs[1..], params, if e.Param? then acc[segs[0][1..] := fill[0]] else acc);
      }
    }
  }

  /** For a route registered last for its method and pattern, whose parameters carry its own
      names, looking up the URL built for it gives back the route and the parameters. */
  lemma UrlRoundTrip(regs: seq<Route>, r: Route, params: map<string, string>)
    requires Unambiguous(regs) && WildLast(Segments(r.pattern)) && Filled(Segments(r.pattern), params)
    requires r.verb in TableAt(regs, PatternOf(r)) && TableAt(regs, PatternOf(r))[r.verb] == r
    requires NamesFirst(regs, Root, Segments(r.pattern))
    ensures Lookup(Build(regs), Segments(Url(r.pattern, params)), r.verb) ==
            Found(r, Bound(Segments(r.pattern), params))
  {
    var segs := Segments(r.pattern);
    UrlSplits(r.pattern, params);
    LookupIsGreedy(regs, Fill(segs, params), r.verb);
    WalkCollects(regs, Root, segs, params, map[]);
    assert map[] + Bound(segs, params) == Bound(segs, params);
  }

  // ------------------------------------------------------------ exactly when the round trip holds

  /** The parameters that the walk along a filled pattern collects, under the names of the trie. */
  ghost function Collected(regs: seq<Route>, at: EdgePath, segs: seq<string>, params: map<string, string>, acc: map<string, string>): map<string, string>
    decreases |segs|
  {
    if segs == [] then acc
    else
      match EdgeOf(segs[0])
      case Wild => acc["*" := Join(Fill(segs, params))]
      case Param => Collected(regs, Down(at, Param), segs[1..], params, acc[Named(NameAt(regs, at)) := FillOne(segs[0], params)])
      case Static(_) => Collected(regs, Down(at, EdgeOf(segs[0])), segs[1..], params, acc)
  }

  /** In an unambiguous table the walk along any filled pattern reaches the pattern. */
  lemma {:induction false} WalkFollows(
    regs: seq<Route>, at: EdgePath, segs: seq<string>, params: map<string, string>, acc: map<string, string>)
    requires Unambiguous(regs) && Norm(at, segs) in RouteTable.Plain(regs)
    ensures Walk(regs, at, Fill(segs, params), acc) == Some(Stop(Norm(at, segs), Collected(regs, at, segs, params, acc)))
    decreases |segs|
  {
    if segs != [] {
      var e, fill := EdgeOf(segs[0]), Fill(segs, params);
      NormAbove(Down(at, e), Below(segs));
      assert Branch(regs, Down(at, e));
      assert fill[0] == FillOne(segs[0], params) && fill[1..] == Fill(segs[1..], params);
      assert !e.Static? ==> !Branch(regs, Down(at, Static(fill[0])));
      if e.Wild? {
        assert !Branch(regs, Down(at, Param));
      } else {
        WalkFollows(regs, Down(at, e), segs[1..], params, if e.Param? then acc[Named(NameAt(regs, at)) := fill[0]] else acc);
      }
    }
  }

  /** The parameters of the pattern have different names. */
  ghost predicate DistinctNames(segs: seq<string>) {
    segs == [] || (DistinctNames(segs[1..]) && (NameOf(segs[0]).Some? ==> NameOf(segs[0]).value !in NamesIn(segs[1..])))
  }

  /** A value for each name, different for different names. */
  ghost function Telling(segs: seq<string>): map<string, string> { map n | n in NamesIn(segs) :: "v" + n }

  lemma NamesSlashless(segs: seq<string>, n: string)
    requires (forall s :: s in segs ==> Paths.Plain(s)) && n in NamesIn(segs)
    ensures Paths.Plain("v" + n)
  {
    var seg :| seg in segs && NameOf(seg).Some? && NameOf(seg).value == n;
    assert forall i :: 0 <= i < |n| ==> n[i] in seg;
  }

  lemma TellingFills(segs: seq<string>)
    requires forall s :: s in segs ==> Paths.Plain(s)
    ensures Filled(segs, Telling(segs))
  {
    forall n | n in NamesIn(segs)
      ensures Paths.Plain(Value(Telling(segs), n))
    {
      NamesSlashless(segs, n);
    }
  }

  /** More than one segment joins into a text with a slash. */
  lemma JoinHasSlash(parts: seq<string>)
    requires |parts| > 1
    ensures '/' in Join(parts)
  {
    var j := Join(parts);
    assert j[|parts[0]|] == '/';
  }

  /** What a segment after a wildcard leads to. */
  lemma {:induction false} WildNotLast(regs: seq<Route>, at: EdgePath, segs: seq<string>, params: map<string, string>, acc: map<string, string>)
    requires !WildLast(segs)
    ensures var r := Collected(regs, at, segs, params, acc); "*" in r && '/' in r["*"]
    decreases |segs|
  {
    if EdgeOf(segs[0]).Wild? {
      JoinHasSlash(Fill(segs, params));
    } else {
      var k :| 0 <= k < |segs| - 1 && segs[k] == "*";
      assert segs[1..][k - 1] == "*";
      WildNotLast(regs, Down(at, EdgeOf(segs[0])), segs[1..], params,
                  if EdgeOf(segs[0]).Param? then acc[Named(NameAt(regs, at)) := FillOne(segs[0], params)] else acc);
    }
  }

  /** What is collected is what was there before, or the value of one of the pattern's names. */
  lemma {:induction false} Origin(
    regs: seq<Route>, at: EdgePath, segs: seq<string>, params: map<string, string>, acc: map<string, string>, key: string, value: string)
    requires WildLast(segs) && (forall n :: n in NamesIn(segs) ==> Value(params, n) != value)
    requires var r := Collected(regs, at, segs, params, acc); key in r && r[key] == value
    ensures key in acc && acc[key] == value
    decreases |segs|
  {
    if segs != [] {
      var e := EdgeOf(segs[0]);
      assert segs[0] in segs;
      NamesTail(segs);
      WildLastTail(segs);
      if e.Wild? {
        WildAlone(segs);
        var fill := Fill(segs, params);
        assert segs[1..] == [] && fill == [FillOne(segs[0], params)];
        assert Join(fill) == Value(params, "*");
      } else {
        Origin(regs, Down(at, e), segs[1..], params, if e.Param? then acc[Named(NameAt(regs, at)) := FillOne(segs[0], params)] else acc, key, value);
      }
    }
  }

  lemma WildAlone(segs: seq<string>)
    requires segs != [] && WildLast(segs) && EdgeOf(segs[0]).Wild?
    ensures |segs| == 1
  {
  }

  lemma WildLastTail(segs: seq<string>)
    requires segs != [] && WildLast(segs)
    ensures WildLast(segs[1..])
  {
  }

  /** If every name gets its own value back, the trie uses the pattern's names. */
  lemma {:induction false} NamesForced(
    regs: seq<Route>, at: EdgePath, segs: seq<string>, params: map<string, string>, acc: map<string, string>)
    requires WildLast(segs) && DistinctNames(segs) && Norm(at, segs) in RouteTable.Plain(regs)
    requires forall n :: n in NamesIn(segs) ==> Value(params, n) == "v" + n
    requires forall n, key :: n in NamesIn(segs) && key in acc ==> acc[key] != "v" + n
    requires var r := Collected(regs, at, segs, params, acc); forall n :: n in NamesIn(segs) ==> n in r && r[n] == "v" + n
    ensures NamesFirst(regs, at, segs)
    decreases |segs|
  {
    if segs != [] {
      var e, tail := EdgeOf(segs[0]), segs[1..];
      NamesTail(segs);
      WildLastTail(segs);
      if e.Wild? {
        WildAlone(segs);
      } else {
        assert Norm(Down(at, e), tail) == Norm(at, segs);
        if e.Param? {
          FirstNameForced(regs, at, segs, params, acc);
        } else {
          NamesForced(regs, Down(at, e), tail, params, acc);
        }
      }
    }
  }

  lemma {:induction false} FirstNameForced(
    regs: seq<Route>, at: EdgePath, segs: seq<string>, params: map<string, string>, acc: map<string, string>)
    requires segs != [] && EdgeOf(segs[0]).Param?
    requires WildLast(segs) && DistinctNames(segs) && Norm(at, segs) in RouteTable.Plain(regs)
    requires forall n :: n in NamesIn(segs) ==> Value(params, n) == "v" + n
    requires forall n, key :: n in NamesIn(segs) && key in acc ==> acc[key] != "v" + n
    requires var r := Collected(regs, at, segs, params, acc); forall n :: n in NamesIn(segs) ==> n in r && r[n] == "v" + n
    ensures NamesFirst(regs, at, segs)
    decreases |segs|, 0
  {
    var m, tail, t := segs[0][1..], segs[1..], Named(NameAt(regs, at));
    NamesTail(segs);
    WildLastTail(segs);
    var inner := acc[t := "v" + m];
    assert m in NamesIn(segs) && FillOne(segs[0], params) == "v" + m;
    forall n | n in NamesIn(tail)
      ensures Value(params, n) != "v" + m
    {
      DifferentValues(n, m);
    }
    Origin(regs, Down(at, Param), tail, params, inner, m, "v" + m);
    assert t == m;
    NormAbove(Down(at, Param), tail);
    assert Branch(regs, Down(at, Param));
    BuildSpec(regs, at);
    BuildSpec(regs, Down(at, Param));
    assert NameAt(regs, at).Some?;
    forall n, key | n in NamesIn(tail) && key in inner
      ensures inner[key] != "v" + n
    {
      DifferentValues(n, m);
    }
    NamesForced(regs, Down(at, Param), tail, params, inner);
  }

  lemma DifferentValues(n: string, m: string)
    ensures "v" + n == "v" + m ==> n == m
  {
    if "v" + n == "v" + m { assert n == ("v" + n)[1..] == ("v" + m)[1..] == m; }
  }

  /** The round trip for one choice of values. */
  ghost predicate ComesBack(regs: seq<Route>, r: Route, params: map<string, string>) {
    Lookup(Build(regs), Segments(Url(r.pattern, params)), r.verb) == Found(r, Bound(Segments(r.pattern), params))
  }

  lemma ComesBackIff(regs: seq<Route>, r: Route, params: map<string, string>)
    requires Unambiguous(regs) && Filled(Segments(r.pattern), params)
    requires r.verb in TableAt(regs, PatternOf(r)) && TableAt(regs, PatternOf(r))[r.verb] == r
    ensures ComesBack(regs, r, params) <==> Collected(regs, Root, Segments(r.pattern), params, map[]) == Bound(Segments(r.pattern), params)
  {
    var segs := Segments(r.pattern);
    UrlSplits(r.pattern, params);
    LookupIsGreedy(regs, Fill(segs, params), r.verb);
    WalkFollows(regs, Root, segs, params, map[]);
  }

  /** For a route registered last for its method and pattern, with distinct parameter names in an
      unambiguous table, every URL built for it is looked up to the same route and parameters
      exactly if nothing follows a wildcard and the route first named its parameters. */
  lemma UrlRoundTripIff(regs: seq<Route>, r: Route)
    requires Unambiguous(regs) && DistinctNames(Segments(r.pattern))
    requires r.verb in TableAt(regs, PatternOf(r)) && TableAt(regs, PatternOf(r))[r.verb] == r
    ensures (forall params: map<string, string> :: Filled(Segments(r.pattern), params) ==> ComesBack(regs, r, params))
            <==> WildLast(Segments(r.pattern)) && NamesFirst(regs, Root, Segments(r.pattern))
  {
    var segs := Segments(r.pattern);
    if WildLast(segs) && NamesFirst(regs, Root, segs) {
      forall params: map<string, string> | Filled(segs, params)
        ensures ComesBack(regs, r, params)
      {
        UrlRoundTrip(regs, r, params);
      }
    }
    if forall params: map<string, string> :: Filled(segs, params) ==> ComesBack(regs, r, params) {
      RoundTripForces(regs, r);
    }
  }

  lemma RoundTripForces(regs: seq<Route>, r: Route)
    requires Unambiguous(regs) && DistinctNames(Segments(r.pattern))
    requires r.verb in TableAt(regs, PatternOf(r)) && TableAt(regs, PatternOf(r))[r.verb] == r
    requires forall params: map<string, string> :: Filled(Segments(r.pattern), params) ==> ComesBack(regs, r, params)
    ensures WildLast(Segments(r.pattern)) && NamesFirst(regs, Root, Segments(r.pattern))
  {
    var segs := Segments(r.pattern);
    var params := Telling(segs);
    PartsPlain(r.pattern, []);
    TellingFills(segs);
    ComesBackIff(regs, r, params);
    var got := Collected(regs, Root, segs, params, map[]);
    assert got == Bound(segs, params);
    if !WildLast(segs) {
      WildNotLast(regs, Root, segs, params, map[]);
      assert false;
    }
    NamesForced(regs, Root, segs, params, map[]);
  }

  /** A segment after a wildcard breaks the round trip: the URL keeps it, the trie does not. */
  lemma SegmentAfterWildcard(r: Route, v: string)
    requires r == Route("GET", "*/b", 0) && Paths.Plain(v)
    ensures Segments(Url(r.pattern, map["*" := v])) == [v, "b"]
    ensures Lookup(Build([r]), [v, "b"], "GET") == Found(r, map["*" := v + "/b"])
  {
    assert Segments("*/b") == ["*", "b"] by {
      SegmentsOfJoin(["*", "b"]);
      assert Join(["*", "b"]) == "*/b";
    }
    WildcardUrl(v);
    WildcardLookup(r, v);
  }

  lemma WildcardUrl(v: string)
    requires Paths.Plain(v) && Segments("*/b") == ["*", "b"]
    ensures Segments(Url("*/b", map["*" := v])) == [v, "b"]
  {
    var params := map["*" := v];
    assert NamesIn(["*", "b"]) == {"*"} by {
      assert NameOf("*") == Some("*") && NameOf("b").None?;
      assert "*" in ["*", "b"];
    }
    assert ["*", "b"][1..] == ["b"] && ["b"][1..] == [];
    assert Fill(["b"], params) == ["b"];
    UrlSplits("*/b", params);
  }

  lemma WildcardLookup(r: Route, v: string)
    requires r == Route("GET", "*/b", 0) && Segments("*/b") == ["*", "b"]
    ensures Lookup(Build([r]), [v, "b"], "GET") == Found(r, map["*" := v + "/b"])
  {
    var wild, t := Down(Root, Wild), Build([r]);
    assert [] + [r] == [r];
    BuildStep([], r);
    assert t == Insert(map[Root := EMPTY_NODE], Root, ["*", "b"], r);
    var g := Grow(map[Root := EMPTY_NODE], Root, "*");
    assert g == map[Root := EMPTY_NODE, wild := EMPTY_NODE];
    assert Below(["*", "b"]) == [] && t == Put(g, wild, r);
    assert t == map[Root := EMPTY_NODE, wild := Info(map["GET" := r], "")];
    assert Join([v, "b"]) == v + "/b" by {
      assert [v, "b"][1..] == ["b"];
    }
    assert Descend(t, Root, [v, "b"], map[]) == Some(Stop(wild, map["*" := v + "/b"]));
    assert "GET" in t[wild].routes;
  }
}
