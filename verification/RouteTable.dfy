/**
 The route trie as a value, and what its lookup means (router/router.go).

 A trie node is named by the edges that lead to it, so a trie is a map from edge paths
 to node contents. The meaning is given by the list of registered routes alone: a plain
 map from normalised pattern to method table, walked greedily.
 */
module RouteTable {
  import opened Wrappers
  import opened Paths

  datatype Route = Route(verb: string, pattern: string, id: nat)

  /** An edge of the trie. */
  datatype Edge = Static(s: string) | Param | Wild

  /** A path of edges from the root; also a normalised pattern. */
  datatype EdgePath = Root | Down(up: EdgePath, e: Edge)

  /** p lies on the way from the root to q. */
  predicate Above(p: EdgePath, q: EdgePath) { p == q || (q.Down? && Above(p, q.up)) }

  function Depth(p: EdgePath): nat { if p.Root? then 0 else 1 + Depth(p.up) }

  function EdgeOf(seg: string): Edge {
    if seg == "*" then Wild else if seg != "" && seg[0] == ':' then Param else Static(seg)
  }

  /** What is left of a pattern after its first segment; nothing after a wildcard counts. */
  function Below(segs: seq<string>): (rest: seq<string>)
    requires segs != []
    ensures |rest| < |segs|
  {
    if EdgeOf(segs[0]).Wild? then [] else segs[1..]
  }

  function Norm(at: EdgePath, segs: seq<string>): EdgePath
    decreases |segs|
  {
    if segs == [] then at else Norm(Down(at, EdgeOf(segs[0])), Below(segs))
  }

  function PatternOf(r: Route): EdgePath { Norm(Root, Segments(r.pattern)) }

  datatype Result =
    | Found(route: Route, params: map<string, string>)
    | NotAllowed(allowed: set<string>)
    | NotFound

  /** What the end node of the walk answers; HEAD falls back to GET. */
  function Answer(table: map<string, Route>, params: map<string, string>, verb: string): Result {
    if table == map[] then NotFound
    else if verb in table then Found(table[verb], params)
    else if verb == "HEAD" && "GET" in table then Found(table["GET"], params)
    else NotAllowed(table.Keys)
  }

  // ------------------------------------------------------------ the trie

  datatype Info = Info(routes: map<string, Route>, paramKey: string)

  const EMPTY_NODE := Info(map[], "")

  type Trie = map<EdgePath, Info>

  /** One edge of an insertion: the child is created if it is missing, and a new
      parameter child names the parameter. */
  function Grow(t: Trie, at: EdgePath, seg: string): Trie
    requires at in t
  {
    var child := Down(at, EdgeOf(seg));
    if child in t then t
    else if EdgeOf(seg).Param? then t[at := t[at].(paramKey := seg[1..])][child := EMPTY_NODE]
    else t[child := EMPTY_NODE]
  }

  function Put(t: Trie, at: EdgePath, r: Route): Trie
    requires at in t
  {
    t[at := t[at].(routes := t[at].routes[r.verb := r])]
  }

  function Insert(t: Trie, at: EdgePath, segs: seq<string>, r: Route): (u: Trie)
    requires at in t
    ensures t.Keys <= u.Keys
    decreases |segs|
  {
    if segs == [] then Put(t, at, r)
    else Insert(Grow(t, at, segs[0]), Down(at, EdgeOf(segs[0])), Below(segs), r)
  }

  function Build(regs: seq<Route>): (t: Trie)
    ensures Root in t
  {
    if regs == [] then map[Root := EMPTY_NODE]
    else Insert(Build(regs[..|regs| - 1]), Root, Segments(regs[|regs| - 1].pattern), regs[|regs| - 1])
  }

  lemma BuildStep(regs: seq<Route>, r: Route)
    ensures Build(regs + [r]) == Insert(Build(regs), Root, Segments(r.pattern), r)
  {
    assert (regs + [r])[..|regs|] == regs;
  }

  datatype Stop = Stop(at: EdgePath, params: map<string, string>)

  /** The walk of lookup: the node reached and the parameters collected. */
  function Descend(t: Trie, at: EdgePath, segs: seq<string>, params: map<string, string>): (stop: Option<Stop>)
    requires at in t
    ensures stop.Some? ==> stop.value.at in t
    decreases |segs|
  {
    if segs == [] then Some(Stop(at, params))
    else if Down(at, Static(segs[0])) in t then Descend(t, Down(at, Static(segs[0])), segs[1..], params)
    else if Down(at, Param) in t then Descend(t, Down(at, Param), segs[1..], params[t[at].paramKey := segs[0]])
    else if Down(at, Wild) in t then Some(Stop(Down(at, Wild), params["*" := Join(segs)]))
    else None
  }

  function Lookup(t: Trie, segs: seq<string>, verb: string): Result
    requires Root in t
  {
    var stop := Descend(t, Root, segs, map[]);
    if stop.None? then NotFound else Answer(t[stop.value.at].routes, stop.value.params, verb)
  }

  // ------------------------------------------------------------ the meaning

  /** Normalised pattern to method table; the last registration wins. */
  function Plain(regs: seq<Route>): map<EdgePath, map<string, Route>> {
    if regs == [] then map[]
    else
      var r, m := regs[|regs| - 1], Plain(regs[..|regs| - 1]);
      var p := PatternOf(r);
      m[p := (if p in m then m[p] else map[])[r.verb := r]]
  }

  function TableAt(regs: seq<Route>, p: EdgePath): map<string, Route> {
    if p in Plain(regs) then Plain(regs)[p] else map[]
  }

  /** Some pattern goes through p. */
  ghost predicate Branch(regs: seq<Route>, p: EdgePath) {
    exists q :: q in Plain(regs) && Above(p, q)
  }

  /** The name that a pattern hanging below `at` gives to the parameter below p. */
  function NameIn(at: EdgePath, segs: seq<string>, p: EdgePath): Option<string>
    decreases |segs|
  {
    if segs == [] then None
    else if p == at then (if EdgeOf(segs[0]).Param? then Some(segs[0][1..]) else None)
    else NameIn(Down(at, EdgeOf(segs[0])), Below(segs), p)
  }

  /** The parameter name below p: that of the first registration that has one there. */
  function NameAt(regs: seq<Route>, p: EdgePath): Option<string> {
    if regs == [] then None
    else
      var r, before := regs[|regs| - 1], NameAt(regs[..|regs| - 1], p);
      if before.Some? then before else NameIn(Root, Segments(r.pattern), p)
  }

  function Named(name: Option<string>): string { if name.Some? then name.value else "" }

  /** The greedy walk over the plain map: static before parameter before wildcard, no way back. */
  ghost function Walk(regs: seq<Route>, at: EdgePath, segs: seq<string>, params: map<string, string>): Option<Stop>
    decreases |segs|
  {
    if segs == [] then Some(Stop(at, params))
    else if Branch(regs, Down(at, Static(segs[0]))) then Walk(regs, Down(at, Static(segs[0])), segs[1..], params)
    else if Branch(regs, Down(at, Param)) then
      Walk(regs, Down(at, Param), segs[1..], params[Named(NameAt(regs, at)) := segs[0]])
    else if Branch(regs, Down(at, Wild)) then Some(Stop(Down(at, Wild), params["*" := Join(segs)]))
    else None
  }

  ghost function Greedy(regs: seq<Route>, segs: seq<string>, verb: string): Result {
    var stop := Walk(regs, Root, segs, map[]);
    if stop.None? then NotFound else Answer(TableAt(regs, stop.value.at), stop.value.params, verb)
  }

  // ------------------------------------------------------------ the trie is the plain map

  function RoutesAt(t: Trie, p: EdgePath): map<string, Route> { if p in t then t[p].routes else map[] }

  function KeyAt(t: Trie, p: EdgePath): Option<string> {
    if p in t && Down(p, Param) in t then Some(t[p].paramKey) else None
  }

  /** q is one of the nodes visited when segs is inserted below `at`. */
  predicate OnWay(at: EdgePath, segs: seq<string>, q: EdgePath)
    decreases |segs|
  {
    q == at || (segs != [] && OnWay(Down(at, EdgeOf(segs[0])), Below(segs), q))
  }

  lemma {:induction false} OnWayIsAbove(at: EdgePath, segs: seq<string>, q: EdgePath)
    ensures Above(q, Norm(at, segs)) <==> Above(q, at) || OnWay(at, segs, q)
    decreases |segs|
  {
    if segs != [] { OnWayIsAbove(Down(at, EdgeOf(segs[0])), Below(segs), q); }
  }

  /** An insertion creates the nodes along its pattern. */
  lemma {:induction false} InsertDomain(t: Trie, at: EdgePath, segs: seq<string>, r: Route, q: EdgePath)
    requires at in t
    ensures q in Insert(t, at, segs, r) <==> q in t || OnWay(at, segs, q)
    decreases |segs|
  {
    if segs != [] { InsertDomain(Grow(t, at, segs[0]), Down(at, EdgeOf(segs[0])), Below(segs), r, q); }
  }

  /** It changes the method table of its last node only. */
  lemma {:induction false} InsertRoutes(t: Trie, at: EdgePath, segs: seq<string>, r: Route, q: EdgePath)
    requires at in t
    ensures RoutesAt(Insert(t, at, segs, r), q) ==
            if q == Norm(at, segs) then RoutesAt(t, q)[r.verb := r] else RoutesAt(t, q)
    decreases |segs|
  {
    if segs != [] { InsertRoutes(Grow(t, at, segs[0]), Down(at, EdgeOf(segs[0])), Below(segs), r, q); }
  }

  lemma {:induction false} NameInDeep(at: EdgePath, segs: seq<string>, p: EdgePath)
    requires Depth(p) < Depth(at)
    ensures NameIn(at, segs, p).None?
    decreases |segs|
  {
    if segs != [] { NameInDeep(Down(at, EdgeOf(segs[0])), Below(segs), p); }
  }

  /** Nodes have their ancestors. */
  ghost predicate Closed(t: Trie) {
    Root in t && forall p, e: Edge :: Down(p, e) in t ==> p in t
  }

  lemma GrowClosed(t: Trie, at: EdgePath, seg: string)
    requires Closed(t) && at in t
    ensures Closed(Grow(t, at, seg))
    ensures forall p :: p in Grow(t, at, seg) <==> p in t || p == Down(at, EdgeOf(seg))
  {
  }

  /** It names the parameters that had no name yet. */
  lemma {:induction false} InsertKeys(t: Trie, at: EdgePath, segs: seq<string>, r: Route, q: EdgePath)
    requires Closed(t) && at in t
    ensures Closed(Insert(t, at, segs, r))
    ensures KeyAt(Insert(t, at, segs, r), q) == if KeyAt(t, q).None? then NameIn(at, segs, q) else KeyAt(t, q)
    decreases |segs|
  {
    if segs != [] {
      var child := Down(at, EdgeOf(segs[0]));
      InsertKeys(Grow(t, at, segs[0]), child, Below(segs), r, q);
      if q == at { NameInDeep(child, Below(segs), at); }
    }
  }

  lemma PlainDomain(regs: seq<Route>, p: EdgePath)
    requires regs != []
    ensures p in Plain(regs) <==> p in Plain(regs[..|regs| - 1]) || p == PatternOf(regs[|regs| - 1])
  {
  }

  lemma BranchGrows(regs: seq<Route>, p: EdgePath)
    requires regs != []
    ensures Branch(regs, p) <==> Branch(regs[..|regs| - 1], p) || Above(p, PatternOf(regs[|regs| - 1]))
  {
    var init, last := regs[..|regs| - 1], PatternOf(regs[|regs| - 1]);
    if Branch(regs, p) {
      var q :| q in Plain(regs) && Above(p, q);
      PlainDomain(regs, q);
    }
    if Branch(init, p) {
      var q :| q in Plain(init) && Above(p, q);
      PlainDomain(regs, q);
    }
    PlainDomain(regs, last);
  }

  /** After any sequence of registrations the trie has a node for p exactly if some
      pattern goes through p; the node's routes are the plain map's table, and its
      parameter name is the first one registered there. */
  lemma {:induction false} BuildSpec(regs: seq<Route>, p: EdgePath)
    ensures Closed(Build(regs))
    ensures p in Build(regs) <==> p == Root || Branch(regs, p)
    ensures RoutesAt(Build(regs), p) == TableAt(regs, p)
    ensures KeyAt(Build(regs), p) == NameAt(regs, p)
  {
    if regs != [] {
      var init, r := regs[..|regs| - 1], regs[|regs| - 1];
      var segs := Segments(r.pattern);
      BuildSpec(init, p);
      InsertDomain(Build(init), Root, segs, r, p);
      InsertRoutes(Build(init), Root, segs, r, p);
      InsertKeys(Build(init), Root, segs, r, p);
      OnWayIsAbove(Root, segs, p);
      BranchGrows(regs, p);
      PlainDomain(regs, p);
    }
  }

  lemma {:induction false} DescendIsWalk(regs: seq<Route>, at: EdgePath, segs: seq<string>, params: map<string, string>)
    requires at in Build(regs)
    ensures Descend(Build(regs), at, segs, params) == Walk(regs, at, segs, params)
    decreases |segs|
  {
    var t := Build(regs);
    if segs != [] {
      BuildSpec(regs, Down(at, Static(segs[0])));
      BuildSpec(regs, Down(at, Param));
      BuildSpec(regs, Down(at, Wild));
      BuildSpec(regs, at);
      if Down(at, Static(segs[0])) in t {
        DescendIsWalk(regs, Down(at, Static(segs[0])), segs[1..], params);
      } else if Down(at, Param) in t {
        DescendIsWalk(regs, Down(at, Param), segs[1..], params[t[at].paramKey := segs[0]]);
      }
    }
  }

  /** Trie lookup is the greedy walk over the plain map. */
  lemma LookupIsGreedy(regs: seq<Route>, segs: seq<string>, verb: string)
    ensures Lookup(Build(regs), segs, verb) == Greedy(regs, segs, verb)
  {
    DescendIsWalk(regs, Root, segs, map[]);
    var stop := Descend(Build(regs), Root, segs, map[]);
    if stop.Some? { BuildSpec(regs, stop.value.at); }
  }

  // ------------------------------------------------------------ matching

  /** The path segs leads from `at` to the pattern q: each segment takes a static edge
      with its text or a parameter edge, and a wildcard takes one or more segments. */
  predicate Matches(at: EdgePath, q: EdgePath, segs: seq<string>)
    decreases |segs|
  {
    if segs == [] then q == at
    else
      || Matches(Down(at, Static(segs[0])), q, segs[1..])
      || Matches(Down(at, Param), q, segs[1..])
      || q == Down(at, Wild)
  }

  /** The node reached really matches the path. */
  lemma {:induction false} WalkMatches(regs: seq<Route>, at: EdgePath, segs: seq<string>, params: map<string, string>)
    ensures var stop := Walk(regs, at, segs, params); stop.Some? ==> Matches(at, stop.value.at, segs)
    decreases |segs|
  {
    if segs != [] {
      WalkMatches(regs, Down(at, Static(segs[0])), segs[1..], params);
      WalkMatches(regs, Down(at, Param), segs[1..], params[Named(NameAt(regs, at)) := segs[0]]);
    }
  }

  lemma {:induction false} TableEntries(regs: seq<Route>, p: EdgePath, verb: string)
    ensures verb in TableAt(regs, p) ==>
      var r := TableAt(regs, p)[verb]; r in regs && r.verb == verb && PatternOf(r) == p
  {
    if regs != [] { TableEntries(regs[..|regs| - 1], p, verb); }
  }

  /** Whatever lookup returns was registered, matches the path, and serves the method. */
  lemma FoundIsSound(regs: seq<Route>, segs: seq<string>, verb: string)
    ensures
      var res := Greedy(regs, segs, verb);
      res.Found? ==>
        && res.route in regs && Matches(Root, PatternOf(res.route), segs)
        && (res.route.verb == verb || (verb == "HEAD" && res.route.verb == "GET"))
  {
    WalkMatches(regs, Root, segs, map[]);
    var stop := Walk(regs, Root, segs, map[]);
    if stop.Some? {
      TableEntries(regs, stop.value.at, verb);
      TableEntries(regs, stop.value.at, "GET");
    }
  }

  /** No node mixes static, parameter and wildcard children. */
  ghost predicate Unambiguous(regs: seq<Route>) {
    && (forall p, s :: !(Branch(regs, Down(p, Static(s))) && Branch(regs, Down(p, Param))))
    && (forall p, s :: !(Branch(regs, Down(p, Static(s))) && Branch(regs, Down(p, Wild))))
    && (forall p :: !(Branch(regs, Down(p, Param)) && Branch(regs, Down(p, Wild))))
  }

  lemma {:induction false} AboveUp(p: EdgePath, e: Edge, q: EdgePath)
    requires Above(Down(p, e), q)
    ensures Above(p, q)
  {
    if Down(p, e) != q { AboveUp(p, e, q.up); }
  }

  lemma {:induction false} MatchesAbove(at: EdgePath, q: EdgePath, segs: seq<string>)
    requires Matches(at, q, segs)
    ensures Above(at, q)
    decreases |segs|
  {
    if segs != [] {
      if Matches(Down(at, Static(segs[0])), q, segs[1..]) {
        MatchesAbove(Down(at, Static(segs[0])), q, segs[1..]);
        AboveUp(at, Static(segs[0]), q);
      } else if Matches(Down(at, Param), q, segs[1..]) {
        MatchesAbove(Down(at, Param), q, segs[1..]);
        AboveUp(at, Param, q);
      }
    }
  }

  lemma {:induction false} WalkReaches(regs: seq<Route>, at: EdgePath, q: EdgePath, segs: seq<string>, params: map<string, string>)
    requires Unambiguous(regs) && q in Plain(regs) && Matches(at, q, segs)
    ensures var stop := Walk(regs, at, segs, params); stop.Some? && stop.value.at == q
    decreases |segs|
  {
    if segs != [] {
      if Matches(Down(at, Static(segs[0])), q, segs[1..]) {
        MatchesAbove(Down(at, Static(segs[0])), q, segs[1..]);
        assert Branch(regs, Down(at, Static(segs[0])));
        WalkReaches(regs, Down(at, Static(segs[0])), q, segs[1..], params);
      } else if Matches(Down(at, Param), q, segs[1..]) {
        MatchesAbove(Down(at, Param), q, segs[1..]);
        assert Branch(regs, Down(at, Param)) && !Branch(regs, Down(at, Static(segs[0])));
        WalkReaches(regs, Down(at, Param), q, segs[1..], params[Named(NameAt(regs, at)) := segs[0]]);
      } else {
        assert Branch(regs, Down(at, Wild)) && !Branch(regs, Down(at, Static(segs[0])));
      }
    }
  }

  lemma {:induction false} TableNonEmpty(regs: seq<Route>, p: EdgePath)
    requires p in Plain(regs)
    ensures Plain(regs)[p] != map[]
  {
    var init, r := regs[..|regs| - 1], regs[|regs| - 1];
    if p == PatternOf(r) {
      assert r.verb in Plain(regs)[p];
    } else {
      TableNonEmpty(init, p);
    }
  }

  /** In an unambiguous table every path that some pattern matches is resolved at that
      pattern: a 405 lists exactly the methods registered for it, and there is no 404. */
  lemma UnambiguousIsComplete(regs: seq<Route>, q: EdgePath, segs: seq<string>, verb: string)
    requires Unambiguous(regs) && q in Plain(regs) && Matches(Root, q, segs)
    ensures
      var res := Greedy(regs, segs, verb);
      var table := Plain(regs)[q];
      && !res.NotFound?
      && (res.Found? <==> verb in table || (verb == "HEAD" && "GET" in table))
      && (res.Found? ==> PatternOf(res.route) == q)
      && (res.NotAllowed? ==> res.allowed == table.Keys)
  {
    WalkReaches(regs, Root, q, segs, map[]);
    TableNonEmpty(regs, q);
    TableEntries(regs, q, verb);
    TableEntries(regs, q, "GET");
  }

  // ------------------------------------------------------------ and only then

  lemma {:induction false} AboveDepth(p: EdgePath, q: EdgePath)
    requires Above(p, q)
    ensures Depth(p) <= Depth(q)
  {
    if p != q { AboveDepth(p, q.up); }
  }

  /** A path goes through one edge below each of its nodes. */
  lemma {:induction false} OneEdgeBelow(p: EdgePath, e: Edge, f: Edge, q: EdgePath)
    requires Above(Down(p, e), q) && Above(Down(p, f), q)
    ensures e == f
  {
    if q == Down(p, e) {
      if q != Down(p, f) { AboveDepth(Down(p, f), q.up); }
    } else if q == Down(p, f) {
      AboveDepth(Down(p, e), q.up);
    } else {
      OneEdgeBelow(p, e, f, q.up);
    }
  }

  lemma {:induction false} AboveThrough(p: EdgePath, q: EdgePath)
    requires Above(p, q) && p != q
    ensures exists e: Edge :: Above(Down(p, e), q)
  {
    if q.up == p {
      assert Above(Down(p, q.e), q);
    } else {
      AboveThrough(p, q.up);
    }
  }

  lemma {:induction false} AboveTransitive(p: EdgePath, q: EdgePath, r: EdgePath)
    requires Above(p, q) && Above(q, r)
    ensures Above(p, r)
  {
    if q != r { AboveTransitive(p, q, r.up); }
  }

  /** Nothing of a pattern hangs below its wildcard. */
  predicate WildEnds(q: EdgePath) { q.Root? || NoWild(q.up) }

  predicate NoWild(q: EdgePath) { q.Root? || (!q.e.Wild? && NoWild(q.up)) }

  lemma {:induction false} NormWildEnds(at: EdgePath, segs: seq<string>)
    requires NoWild(at)
    ensures WildEnds(Norm(at, segs))
    decreases |segs|
  {
    if segs != [] && !EdgeOf(segs[0]).Wild? { NormWildEnds(Down(at, EdgeOf(segs[0])), segs[1..]); }
  }

  lemma {:induction false} PlainWildEnds(regs: seq<Route>, q: EdgePath)
    requires q in Plain(regs)
    ensures WildEnds(q)
  {
    var r := regs[|regs| - 1];
    if q == PatternOf(r) { NormWildEnds(Root, Segments(r.pattern)); } else { PlainWildEnds(regs[..|regs| - 1], q); }
  }

  lemma {:induction false} NoWildAbove(p: EdgePath, q: EdgePath)
    requires Above(p, q) && NoWild(q)
    ensures NoWild(p)
  {
    if p != q { NoWildAbove(p, q.up); }
  }

  /** A path along q that has the text s where q leaves p. */
  function PathTo(q: EdgePath, p: EdgePath, s: string): seq<string> {
    if q.Root? then []
    else PathTo(q.up, p, s) + [if q.up == p then s else if q.e.Static? then q.e.s else "x"]
  }

  lemma {:induction false} PathToAt(q: EdgePath, p: EdgePath, s: string)
    ensures |PathTo(q, p, s)| == Depth(q)
    ensures Depth(p) < Depth(q) && Above(p, q) ==> PathTo(q, p, s)[Depth(p)] == s
  {
    if q.Down? {
      PathToAt(q.up, p, s);
      if q.up != p && Above(p, q.up) { AboveDepth(p, q.up); if Depth(p) == Depth(q.up) { SameDepth(p, q.up); } }
    }
  }

  lemma {:induction false} SameDepth(p: EdgePath, q: EdgePath)
    requires Above(p, q) && Depth(p) == Depth(q)
    ensures p == q
  {
    if p != q { AboveDepth(p, q.up); }
  }

  /** That path, followed by anything that goes on from q, goes on from the root; s is free where q
      leaves p by an edge that is not static. */
  lemma {:induction false} PathToMatches(q: EdgePath, p: EdgePath, s: string, goal: EdgePath, rest: seq<string>)
    requires NoWild(q) && Matches(q, goal, rest)
    requires forall e: Edge :: Above(Down(p, e), q) ==> !e.Static?
    ensures Matches(Root, goal, PathTo(q, p, s) + rest)
  {
    if q.Root? {
      assert [] + rest == rest;
    } else {
      var seg := if q.up == p then s else if q.e.Static? then q.e.s else "x";
      var next := [seg] + rest;
      assert Above(q, q);
      assert next[0] == seg && next[1..] == rest;
      assert Matches(q.up, goal, next);
      forall e: Edge | Above(Down(p, e), q.up)
        ensures !e.Static?
      {
        assert Above(Down(p, e), q);
      }
      PathToMatches(q.up, p, s, goal, next);
      assert PathTo(q, p, s) + rest == PathTo(q.up, p, s) + next;
    }
  }

  /** So does the whole path to a pattern. */
  lemma PathMatches(q: EdgePath, p: EdgePath, s: string, e: Edge)
    requires WildEnds(q) && Above(Down(p, e), q) && !e.Static?
    ensures Matches(Root, q, PathTo(q, p, s))
  {
    var seg := if q.up == p then s else if q.e.Static? then q.e.s else "x";
    if q != Down(p, e) { assert Above(Down(p, e), q.up); }
    forall f: Edge | Above(Down(p, f), q.up)
      ensures !f.Static?
    {
      assert Above(Down(p, f), q);
      OneEdgeBelow(p, e, f, q);
    }
    if q.up == p { assert q.e == e by { if q != Down(p, e) { AboveDepth(Down(p, e), q.up); } } }
    assert [seg][0] == seg && [seg][1..] == [];
    assert Matches(q.up, q, [seg]);
    PathToMatches(q.up, p, s, q, [seg]);
  }

  /** The edge the walk takes. */
  ghost function Preferred(regs: seq<Route>, p: EdgePath, s: string): Option<Edge> {
    if Branch(regs, Down(p, Static(s))) then Some(Static(s))
    else if Branch(regs, Down(p, Param)) then Some(Param)
    else if Branch(regs, Down(p, Wild)) then Some(Wild)
    else None
  }

  /** The walk ends below the edge it takes. */
  lemma WalkBelow(regs: seq<Route>, at: EdgePath, segs: seq<string>, params: map<string, string>)
    requires segs != []
    ensures
      var stop, e := Walk(regs, at, segs, params), Preferred(regs, at, segs[0]);
      stop.Some? ==> e.Some? && Above(Down(at, e.value), stop.value.at)
  {
    var stop := Walk(regs, at, segs, params);
    if stop.Some? {
      var e := Preferred(regs, at, segs[0]).value;
      if !e.Wild? {
        var inner := if e.Param? then params[Named(NameAt(regs, at)) := segs[0]] else params;
        WalkMatches(regs, Down(at, e), segs[1..], inner);
        MatchesAbove(Down(at, e), stop.value.at, segs[1..]);
      }
    }
  }

  /** A walk that leaves p by another edge than q does does not end at q. */
  lemma {:induction false} WalkMisses(
    regs: seq<Route>, at: EdgePath, segs: seq<string>, params: map<string, string>, p: EdgePath, q: EdgePath, e: Edge)
    requires WildEnds(q) && Above(at, p) && Above(Down(p, e), q)
    requires Depth(p) - Depth(at) < |segs| && Depth(at) <= Depth(p)
    requires Preferred(regs, p, segs[Depth(p) - Depth(at)]) != Some(e)
    ensures var stop := Walk(regs, at, segs, params); stop.Some? ==> stop.value.at != q
    decreases |segs|
  {
    var stop := Walk(regs, at, segs, params);
    if stop.Some? && stop.value.at == q {
      WalkBelow(regs, at, segs, params);
      var f := Preferred(regs, at, segs[0]).value;
      if at == p {
        OneEdgeBelow(p, e, f, q);
      } else {
        AboveThrough(at, p);
        var g: Edge :| Above(Down(at, g), p);
        AboveUp(p, e, q);
        AboveTransitive(Down(at, g), p, q);
        OneEdgeBelow(at, f, g, q);
        AboveDepth(Down(at, f), p);
        WalkGoesOn(regs, at, segs, params, p, q, e, f);
      }
    }
  }

  lemma {:induction false} WalkGoesOn(
    regs: seq<Route>, at: EdgePath, segs: seq<string>, params: map<string, string>, p: EdgePath, q: EdgePath, e: Edge, f: Edge)
    requires WildEnds(q) && Above(Down(at, f), p) && Above(Down(p, e), q) && Depth(at) < Depth(p)
    requires Depth(p) - Depth(at) < |segs| && Preferred(regs, p, segs[Depth(p) - Depth(at)]) != Some(e)
    requires Preferred(regs, at, segs[0]) == Some(f)
    ensures var stop := Walk(regs, at, segs, params); stop.Some? ==> stop.value.at != q
    decreases |segs|, 0
  {
    if f.Wild? {
      AboveUp(p, e, q);
      if q == p { AboveDepth(Down(p, e), q); }
      assert Above(p, q.up);
      NoWildAbove(p, q.up);
      NoWildAbove(Down(at, f), p);
    } else {
      var inner := if f.Param? then params[Named(NameAt(regs, at)) := segs[0]] else params;
      assert segs[1..][Depth(p) - Depth(at) - 1] == segs[Depth(p) - Depth(at)];
      WalkMisses(regs, Down(at, f), segs[1..], inner, p, q, e);
    }
  }

  /** The segments of a path: not empty, and without a slash. */
  ghost predicate AllPlain(segs: seq<string>) { forall s :: s in segs ==> Paths.Plain(s) }

  /** Every path that a pattern matches is resolved at that pattern. */
  ghost predicate Complete(regs: seq<Route>) {
    forall q, segs: seq<string> :: q in Plain(regs) && AllPlain(segs) && Matches(Root, q, segs) ==>
      var stop := Walk(regs, Root, segs, map[]); stop.Some? && stop.value.at == q
  }

  /** The static edges carry segments of a path. */
  ghost predicate PlainEdges(q: EdgePath) { q.Down? ==> PlainEdges(q.up) && (q.e.Static? ==> Paths.Plain(q.e.s)) }

  lemma {:induction false} NormPlainEdges(at: EdgePath, segs: seq<string>)
    requires PlainEdges(at) && AllPlain(segs)
    ensures PlainEdges(Norm(at, segs))
    decreases |segs|
  {
    if segs != [] { NormPlainEdges(Down(at, EdgeOf(segs[0])), Below(segs)); }
  }

  lemma {:induction false} RegisteredPlainEdges(regs: seq<Route>, q: EdgePath)
    requires q in Plain(regs)
    ensures PlainEdges(q)
  {
    var r := regs[|regs| - 1];
    if q == PatternOf(r) {
      PartsPlain(r.pattern, []);
      NormPlainEdges(Root, Segments(r.pattern));
    } else {
      RegisteredPlainEdges(regs[..|regs| - 1], q);
    }
  }

  lemma {:induction false} PlainEdgesAbove(p: EdgePath, q: EdgePath)
    requires Above(p, q) && PlainEdges(q)
    ensures PlainEdges(p)
  {
    if p != q { PlainEdgesAbove(p, q.up); }
  }

  lemma BranchPlain(regs: seq<Route>, p: EdgePath, s: string)
    requires Branch(regs, Down(p, Static(s)))
    ensures Paths.Plain(s)
  {
    var q :| q in Plain(regs) && Above(Down(p, Static(s)), q);
    RegisteredPlainEdges(regs, q);
    PlainEdgesAbove(Down(p, Static(s)), q);
  }

  lemma {:induction false} PathToPlain(q: EdgePath, p: EdgePath, s: string)
    requires PlainEdges(q) && Paths.Plain(s)
    ensures AllPlain(PathTo(q, p, s))
  {
    if q.Down? {
      PathToPlain(q.up, p, s);
      assert Paths.Plain("x");
    }
  }

  /** A pattern below an edge that the walk does not prefer for the text s is missed. */
  lemma MixedNodeMisses(regs: seq<Route>, p: EdgePath, s: string, e: Edge)
    requires Branch(regs, Down(p, e)) && !e.Static? && Preferred(regs, p, s) != Some(e) && Paths.Plain(s)
    ensures !Complete(regs)
  {
    var q :| q in Plain(regs) && Above(Down(p, e), q);
    PlainWildEnds(regs, q);
    RegisteredPlainEdges(regs, q);
    PathToPlain(q, p, s);
    PathMatches(q, p, s, e);
    PathToAt(q, p, s);
    AboveUp(p, e, q);
    AboveDepth(Down(p, e), q);
    RootAbove(p);
    WalkMisses(regs, Root, PathTo(q, p, s), map[], p, q, e);
  }

  lemma {:induction false} RootAbove(p: EdgePath)
    ensures Above(Root, p)
  {
    if p.Down? { RootAbove(p.up); }
  }

  /** Greedy lookup resolves every path at every pattern that matches it exactly if no node mixes
      static, parameter and wildcard children. */
  lemma CompleteIff(regs: seq<Route>)
    ensures Complete(regs) <==> Unambiguous(regs)
  {
    if Unambiguous(regs) {
      forall q, segs: seq<string> | q in Plain(regs) && AllPlain(segs) && Matches(Root, q, segs)
        ensures var stop := Walk(regs, Root, segs, map[]); stop.Some? && stop.value.at == q
      {
        WalkReaches(regs, Root, q, segs, map[]);
      }
    } else if p, s :| Branch(regs, Down(p, Static(s))) && Branch(regs, Down(p, Param)) {
      BranchPlain(regs, p, s);
      MixedNodeMisses(regs, p, s, Param);
    } else if p, s :| Branch(regs, Down(p, Static(s))) && Branch(regs, Down(p, Wild)) {
      BranchPlain(regs, p, s);
      MixedNodeMisses(regs, p, s, Wild);
    } else {
      var p :| Branch(regs, Down(p, Param)) && Branch(regs, Down(p, Wild));
      MixedNodeMisses(regs, p, "x", Wild);
    }
  }

  /** For instance: next to /a/b, the pattern
      /:x matches the path /a, but the walk takes the static edge and finds no route there. */
  lemma GreedyMisses(regs: seq<Route>)
    requires regs == [Route("GET", "a/b", 0), Route("GET", ":x", 1)]
    ensures !Complete(regs) && Matches(Root, PatternOf(regs[1]), ["a"]) && Greedy(regs, ["a"], "GET").NotFound?
  {
    assert Segments("a/b") == ["a", "b"] && Segments(":x") == [":x"] by {
      SegmentsOfJoin(["a", "b"]);
      SegmentsOfJoin([":x"]);
      assert Join(["a", "b"]) == "a/b" && Join([":x"]) == ":x";
    }
    var a := Down(Root, Static("a"));
    assert PatternOf(regs[0]) == Down(a, Static("b")) && PatternOf(regs[1]) == Down(Root, Param) by {
      assert ["a", "b"][1..] == ["b"] && ["b"][1..] == [] && [":x"][1..] == [];
    }
    assert regs[..1] == [regs[0]] && [regs[0]][..0] == [];
    PlainDomain(regs, Down(a, Static("b")));
    PlainDomain([regs[0]], Down(a, Static("b")));
    assert Above(a, Down(a, Static("b")));
    assert Branch(regs, a);
    PlainDomain(regs, a);
    PlainDomain([regs[0]], a);
    assert ["a"][1..] == [];
    assert Walk(regs, Root, ["a"], map[]) == Some(Stop(a, map[]));
    PlainDomain(regs, Down(Root, Param));
    assert Branch(regs, Down(Root, Param));
    CompleteIff(regs);
  }
}
