/**
 What lookup answers at the node its walk ends at (router/router.go): the route that was registered
 last there, the parameters of the path, or the methods that are served.
 */
module RouteAnswers {
  import opened Wrappers
  import opened Paths
  import opened RouteTable

  // ------------------------------------------------------------ parameters

  /** The segments of a path at the parameter positions of q, under the names of the trie; a wildcard
      takes all the rest. A name that stands twice has its last value. */
  function ParamsOf(regs: seq<Route>, q: EdgePath, segs: seq<string>): map<string, string> {
    if q.Root? || Depth(q.up) >= |segs| then map[]
    else
      match q.e
      case Static(_) => ParamsOf(regs, q.up, segs)
      case Param => ParamsOf(regs, q.up, segs)[Named(NameAt(regs, q.up)) := segs[Depth(q.up)]]
      case Wild => ParamsOf(regs, q.up, segs)["*" := Join(segs[Depth(q.up)..])]
  }

  lemma {:induction false} WalkParams(regs: seq<Route>, at: EdgePath, segs: seq<string>, params: map<string, string>)
    requires Depth(at) <= |segs| && params == ParamsOf(regs, at, segs)
    ensures var stop := Walk(regs, at, segs[Depth(at)..], params); stop.Some? ==> stop.value.params == ParamsOf(regs, stop.value.at, segs)
    decreases |segs| - Depth(at)
  {
    var n := Depth(at);
    if n < |segs| {
      assert segs[n..][0] == segs[n] && segs[n..][1..] == segs[n + 1..];
      if Branch(regs, Down(at, Static(segs[n]))) {
        WalkParams(regs, Down(at, Static(segs[n])), segs, params);
      } else if Branch(regs, Down(at, Param)) {
        WalkParams(regs, Down(at, Param), segs, params[Named(NameAt(regs, at)) := segs[n]]);
      }
    }
  }

  // ------------------------------------------------------------ tables

  /** The route was registered for its pattern and method, and no other after it. */
  ghost predicate RegisteredLast(regs: seq<Route>, r: Route) {
    exists i :: 0 <= i < |regs| && regs[i] == r
      && forall j :: i < j < |regs| ==> !(PatternOf(regs[j]) == PatternOf(r) && regs[j].verb == r.verb)
  }

  ghost predicate Serves(regs: seq<Route>, p: EdgePath, verb: string) {
    exists i :: 0 <= i < |regs| && PatternOf(regs[i]) == p && regs[i].verb == verb
  }

  lemma TableStep(regs: seq<Route>, p: EdgePath)
    requires regs != []
    ensures
      var r, init := regs[|regs| - 1], regs[..|regs| - 1];
      TableAt(regs, p) == if PatternOf(r) == p then TableAt(init, p)[r.verb := r] else TableAt(init, p)
  {
  }

  lemma {:induction false} TableServes(regs: seq<Route>, p: EdgePath, verb: string)
    ensures verb in TableAt(regs, p) <==> Serves(regs, p, verb)
  {
    if regs != [] {
      var n := |regs| - 1;
      TableStep(regs, p);
      TableServes(regs[..n], p, verb);
      if i :| 0 <= i < n && PatternOf(regs[..n][i]) == p && regs[..n][i].verb == verb { assert regs[i] == regs[..n][i]; }
      if i :| 0 <= i < |regs| && PatternOf(regs[i]) == p && regs[i].verb == verb {
        if i < n { assert regs[..n][i] == regs[i]; }
      }
    }
  }

  lemma {:induction false} TableLast(regs: seq<Route>, p: EdgePath, verb: string)
    requires verb in TableAt(regs, p)
    ensures var r := TableAt(regs, p)[verb]; RegisteredLast(regs, r) && PatternOf(r) == p && r.verb == verb
  {
    var n := |regs| - 1;
    TableStep(regs, p);
    var r := TableAt(regs, p)[verb];
    if PatternOf(regs[n]) == p && regs[n].verb == verb {
      assert regs[n] == r;
    } else {
      TableLast(regs[..n], p, verb);
      var i :| 0 <= i < n && regs[..n][i] == r && forall j :: i < j < n ==> !(PatternOf(regs[..n][j]) == PatternOf(r) && regs[..n][j].verb == r.verb);
      assert regs[i] == r;
      forall j | i < j < |regs| ensures !(PatternOf(regs[j]) == PatternOf(r) && regs[j].verb == r.verb) {
        if j < n { assert regs[j] == regs[..n][j]; }
      }
    }
  }

  // ------------------------------------------------------------ the answer

  /** The method whose route answers: a HEAD that is not registered falls back to GET. */
  ghost function Effective(regs: seq<Route>, p: EdgePath, verb: string): string {
    if verb == "HEAD" && !Serves(regs, p, "HEAD") then "GET" else verb
  }

  /** At the node the walk ends at, lookup finds exactly the route registered last for the method, with the
      parameters of the path; it names the methods served if there are others only; and it finds
      nothing if there are none, or no such node. */
  lemma AnswerIs(regs: seq<Route>, segs: seq<string>, verb: string)
    ensures
      var res, stop := Lookup(Build(regs), segs, verb), Walk(regs, Root, segs, map[]);
      if stop.None? then res.NotFound?
      else
        var p := stop.value.at;
        if Serves(regs, p, Effective(regs, p, verb)) then
          && res.Found? && RegisteredLast(regs, res.route) && PatternOf(res.route) == p && res.route.verb == Effective(regs, p, verb)
          && res.params == ParamsOf(regs, p, segs)
        else if exists m :: Serves(regs, p, m) then res.NotAllowed? && forall m :: m in res.allowed <==> Serves(regs, p, m)
        else res.NotFound?
  {
    LookupIsGreedy(regs, segs, verb);
    WalkParams(regs, Root, segs, map[]);
    assert segs[0..] == segs;
    var stop := Walk(regs, Root, segs, map[]);
    if stop.Some? { AnswerAt(regs, stop.value.at, stop.value.params, verb); }
  }

  lemma AnswerAt(regs: seq<Route>, p: EdgePath, params: map<string, string>, verb: string)
    ensures
      var res, verb' := Answer(TableAt(regs, p), params, verb), Effective(regs, p, verb);
      if Serves(regs, p, verb') then
        res.Found? && RegisteredLast(regs, res.route) && PatternOf(res.route) == p && res.route.verb == verb' && res.params == params
      else if exists m :: Serves(regs, p, m) then res.NotAllowed? && forall m :: m in res.allowed <==> Serves(regs, p, m)
      else res.NotFound?
  {
    var t, verb' := TableAt(regs, p), Effective(regs, p, verb);
    forall m ensures m in t <==> Serves(regs, p, m) { TableServes(regs, p, m); }
    if Serves(regs, p, verb') {
      TableLast(regs, p, verb');
    } else if m :| Serves(regs, p, m) {
      assert m in t;
    } else {
      assert t == map[];
    }
  }
}
