/**
 The router's linked trie (router/router.go, router/route.go): nodes are objects that
 insertion creates and updates in place, and lookup follows. `path`, `trie` and `repr`
 are specification only: where a node hangs, what the whole structure means, and
 which nodes it consists of.
 */
module Router {
  import opened Wrappers
  import opened Paths
  import RouteUrls
  import opened RouteTable

  class Node {
    var statics: map<string, Node>
    var param: Node?
    var paramKey: string
    var wild: Node?
    var routes: map<string, Route>
    ghost const path: EdgePath

    constructor (ghost path: EdgePath)
      ensures this.path == path
      ensures statics == map[] && param == null && wild == null
      ensures paramKey == "" && routes == map[]
    {
      this.path := path;
      statics, param, paramKey, wild, routes := map[], null, "", null, map[];
    }

    ghost function Child(e: Edge): Node?
      reads this
    {
      match e
      case Static(s) => if s in statics then statics[s] else null
      case Param => param
      case Wild => wild
    }

    method GetChild(seg: string) returns (next: Node?)
      ensures next == Child(EdgeOf(seg))
    {
      if seg == "*" {
        next := wild;
      } else if seg != "" && seg[0] == ':' {
        next := param;
      } else if seg in statics {
        next := statics[seg];
      } else {
        next := null;
      }
    }

    /** Hangs a new child below the node; a parameter child names the parameter. */
    method SetChild(seg: string, next: Node)
      modifies this
      ensures forall e: Edge :: Child(e) == if e == EdgeOf(seg) then next else old(Child(e))
      ensures routes == old(routes) && paramKey == if EdgeOf(seg).Param? then seg[1..] else old(paramKey)
    {
      if seg == "*" {
        wild := next;
      } else if seg != "" && seg[0] == ':' {
        param := next;
        paramKey := seg[1..];
      } else {
        statics := statics[seg := next];
      }
    }

    /** The node holds what the trie says, and its children are those of the trie. */
    ghost predicate Holds(t: Trie, repr: set<Node>)
      reads this
    {
      && path in t && t[path] == Info(routes, paramKey)
      && (forall e: Edge :: Child(e) != null <==> Down(path, e) in t)
      && (forall e: Edge :: Child(e) != null ==> Child(e) in repr && Child(e).path == Down(path, e))
    }
  }

  class Router {
    const tree: Node
    var routes: seq<Route>
    var named: map<string, Route>
    ghost var trie: Trie
    ghost var repr: set<Node>

    /** The linked nodes represent the trie, one node for each path. */
    ghost predicate Linked()
      reads this`trie, this`repr, repr
    {
      && tree in repr && tree.path == Root && Closed(trie)
      && (forall n, m :: n in repr && m in repr && n.path == m.path ==> n == m)
      && (forall n :: n in repr ==> n.Holds(trie, repr))
    }

    ghost predicate Valid()
      reads this, repr
    {
      Linked() && trie == Build(routes)
    }

    constructor ()
      ensures Valid() && routes == [] && named == map[] && fresh(repr)
    {
      var root := new Node(Root);
      tree := root;
      routes, named := [], map[];
      trie, repr := map[Root := EMPTY_NODE], {root};
    }

    /** A node elsewhere in the trie does not notice a new child. */
    static lemma HoldsGrown(n: Node, t: Trie, repr: set<Node>, at: EdgePath, seg: string, next: Node)
      requires n.Holds(t, repr) && at in t && n.path != at && Down(at, EdgeOf(seg)) !in t
      ensures n.Holds(Grow(t, at, seg), repr + {next})
    {
    }

    /** The parent of the new child notices just that. */
    static lemma ParentGrown(n: Node, t: Trie, repr: set<Node>, seg: string, next: Node)
      requires n.path in t && Down(n.path, EdgeOf(seg)) !in t
      requires n.Child(EdgeOf(seg)) == next && next.path == Down(n.path, EdgeOf(seg))
      requires forall e: Edge :: e != EdgeOf(seg) ==> (n.Child(e) != null <==> Down(n.path, e) in t)
      requires forall e: Edge :: e != EdgeOf(seg) && n.Child(e) != null ==> n.Child(e) in repr && n.Child(e).path == Down(n.path, e)
      requires n.routes == t[n.path].routes
      requires n.paramKey == if EdgeOf(seg).Param? then seg[1..] else t[n.path].paramKey
      ensures n.Holds(Grow(t, n.path, seg), repr + {next})
    {
    }

    /** The new child is a leaf. */
    static lemma LeafHolds(next: Node, t: Trie, repr: set<Node>)
      requires next.path in t && t[next.path] == EMPTY_NODE && next.routes == map[] && next.paramKey == ""
      requires forall e: Edge :: next.Child(e) == null && Down(next.path, e) !in t
      ensures next.Holds(t, repr)
    {
    }

    method NewChild(cur: Node, seg: string) returns (next: Node)
      requires Linked() && cur in repr && cur.Child(EdgeOf(seg)) == null
      modifies this`trie, this`repr, cur
      ensures Linked() && cur.path in old(trie) && trie == Grow(old(trie), cur.path, seg)
      ensures next.path == Down(cur.path, EdgeOf(seg)) && fresh(next) && repr == old(repr) + {next}
    {
      ghost var child := Down(cur.path, EdgeOf(seg));
      assert cur.Holds(trie, repr);
      GrowClosed(trie, cur.path, seg);
      forall n | n in repr ensures n.path != child { assert n.Holds(trie, repr); }
      next := new Node(child);
      ghost var t, r := Grow(trie, cur.path, seg), repr + {next};
      forall n | n in repr && n != cur ensures n.Holds(t, r) {
        HoldsGrown(n, trie, repr, cur.path, seg, next);
      }
      assert next.Holds(t, r) by {
        assert Closed(trie);
        LeafHolds(next, t, r);
      }
      cur.SetChild(seg, next);
      ParentGrown(cur, trie, repr, seg, next);
      trie, repr := t, r;
    }

    /** One round of the loop of insert: the child for a segment, created if missing. */
    method EnsureChild(cur: Node, seg: string) returns (next: Node)
      requires Linked() && cur in repr
      modifies this`trie, this`repr, cur
      ensures Linked() && cur.path in old(trie) && trie == Grow(old(trie), cur.path, seg)
      ensures next in repr && next.path == Down(cur.path, EdgeOf(seg))
      ensures old(repr) <= repr && fresh(repr - old(repr))
    {
      assert cur.Holds(trie, repr);
      var found := cur.GetChild(seg);
      if found != null { return found; }
      next := NewChild(cur, seg);
    }

    /** insert: walk down, creating what is missing, and record the route at the end. */
    method Insert(segs: seq<string>, r: Route)
      requires Linked()
      modifies this`trie, this`repr, repr
      ensures Linked() && Root in old(trie) && trie == RouteTable.Insert(old(trie), Root, segs, r)
      ensures old(repr) <= repr && fresh(repr - old(repr))
    {
      var cur, i := tree, 0;
      ghost var rest := segs;
      while i < |segs|
        invariant 0 <= i <= |segs| && rest == segs[i..]
        invariant Linked() && cur in repr && cur.path in trie
        invariant RouteTable.Insert(trie, cur.path, rest, r) == RouteTable.Insert(old(trie), Root, segs, r)
        invariant old(repr) <= repr && fresh(repr - old(repr))
      {
        var seg := segs[i];
        cur := EnsureChild(cur, seg);
        rest := Below(rest);
        if seg == "*" { break; }
        i := i + 1;
      }
      assert rest == [];
      PutRoute(cur, r);
    }

    static lemma HoldsPut(n: Node, t: Trie, repr: set<Node>, at: EdgePath, r: Route)
      requires n.Holds(t, repr) && at in t && n.path != at
      ensures n.Holds(Put(t, at, r), repr)
    {
    }

    method PutRoute(cur: Node, r: Route)
      requires Linked() && cur in repr
      modifies this`trie, cur
      ensures Linked() && repr == old(repr) && cur.path in old(trie) && trie == Put(old(trie), cur.path, r)
    {
      assert cur.Holds(trie, repr);
      ghost var t := Put(trie, cur.path, r);
      assert Closed(t) by {
        assert forall p :: p in t <==> p in trie;
        assert Closed(trie);
      }
      cur.routes := cur.routes[r.verb := r];
      trie := t;
      forall n | n in repr ensures n.Holds(t, repr) {
        assert old(n.Holds(trie, repr));
        forall e: Edge ensures n.Child(e) == old(n.Child(e)) {}
        if n != cur { HoldsPut(n, old(trie), repr, cur.path, r); }
      }
    }

    method AddRoute(verb: string, pattern: string, id: nat) returns (r: Route)
      requires Valid()
      modifies this`routes, this`trie, this`repr, repr
      ensures r == Route(verb, pattern, id)
      ensures Valid() && routes == old(routes) + [r]
      ensures old(repr) <= repr && fresh(repr - old(repr))
    {
      r := Route(verb, pattern, id);
      var segs := SplitPath(pattern);
      Insert(segs, r);
      BuildStep(routes, r);
      Record(r);
    }

    /** Appends to the list of routes, which is no part of the linked nodes. */
    method Record(r: Route)
      requires Linked() && trie == Build(routes + [r])
      modifies this`routes
      ensures Valid() && routes == old(routes) + [r]
    {
      routes := routes + [r];
    }

    /** lookup: the answer of the greedy walk over the registered routes. The list of
        allowed methods is in no particular order and has no repetition. */
    method Lookup(segs: seq<string>, verb: string) returns (res: Result, allowed: seq<string>)
      requires Valid()
      ensures res == Greedy(routes, segs, verb)
      ensures res.NotAllowed? ==> (forall m :: m in allowed <==> m in res.allowed) && |allowed| == |res.allowed|
      ensures !res.NotAllowed? ==> allowed == []
    {
      LookupIsGreedy(routes, segs, verb);
      allowed := [];
      var cur, i := tree, 0;
      var params: map<string, string> := map[];
      while i < |segs|
        invariant 0 <= i <= |segs|
        invariant cur in repr && cur.path in trie
        invariant Descend(trie, cur.path, segs[i..], params) == Descend(trie, Root, segs, map[])
      {
        var seg := segs[i];
        assert segs[i..][0] == seg && segs[i..][1..] == segs[i + 1..];
        assert cur.Holds(trie, repr);
        assert cur.Child(Static(seg)) != null <==> Down(cur.path, Static(seg)) in trie;
        assert cur.Child(Param) != null <==> Down(cur.path, Param) in trie;
        assert cur.Child(Wild) != null <==> Down(cur.path, Wild) in trie;
        if seg in cur.statics {
          cur := cur.statics[seg];
        } else if cur.param != null {
          params := params[cur.paramKey := seg];
          cur := cur.param;
        } else if cur.wild != null {
          params := params["*" := Join(segs[i..])];
          cur := cur.wild;
          assert Descend(trie, Root, segs, map[]) == Some(Stop(cur.path, params));
          break;
        } else {
          return NotFound, [];
        }
        i := i + 1;
      }
      assert Descend(trie, Root, segs, map[]) == Some(Stop(cur.path, params));
      res := Answer(cur.routes, params, verb);
      if res.NotAllowed? { allowed := Listed(cur.routes.Keys); }
    }

    static method Listed(s: set<string>) returns (out: seq<string>)
      ensures |out| == |s| && forall m :: m in out <==> m in s
    {
      out := [];
      var left := s;
      while left != {}
        invariant left <= s && |out| + |left| == |s|
        invariant forall m :: m in out <==> m in s - left
      {
        var m :| m in left;
        left, out := left - {m}, out + [m];
      }
    }

    /** Route.As: names a route for reverse resolution. */
    method As(r: Route, name: string)
      modifies this`named
      ensures named == old(named)[name := r]
    {
      named := named[name := r];
    }

    /** URL: the path of a named route with its parameters filled in, "" for an unknown name. */
    method URL(name: string, params: map<string, string>) returns (url: string)
      ensures name !in named ==> url == ""
      ensures name in named ==> url == RouteUrls.Url(named[name].pattern, params)
    {
      if name !in named { return ""; }
      var parts := SplitPath(named[name].pattern);
      var out: seq<string>, i := [], 0;
      while i < |parts|
        invariant 0 <= i <= |parts|
        invariant out + RouteUrls.Fill(parts[i..], params) == RouteUrls.Fill(parts, params)
      {
        var p := parts[i];
        assert parts[i..][0] == p && parts[i..][1..] == parts[i + 1..];
        ghost var rest := RouteUrls.Fill(parts[i + 1..], params);
        ghost var filled := RouteUrls.FillOne(p, params);
        assert out + ([filled] + rest) == (out + [filled]) + rest;
        if p != "" && p[0] == ':' {
          out := out + [if p[1..] in params then params[p[1..]] else ""];
        } else if p == "*" {
          out := out + [if "*" in params then params["*"] else ""];
        } else {
          out := out + [p];
        }
        i := i + 1;
      }
      assert out == RouteUrls.Fill(parts, params);
      url := "/" + Join(out);
    }
  }
}
