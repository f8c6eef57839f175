/** Splitting and joining URL paths (router/route.go). */
module Paths {
  /** The non-empty '/'-separated parts of `cur + path`, where `cur` is slash-free. */
  function Parts(path: string, cur: string): seq<string> {
    if path == [] then (if cur == [] then [] else [cur])
    else if path[0] == '/' then (if cur == [] then [] else [cur]) + Parts(path[1..], [])
    else Parts(path[1..], cur + [path[0]])
  }

  function Segments(path: string): seq<string> { Parts(path, []) }

  /** splitPath: one pass with the start of the current part. */
  method SplitPath(path: string) returns (result: seq<string>)
    ensures result == Segments(path)
  {
    result := [];
    var start, i := 0, 0;
    while i < |path|
      invariant 0 <= start <= i <= |path|
      invariant result + Parts(path[i..], path[start..i]) == Segments(path)
    {
      ghost var cur := path[start..i];
      assert path[i..][1..] == path[i + 1..];
      if path[i] == '/' {
        assert path[i + 1..i + 1] == [];
        if i > start {
          ghost var rest := Parts(path[i + 1..], []);
          assert result + ([cur] + rest) == (result + [cur]) + rest;
          result := result + [path[start..i]];
        } else {
          assert cur == [];
          assert [] + Parts(path[i + 1..], []) == Parts(path[i + 1..], []);
        }
        start := i + 1;
      } else {
        assert cur + [path[i]] == path[start..i + 1];
      }
      i := i + 1;
    }
    assert path[i..] == [];
    if start < |path| {
      assert path[start..i] == path[start..];
      result := result + [path[start..]];
    }
  }

  ghost predicate Plain(part: string) { part != [] && '/' !in part }

  lemma {:induction false} PartsPlain(path: string, cur: string)
    requires '/' !in cur
    ensures forall s :: s in Parts(path, cur) ==> Plain(s)
  {
    if path != [] {
      if path[0] == '/' { PartsPlain(path[1..], []); } else { PartsPlain(path[1..], cur + [path[0]]); }
    }
  }

  /** strings.Join(parts, "/"). */
  function Join(parts: seq<string>): string {
    if parts == [] then [] else if |parts| == 1 then parts[0] else parts[0] + ['/'] + Join(parts[1..])
  }

  lemma {:induction false} PartsOfPlain(s: string, rest: string, cur: string)
    requires '/' !in s
    ensures Parts(s + rest, cur) == Parts(rest, cur + s)
  {
    if s == [] {
      assert s + rest == rest && cur + s == cur;
    } else {
      assert (s + rest)[0] == s[0] && (s + rest)[1..] == s[1..] + rest;
      PartsOfPlain(s[1..], rest, cur + [s[0]]);
      assert cur + [s[0]] + s[1..] == cur + s;
    }
  }

  lemma {:induction false} SegmentsOfJoin(parts: seq<string>)
    requires forall s :: s in parts ==> Plain(s)
    ensures Segments(Join(parts)) == parts
  {
    if |parts| == 1 {
      assert Plain(parts[0]);
      PartsOfPlain(parts[0], [], []);
      assert parts[0] + [] == parts[0] && [] + parts[0] == parts[0];
    } else if |parts| > 1 {
      assert Plain(parts[0]);
      var rest := ['/'] + Join(parts[1..]);
      assert parts[0] + ['/'] + Join(parts[1..]) == parts[0] + rest;
      PartsOfPlain(parts[0], rest, []);
      assert [] + parts[0] == parts[0];
      assert rest[0] == '/' && rest[1..] == Join(parts[1..]);
      SegmentsOfJoin(parts[1..]);
      assert parts == [parts[0]] + parts[1..];
    }
  }

  /** Splitting undoes joining under a leading slash. */
  lemma SegmentsOfUrl(parts: seq<string>)
    requires forall s :: s in parts ==> Plain(s)
    ensures Segments("/" + Join(parts)) == parts
  {
    SegmentsOfJoin(parts);
    var url := "/" + Join(parts);
    assert url[0] == '/' && url[1..] == Join(parts);
  }
}
