/**
 Directed graphs given as adjacency lists, with reachability defined by explicit paths.
 The step graph of a job uses it twice: once for settlement checks, once for step ranges.
 */
module Reachability {

  type Edges = map<string, seq<string>>

  /** A missing key has no successors, as a lookup in a Go map yields the nil slice. */
  function Successors(edges: Edges, n: string): seq<string> {
    if n in edges then edges[n] else []
  }

  ghost predicate IsPath(edges: Edges, p: seq<string>) {
    && |p| > 0
    && forall i :: 0 <= i < |p| - 1 ==> p[i + 1] in Successors(edges, p[i])
  }

  ghost predicate PathFromTo(edges: Edges, p: seq<string>, a: string, b: string) {
    IsPath(edges, p) && p[0] == a && p[|p| - 1] == b
  }

  /** `b` is `a` or can be reached from it. */
  ghost predicate Reaches(edges: Edges, a: string, b: string) {
    exists p :: PathFromTo(edges, p, a, b)
  }

  /** `b` lies at least one edge behind `a`. */
  ghost predicate ReachesBeyond(edges: Edges, a: string, b: string) {
    exists n :: n in Successors(edges, a) && Reaches(edges, n, b)
  }

  ghost predicate ClosedUnder(edges: Edges, s: set<string>) {
    forall a, b :: a in s && b in Successors(edges, a) ==> b in s
  }

  /** `back` holds exactly the edges of `edges`, turned around. */
  ghost predicate Reversed(edges: Edges, back: Edges) {
    forall a, b :: b in Successors(edges, a) <==> a in Successors(back, b)
  }

  lemma {:induction false} ReachesSelf(edges: Edges, a: string)
    ensures Reaches(edges, a, a)
  {
    assert PathFromTo(edges, [a], a, a);
  }

  lemma {:induction false} ReachesTransitive(edges: Edges, a: string, b: string, c: string)
    requires Reaches(edges, a, b) && Reaches(edges, b, c)
    ensures Reaches(edges, a, c)
  {
    var p :| PathFromTo(edges, p, a, b);
    var q :| PathFromTo(edges, q, b, c);
    var r := p + q[1..];
    forall i | 0 <= i < |r| - 1
      ensures r[i + 1] in Successors(edges, r[i])
    {
      if i >= |p| - 1 {
        assert r[i] == q[i - (|p| - 1)] && r[i + 1] == q[i + 1 - (|p| - 1)];
      }
    }
    assert PathFromTo(edges, r, a, c);
  }

  lemma {:induction false} ReachesEdge(edges: Edges, a: string, b: string)
    requires b in Successors(edges, a)
    ensures Reaches(edges, a, b) && ReachesBeyond(edges, a, b)
  {
    assert PathFromTo(edges, [a, b], a, b);
    ReachesSelf(edges, b);
  }

  lemma {:induction false} ReachesBeyondThenReaches(edges: Edges, a: string, b: string, c: string)
    requires ReachesBeyond(edges, a, b) && Reaches(edges, b, c)
    ensures ReachesBeyond(edges, a, c)
  {
    var n :| n in Successors(edges, a) && Reaches(edges, n, b);
    ReachesTransitive(edges, n, b, c);
  }

  /** Nothing outside a closed set can be reached from inside it. */
  lemma {:induction false} ClosedSetConfines(edges: Edges, s: set<string>, p: seq<string>)
    requires ClosedUnder(edges, s) && IsPath(edges, p) && p[0] in s
    ensures p[|p| - 1] in s
    decreases |p|
  {
    if |p| > 1 {
      assert p[1] in Successors(edges, p[0]);
      forall i | 0 <= i < |p[1..]| - 1
        ensures p[1..][i + 1] in Successors(edges, p[1..][i])
      {
        assert p[i + 2] in Successors(edges, p[i + 1]);
      }
      ClosedSetConfines(edges, s, p[1..]);
    }
  }

  lemma {:induction false} ReversePath(edges: Edges, back: Edges, p: seq<string>, a: string, b: string)
    requires Reversed(edges, back) && PathFromTo(edges, p, a, b)
    ensures Reaches(back, b, a)
    decreases |p|
  {
    if |p| == 1 {
      ReachesSelf(back, a);
    } else {
      var q := p[..|p| - 1];
      var m := q[|q| - 1];
      assert p[|p| - 2 + 1] in Successors(edges, p[|p| - 2]);
      assert PathFromTo(edges, q, a, m) by {
        forall i | 0 <= i < |q| - 1 ensures q[i + 1] in Successors(edges, q[i]) {
          assert p[i + 1] in Successors(edges, p[i]);
        }
      }
      ReversePath(edges, back, q, a, m);
      ReachesEdge(back, b, m);
      ReachesTransitive(back, b, m, a);
    }
  }

  /** Reachability in the reversed graph is reachability backwards. */
  lemma {:induction false} ReverseReaches(edges: Edges, back: Edges, a: string, b: string)
    requires Reversed(edges, back)
    ensures Reaches(edges, a, b) <==> Reaches(back, b, a)
  {
    if Reaches(edges, a, b) {
      var p :| PathFromTo(edges, p, a, b);
      ReversePath(edges, back, p, a, b);
    }
    if Reaches(back, b, a) {
      var p :| PathFromTo(back, p, b, a);
      ReversePath(back, edges, p, b, a);
    }
  }
}
