/**
 Step-range selection: which steps of a job a --start-at / --stop-at pair keeps. The code walks the
 need graph and its reverse depth first; the kept steps turn out to be a graph interval.
 */
module StepRange {
  import opened Results
  import opened Reachability

  datatype StepSpec = StepSpec(id: string, needs: seq<string>, skipIf: nat)

  // ---------------------------------------------------------------- depth-first search

  /** What the search knows: reached nodes only, and every edge out of a seen node is accounted for. */
  ghost predicate Searching(edges: Edges, from: string, to: string, stack: seq<string>, seen: set<string>) {
    && (forall n :: n in stack ==> Reaches(edges, from, n))
    && (from in seen || from in stack)
    && to !in seen
    && (forall a, b :: a in seen && b in Successors(edges, a) ==> b in seen || b in stack)
  }

  lemma {:induction false} SearchVisit(edges: Edges, from: string, to: string, stack: seq<string>, seen: set<string>, n: string, stack': seq<string>)
    requires Searching(edges, from, to, stack, seen) && |stack| > 0 && n == stack[|stack| - 1] && n != to
    requires stack' == stack[..|stack| - 1] + (if n in seen then [] else Successors(edges, n))
    ensures Searching(edges, from, to, stack', seen + {n})
  {
    assert stack == stack[..|stack| - 1] + [n];
    forall m | m in stack'
      ensures Reaches(edges, from, m)
    {
      if m !in stack {
        ReachesEdge(edges, n, m);
        ReachesTransitive(edges, from, n, m);
      }
    }
  }

  lemma {:induction false} SearchExhausted(edges: Edges, from: string, to: string, seen: set<string>)
    requires Searching(edges, from, to, [], seen)
    ensures !Reaches(edges, from, to)
  {
    if Reaches(edges, from, to) {
      var p :| PathFromTo(edges, p, from, to);
      ClosedSetConfines(edges, seen, p);
    }
  }

  /** The iterative search answers reachability on any graph, cyclic or with dangling edges. */
  method ReachesBySearch(from: string, to: string, edges: Edges) returns (found: bool)
    ensures found <==> Reaches(edges, from, to)
  {
    var seen: set<string> := {};
    var stack := [from];
    ReachesSelf(edges, from);
    while |stack| > 0
      invariant Searching(edges, from, to, stack, seen)
      decreases |edges.Keys - seen|, |stack|
    {
      var n := stack[|stack| - 1];
      ghost var before := stack;
      assert n in before;
      stack := stack[..|stack| - 1];
      if n == to {
        return true;
      }
      SearchVisit(edges, from, to, before, seen, n, stack + if n in seen then [] else Successors(edges, n));
      if n !in seen {
        ghost var open := edges.Keys - seen;
        seen := seen + {n};
        assert edges.Keys - seen == open - {n};
        stack := stack + Successors(edges, n);
      } else {
        assert seen + {n} == seen && stack + [] == stack;
      }
    }
    SearchExhausted(edges, from, to, seen);
    return false;
  }

  // ---------------------------------------------------------------- the edge maps

  predicate UniqueIds(steps: seq<StepSpec>) {
    forall i, j :: 0 <= i < j < |steps| ==> steps[i].id != steps[j].id
  }

  /** `a` needs `b`. */
  ghost predicate NeedsEdge(steps: seq<StepSpec>, a: string, b: string) {
    exists i :: 0 <= i < |steps| && steps[i].id == a && b in steps[i].needs
  }

  ghost predicate IsParentMap(steps: seq<StepSpec>, parents: Edges) {
    && (forall id :: id in parents <==> exists i :: 0 <= i < |steps| && steps[i].id == id)
    && (forall i :: 0 <= i < |steps| ==> steps[i].id in parents && parents[steps[i].id] == steps[i].needs)
  }

  ghost predicate IsChildMap(steps: seq<StepSpec>, children: Edges) {
    forall a, b :: a in Successors(children, b) <==> NeedsEdge(steps, a, b)
  }

  method AddChild(children: Edges, needed: seq<string>, id: string) returns (r: Edges)
    ensures forall a, b :: a in Successors(r, b) <==> a in Successors(children, b) || (a == id && b in needed)
  {
    r := children;
    var k := 0;
    while k < |needed|
      invariant 0 <= k <= |needed|
      invariant forall a, b :: a in Successors(r, b) <==> a in Successors(children, b) || (a == id && b in needed[..k])
    {
      assert needed[..k + 1] == needed[..k] + [needed[k]];
      r := r[needed[k] := Successors(r, needed[k]) + [id]];
      k := k + 1;
    }
    assert needed[..k] == needed;
  }

  method EdgeMaps(steps: seq<StepSpec>) returns (parents: Edges, children: Edges)
    requires UniqueIds(steps)
    ensures IsParentMap(steps, parents) && IsChildMap(steps, children)
  {
    parents, children := map[], map[];
    var k := 0;
    while k < |steps|
      invariant 0 <= k <= |steps|
      invariant IsParentMap(steps[..k], parents) && IsChildMap(steps[..k], children)
    {
      var s := steps[k];
      ghost var done, next := steps[..k], steps[..k + 1];
      assert next == done + [s];
      ghost var parents0 := parents;
      parents := parents[s.id := s.needs];
      ParentsExtend(done, s, parents0);
      ghost var children0 := children;
      children := AddChild(children, s.needs, s.id);
      forall a, b
        ensures a in Successors(children, b) <==> NeedsEdge(next, a, b)
      {
        NeedsEdgeExtend(done, s, a, b);
        assert a in Successors(children0, b) <==> NeedsEdge(done, a, b);
      }
      k := k + 1;
    }
    assert steps[..k] == steps;
  }

  lemma {:induction false} ParentsExtend(done: seq<StepSpec>, s: StepSpec, parents: Edges)
    requires IsParentMap(done, parents) && UniqueIds(done + [s])
    ensures IsParentMap(done + [s], parents[s.id := s.needs])
  {
    var next := done + [s];
    var p := parents[s.id := s.needs];
    assert next[|done|] == s;
    forall i | 0 <= i < |next|
      ensures next[i].id in p && p[next[i].id] == next[i].needs
    {
      if i < |done| { assert next[i] == done[i] && next[i].id != next[|done|].id; }
    }
    forall id | id in p
      ensures exists i :: 0 <= i < |next| && next[i].id == id
    {
      if id != s.id {
        var i :| 0 <= i < |done| && done[i].id == id;
        assert next[i].id == id;
      }
    }
  }

  lemma {:induction false} NeedsEdgeExtend(done: seq<StepSpec>, s: StepSpec, a: string, b: string)
    ensures NeedsEdge(done + [s], a, b) <==> NeedsEdge(done, a, b) || (s.id == a && b in s.needs)
  {
    var next := done + [s];
    if NeedsEdge(done, a, b) {
      var i :| 0 <= i < |done| && done[i].id == a && b in done[i].needs;
      assert next[i].id == a;
    }
    if s.id == a && b in s.needs {
      assert next[|done|] == s;
    }
  }

  /** The two maps the code builds are each other's reverse. */
  lemma {:induction false} MapsAreReversed(steps: seq<StepSpec>, parents: Edges, children: Edges)
    requires IsParentMap(steps, parents) && IsChildMap(steps, children)
    ensures Reversed(parents, children)
  {
    forall a, b
      ensures b in Successors(parents, a) <==> a in Successors(children, b)
    {
      if b in Successors(parents, a) {
        var i :| 0 <= i < |steps| && steps[i].id == a;
        assert NeedsEdge(steps, a, b);
      }
      if NeedsEdge(steps, a, b) {
        var i :| 0 <= i < |steps| && steps[i].id == a && b in steps[i].needs;
      }
    }
  }

  // ---------------------------------------------------------------- selection

  /** The need graph as a map, the reference the statements below are about. */
  ghost function NeedGraph(steps: seq<StepSpec>): Edges {
    if steps == [] then map[] else NeedGraph(steps[..|steps| - 1])[steps[|steps| - 1].id := steps[|steps| - 1].needs]
  }

  lemma {:induction false} NeedGraphIsParentMap(steps: seq<StepSpec>)
    requires UniqueIds(steps)
    ensures IsParentMap(steps, NeedGraph(steps))
  {
    if steps != [] {
      var init, last := steps[..|steps| - 1], steps[|steps| - 1];
      NeedGraphIsParentMap(init);
      assert steps == init + [last];
      ParentsExtend(init, last, NeedGraph(init));
    }
  }

  lemma {:induction false} ParentMapIsUnique(steps: seq<StepSpec>, p: Edges, q: Edges)
    requires IsParentMap(steps, p) && IsParentMap(steps, q)
    ensures p == q
  {
    forall id
      ensures id in p <==> id in q
    {
      assert id in p <==> exists i :: 0 <= i < |steps| && steps[i].id == id;
    }
    forall id | id in p
      ensures p[id] == q[id]
    {
      var i :| 0 <= i < |steps| && steps[i].id == id;
    }
  }

  /** `a` is `b` or needs it, directly or through other steps. */
  ghost predicate DependsOn(steps: seq<StepSpec>, a: string, b: string) {
    Reaches(NeedGraph(steps), a, b)
  }

  ghost predicate Declared(steps: seq<StepSpec>, id: string) {
    exists i :: 0 <= i < |steps| && steps[i].id == id
  }

  /** A bound the job does not declare restricts nothing. */
  ghost predicate Kept(steps: seq<StepSpec>, startAt: string, stopAt: string, id: string) {
    && (Declared(steps, startAt) ==> DependsOn(steps, id, startAt))
    && (Declared(steps, stopAt) ==> DependsOn(steps, stopAt, id))
  }

  datatype SkipReason = UpstreamOfStart | DownstreamOfStop | OutsideRange

  function Reason(startAt: string, stopAt: string): SkipReason {
    if startAt != "" && stopAt != "" then OutsideRange
    else if stopAt != "" then DownstreamOfStop
    else UpstreamOfStart
  }

  /**
   The steps skipped are exactly those outside the interval: a kept step descends from the start
   (or is it) and the stop descends from the kept step (or is it).
   */
  method RangeSkips(steps: seq<StepSpec>, startAt: string, stopAt: string) returns (skips: map<string, SkipReason>)
    requires UniqueIds(steps)
    ensures forall id :: id in skips <==> Declared(steps, id) && !Kept(steps, startAt, stopAt, id)
    ensures forall id :: id in skips ==> skips[id] == Reason(startAt, stopAt)
    ensures forall id :: id in skips ==>
              && (skips[id] == OutsideRange <==> startAt != "" && stopAt != "")
              && (skips[id] == DownstreamOfStop <==> startAt == "" && stopAt != "")
  {
    var parents, children := EdgeMaps(steps);
    NeedGraphIsParentMap(steps);
    ParentMapIsUnique(steps, parents, NeedGraph(steps));
    MapsAreReversed(steps, parents, children);
    var hasStart, hasStop := startAt in parents, stopAt in parents;
    skips := map[];
    if !hasStart && !hasStop {
      return;
    }
    var k := 0;
    while k < |steps|
      invariant 0 <= k <= |steps|
      invariant forall id :: id in skips <==> Declared(steps[..k], id) && !Kept(steps, startAt, stopAt, id)
      invariant forall id :: id in skips ==> skips[id] == Reason(startAt, stopAt)
    {
      var id := steps[k].id;
      var fromStart, toStop := true, true;
      if hasStart {
        fromStart := ReachesBySearch(startAt, id, children);
        ReverseReaches(parents, children, id, startAt);
      }
      if fromStart && hasStop {
        toStop := ReachesBySearch(stopAt, id, parents);
      }
      assert (fromStart && toStop) <==> Kept(steps, startAt, stopAt, id);
      forall x
        ensures Declared(steps[..k + 1], x) <==> Declared(steps[..k], x) || x == id
      {
        DeclaredNext(steps, k, x);
      }
      if !fromStart || !toStop {
        skips := skips[id := Reason(startAt, stopAt)];
      }
      k := k + 1;
    }
    assert steps[..k] == steps;
  }

  lemma {:induction false} DeclaredNext(steps: seq<StepSpec>, k: nat, x: string)
    requires k < |steps|
    ensures Declared(steps[..k + 1], x) <==> Declared(steps[..k], x) || x == steps[k].id
  {
    var done, next := steps[..k], steps[..k + 1];
    if Declared(done, x) {
      var i :| 0 <= i < |done| && done[i].id == x;
      assert next[i].id == x;
    }
    assert next[k] == steps[k];
    if Declared(next, x) && x != steps[k].id {
      var i :| 0 <= i < |next| && next[i].id == x;
      assert done[i].id == x;
    }
  }

  // ---------------------------------------------------------------- the kept set is an interval

  /** A step between two kept steps along the needs is kept: the selection never leaves a hole. */
  lemma {:induction false} KeptIsConvex(steps: seq<StepSpec>, startAt: string, stopAt: string, a: string, b: string, c: string)
    requires Kept(steps, startAt, stopAt, a) && Kept(steps, startAt, stopAt, c)
    requires DependsOn(steps, c, b) && DependsOn(steps, b, a)
    ensures Kept(steps, startAt, stopAt, b)
  {
    var g := NeedGraph(steps);
    if Declared(steps, startAt) {
      ReachesTransitive(g, b, a, startAt);
    }
    if Declared(steps, stopAt) {
      ReachesTransitive(g, stopAt, c, b);
    }
  }

  /** With both bounds present something is kept exactly when the stop depends on the start. */
  lemma {:induction false} SomethingIsKept(steps: seq<StepSpec>, startAt: string, stopAt: string)
    requires Declared(steps, startAt) && Declared(steps, stopAt)
    ensures (exists id :: Declared(steps, id) && Kept(steps, startAt, stopAt, id)) <==> DependsOn(steps, stopAt, startAt)
  {
    var g := NeedGraph(steps);
    if exists id :: Declared(steps, id) && Kept(steps, startAt, stopAt, id) {
      var id :| Declared(steps, id) && Kept(steps, startAt, stopAt, id);
      ReachesTransitive(g, stopAt, id, startAt);
    }
    if DependsOn(steps, stopAt, startAt) {
      ReachesSelf(g, startAt);
      assert Kept(steps, startAt, stopAt, startAt);
    }
  }

  /** A declared bound keeps itself unless the other bound shuts it out. */
  lemma {:induction false} SingleBoundKeepsItself(steps: seq<StepSpec>, bound: string)
    requires Declared(steps, bound)
    ensures !Declared(steps, "") ==> Kept(steps, bound, "", bound) && Kept(steps, "", bound, bound)
  {
    ReachesSelf(NeedGraph(steps), bound);
  }

  /**
   The reason given can be wrong: with a start alone, a step that neither needs the start nor is needed
   by it is skipped too, and is called upstream of it.
   */
  lemma {:induction false} UnrelatedIsCalledUpstream(a: string, b: string) returns (steps: seq<StepSpec>)
    requires a != "" && a != b
    ensures UniqueIds(steps) && Declared(steps, a) && Declared(steps, b)
    ensures !Kept(steps, a, "", b) && Reason(a, "") == UpstreamOfStart && !DependsOn(steps, a, b)
  {
    steps := [StepSpec(a, [], 0), StepSpec(b, [], 0)];
    assert steps[0].id == a && steps[1].id == b;
    NoNeedsNoPath(steps, a, b);
    NoNeedsNoPath(steps, b, a);
  }

  lemma {:induction false} FirstEdge(g: Edges, p: seq<string>)
    requires IsPath(g, p) && |p| > 1
    ensures p[1] in Successors(g, p[0])
  {
  }

  lemma {:induction false} NoNeedsNoPath(steps: seq<StepSpec>, a: string, b: string)
    requires UniqueIds(steps) && a != b && forall i :: 0 <= i < |steps| ==> steps[i].needs == []
    ensures !DependsOn(steps, a, b)
  {
    var g := NeedGraph(steps);
    NeedGraphIsParentMap(steps);
    if a in g {
      var i :| 0 <= i < |steps| && steps[i].id == a;
      assert g[a] == steps[i].needs;
    }
    forall p | IsPath(g, p) && p[0] == a ensures |p| == 1 {
      if |p| > 1 { FirstEdge(g, p); }
    }
  }

  // ---------------------------------------------------------------- preview

  datatype Decision = WouldRun | MaySkip | WouldSkip(reason: SkipReason)

  ghost predicate Decides(steps: seq<StepSpec>, startAt: string, stopAt: string, s: StepSpec, d: Decision) {
    if Kept(steps, startAt, stopAt, s.id) then d == (if s.skipIf > 0 then MaySkip else WouldRun)
    else d == WouldSkip(Reason(startAt, stopAt))
  }

  /** The preview of one job: a decision per step, and the job is skipped when every step is. */
  method PreviewSteps(steps: seq<StepSpec>, startAt: string, stopAt: string)
    returns (decisions: seq<Decision>, jobSkipped: bool)
    requires UniqueIds(steps)
    ensures |decisions| == |steps|
    ensures forall i :: 0 <= i < |steps| ==> Decides(steps, startAt, stopAt, steps[i], decisions[i])
    ensures forall i :: 0 <= i < |steps| ==>
              && (decisions[i].WouldSkip? <==> !Kept(steps, startAt, stopAt, steps[i].id))
              && (decisions[i] == MaySkip <==> Kept(steps, startAt, stopAt, steps[i].id) && steps[i].skipIf > 0)
    ensures jobSkipped <==> |steps| > 0 && forall i :: 0 <= i < |steps| ==> !Kept(steps, startAt, stopAt, steps[i].id)
  {
    var ranged := RangeSkips(steps, startAt, stopAt);
    decisions := [];
    var skipped := 0;
    var k := 0;
    while k < |steps|
      invariant 0 <= k <= |steps| && |decisions| == k && 0 <= skipped <= k
      invariant forall i :: 0 <= i < k ==> Decides(steps, startAt, stopAt, steps[i], decisions[i])
      invariant skipped == k <==> forall i :: 0 <= i < k ==> !Kept(steps, startAt, stopAt, steps[i].id)
    {
      var s := steps[k];
      assert Declared(steps, s.id);
      if s.id in ranged {
        decisions := decisions + [WouldSkip(ranged[s.id])];
        skipped := skipped + 1;
      } else if s.skipIf > 0 {
        decisions := decisions + [MaySkip];
      } else {
        decisions := decisions + [WouldRun];
      }
      k := k + 1;
    }
    jobSkipped := skipped > 0 && skipped == |steps|;
  }
}
