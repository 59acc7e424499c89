/**
 A plan as a value, and what it renders to: jobs in declaration order, each followed by its recovery
 chain. Nodes live in an arena, as Go's heap holds them, and everything else refers to them by index.
 */
module PlanModel {
  import opened Results
  import opened ClosureIds

  type Ref = nat
  type Heap = seq<Node>

  /** A step of a job and the number of its skip predicates. */
  datatype Step = Step(id: string, skipIf: nat)

  datatype Field = Field(name: string, required: bool, secret: bool)

  /** What a node carries to its document unchanged. */
  datatype Settings = Settings(env: map<string, string>, labels: seq<string>, retry: Option<nat>, timeoutMS: Option<int>, inline: bool, optional: bool)

  datatype Node = Node(
    id: Bytes,
    needs: seq<string>,
    onFailure: Option<Ref>,
    generators: seq<string>,
    skipIf: nat,
    beforeRun: nat,
    afterRun: nat,
    verify: bool,
    memo: bool,
    approval: bool,
    work: Option<seq<Step>>,
    arguments: Option<seq<Field>>,
    cores: Option<nat>,
    settings: Settings)

  datatype Group = Group(name: string, members: seq<Ref>)

  datatype ArgsDecl = ArgsDecl(jobID: string, fields: seq<Field>)

  datatype Argument = Argument(field: Field, jobID: string)

  datatype Plan = Plan(
    nodes: seq<Ref>,
    byID: map<string, Ref>,
    groups: seq<Group>,
    jobArgs: seq<ArgsDecl>,
    generated: map<string, seq<JobSpec>>,
    generatedArguments: map<string, seq<Argument>>)

  const EMPTY_PLAN: Plan := Plan([], map[], [], [], map[], map[])

  // ---------------------------------------------------------------- documents

  datatype ClosureSpec = ClosureSpec(memoKey: string, verify: string, skipIf: seq<string>, beforeRun: seq<string>, afterRun: seq<string>, generate: seq<string>)

  datatype StepSpec = StepSpec(id: string, skipIf: seq<string>)

  datatype JobSpec = JobSpec(
    id: Bytes,
    needs: seq<string>,
    groups: seq<string>,
    arguments: seq<Argument>,
    onFailureOf: string,
    cores: Option<nat>,
    closures: ClosureSpec,
    approval: bool,
    steps: seq<StepSpec>,
    settings: Settings)

  function Numbered(id: Bytes, kind: string, n: nat): (r: seq<string>)
    ensures |r| == n && forall i :: 0 <= i < n ==> r[i] == ClosureID(id, kind, i)
  {
    seq(n, i requires 0 <= i < n => ClosureID(id, kind, i))
  }

  function ClosuresOf(n: Node): ClosureSpec {
    ClosureSpec(
      if n.memo then ClosureID(n.id, "memo", 0) else "",
      if n.verify then ClosureID(n.id, "verify", 0) else "",
      Numbered(n.id, "skip", n.skipIf),
      Numbered(n.id, "before", n.beforeRun),
      Numbered(n.id, "after", n.afterRun),
      n.generators)
  }

  function StepKind(step: string): string {
    "step/" + step + "/skip"
  }

  function StepDoc(id: Bytes, s: Step): StepSpec {
    StepSpec(s.id, Numbered(id, StepKind(s.id), s.skipIf))
  }

  function StepDocs(id: Bytes, steps: seq<Step>): (r: seq<StepSpec>)
    ensures |r| == |steps| && forall i :: 0 <= i < |r| ==> r[i] == StepDoc(id, steps[i])
  {
    seq(|steps|, i requires 0 <= i < |steps| => StepDoc(id, steps[i]))
  }

  /** The steps a document shows: approval gates show none. */
  function ShownSteps(n: Node): seq<Step> {
    if n.approval || n.work.None? then [] else n.work.value
  }

  /** A group's name, once for each time the node is a member; unnamed groups do not show. */
  function NamesFor(name: string, members: seq<Ref>, r: Ref): seq<string> {
    if members == [] then []
    else (if members[0] == r && name != "" then [name] else []) + NamesFor(name, members[1..], r)
  }

  function JobGroups(groups: seq<Group>, r: Ref): seq<string> {
    if groups == [] then [] else NamesFor(groups[0].name, groups[0].members, r) + JobGroups(groups[1..], r)
  }

  function FieldArguments(fields: seq<Field>, id: string): (r: seq<Argument>)
    ensures |r| == |fields| && forall i :: 0 <= i < |r| ==> r[i] == Argument(fields[i], id)
  {
    seq(|fields|, i requires 0 <= i < |fields| => Argument(fields[i], id))
  }

  function ArgumentsOf(decls: seq<ArgsDecl>, id: string): seq<Argument> {
    if decls == [] then []
    else (if decls[0].jobID == id then FieldArguments(decls[0].fields, id) else []) + ArgumentsOf(decls[1..], id)
  }

  /** The arguments of every declaration, as a plan describes them. */
  function AllArguments(decls: seq<ArgsDecl>): seq<Argument> {
    if decls == [] then [] else FieldArguments(decls[0].fields, decls[0].jobID) + AllArguments(decls[1..])
  }

  function JobDoc(n: Node, groups: seq<string>, arguments: seq<Argument>, parent: string): JobSpec {
    JobSpec(n.id, n.needs, groups, arguments, parent, n.cores, ClosuresOf(n), n.approval, StepDocs(n.id, ShownSteps(n)), n.settings)
  }

  // ---------------------------------------------------------------- recovery chains

  /** OnFailure links a node to one allocated after it. */
  predicate WellLinked(h: Heap) {
    forall r :: 0 <= r < |h| && h[r].onFailure.Some? ==> r < h[r].onFailure.value < |h|
  }

  predicate InHeap(h: Heap, refs: seq<Ref>) {
    forall i :: 0 <= i < |refs| ==> refs[i] < |h|
  }

  function Chain(h: Heap, start: Option<Ref>): seq<Ref>
    requires WellLinked(h) && (start.Some? ==> start.value < |h|)
    decreases if start.Some? then |h| - start.value else 0
  {
    if start.None? then [] else [start.value] + Chain(h, h[start.value].onFailure)
  }

  /** Every node a plan holds: its roots in order, each with its recoveries. */
  function Members(h: Heap, roots: seq<Ref>): seq<Ref>
    requires WellLinked(h) && InHeap(h, roots)
  {
    if roots == [] then [] else Chain(h, Some(roots[0])) + Members(h, roots[1..])
  }

  function ChainDocs(groups: seq<Group>, decls: seq<ArgsDecl>, h: Heap, start: Option<Ref>, parent: string): seq<JobSpec>
    requires WellLinked(h) && (start.Some? ==> start.value < |h|)
    decreases if start.Some? then |h| - start.value else 0
  {
    if start.None? then [] else
      var n := h[start.value];
      [JobDoc(n, JobGroups(groups, start.value), ArgumentsOf(decls, n.id), parent)]
      + ChainDocs(groups, decls, h, n.onFailure, n.id)
  }

  function RootDocs(groups: seq<Group>, decls: seq<ArgsDecl>, h: Heap, roots: seq<Ref>): seq<JobSpec>
    requires WellLinked(h) && InHeap(h, roots)
  {
    if roots == [] then []
    else ChainDocs(groups, decls, h, Some(roots[0]), "") + RootDocs(groups, decls, h, roots[1..])
  }

  /** The jobs of a plan's document. */
  function PlanJobs(p: Plan, h: Heap): seq<JobSpec>
    requires WellLinked(h) && InHeap(h, p.nodes)
  {
    RootDocs(p.groups, p.jobArgs, h, p.nodes)
  }

  function PlanMembers(p: Plan, h: Heap): seq<Ref>
    requires WellLinked(h) && InHeap(h, p.nodes)
  {
    Members(h, p.nodes)
  }

  /** A chain walks forward through the heap, so it visits no node twice. */
  lemma {:induction false} ChainIsIncreasing(h: Heap, start: Option<Ref>)
    requires WellLinked(h) && (start.Some? ==> start.value < |h|)
    ensures var c := Chain(h, start);
            && |c| <= |h|
            && (forall i :: 0 <= i < |c| ==> start.value <= c[i] < |h|)
            && (forall i, j :: 0 <= i < j < |c| ==> c[i] < c[j])
    ensures |Chain(h, start)| <= if start.Some? then |h| - start.value else 0
    decreases if start.Some? then |h| - start.value else 0
  {
    if start.Some? { ChainIsIncreasing(h, h[start.value].onFailure); }
  }

  lemma {:induction false} MembersInHeap(h: Heap, roots: seq<Ref>)
    requires WellLinked(h) && InHeap(h, roots)
    ensures InHeap(h, Members(h, roots))
    decreases |roots|
  {
    if roots != [] {
      ChainIsIncreasing(h, Some(roots[0]));
      MembersInHeap(h, roots[1..]);
    }
  }

  // ---------------------------------------------------------------- one document for each member

  /** Document i is the rendering of member i. */
  predicate Renders(groups: seq<Group>, decls: seq<ArgsDecl>, h: Heap, refs: seq<Ref>, docs: seq<JobSpec>)
    requires InHeap(h, refs)
  {
    && |docs| == |refs|
    && forall i :: 0 <= i < |docs| ==>
         docs[i] == JobDoc(h[refs[i]], JobGroups(groups, refs[i]), ArgumentsOf(decls, h[refs[i]].id), docs[i].onFailureOf)
  }

  lemma {:induction false} ChainDocsRender(groups: seq<Group>, decls: seq<ArgsDecl>, h: Heap, start: Option<Ref>, parent: string)
    requires WellLinked(h) && (start.Some? ==> start.value < |h|)
    ensures InHeap(h, Chain(h, start))
    ensures Renders(groups, decls, h, Chain(h, start), ChainDocs(groups, decls, h, start, parent))
    decreases if start.Some? then |h| - start.value else 0
  {
    ChainIsIncreasing(h, start);
    if start.Some? { ChainDocsRender(groups, decls, h, h[start.value].onFailure, h[start.value].id); }
  }

  lemma {:induction false} RootDocsRender(groups: seq<Group>, decls: seq<ArgsDecl>, h: Heap, roots: seq<Ref>)
    requires WellLinked(h) && InHeap(h, roots)
    ensures InHeap(h, Members(h, roots))
    ensures Renders(groups, decls, h, Members(h, roots), RootDocs(groups, decls, h, roots))
    decreases |roots|
  {
    MembersInHeap(h, roots);
    if roots != [] {
      ChainDocsRender(groups, decls, h, Some(roots[0]), "");
      RootDocsRender(groups, decls, h, roots[1..]);
    }
  }

  lemma {:induction false} MembersCons(h: Heap, root: Ref, roots: seq<Ref>)
    requires WellLinked(h) && root < |h| && InHeap(h, roots)
    ensures InHeap(h, [root] + roots) && Members(h, [root] + roots) == Chain(h, Some(root)) + Members(h, roots)
  {
    assert ([root] + roots)[1..] == roots;
  }

  lemma {:induction false} RootDocsCons(groups: seq<Group>, decls: seq<ArgsDecl>, h: Heap, root: Ref, roots: seq<Ref>)
    requires WellLinked(h) && root < |h| && InHeap(h, roots)
    ensures InHeap(h, [root] + roots)
    ensures RootDocs(groups, decls, h, [root] + roots) == ChainDocs(groups, decls, h, Some(root), "") + RootDocs(groups, decls, h, roots)
  {
    assert ([root] + roots)[1..] == roots;
  }

  lemma {:induction false} Associates<T>(all: seq<T>, head: seq<T>, tail: seq<T>, left: seq<T>, right: seq<T>, front: seq<T>)
    requires all == head + tail && tail == left + right && front == head + left
    ensures all == front + right
  {
  }

  lemma {:induction false} MembersAppend(h: Heap, a: seq<Ref>, b: seq<Ref>)
    requires WellLinked(h) && InHeap(h, a) && InHeap(h, b)
    ensures InHeap(h, a + b) && Members(h, a + b) == Members(h, a) + Members(h, b)
    decreases |a|
  {
    if a == [] {
      assert a + b == b;
    } else {
      var root, rest := a[0], a[1..];
      MembersAppend(h, rest, b);
      MembersCons(h, root, rest);
      MembersCons(h, root, rest + b);
      assert a == [root] + rest && a + b == [root] + (rest + b);
      Associates(Members(h, a + b), Chain(h, Some(root)), Members(h, rest + b), Members(h, rest), Members(h, b), Members(h, a));
    }
  }

  lemma {:induction false} RootDocsAppendStep(
    groups: seq<Group>, decls: seq<ArgsDecl>, h: Heap, root: Ref, rest: seq<Ref>, a: seq<Ref>, b: seq<Ref>, tail: seq<Ref>, all: seq<Ref>)
    requires WellLinked(h) && root < |h| && InHeap(h, rest) && InHeap(h, a) && InHeap(h, b) && InHeap(h, tail) && InHeap(h, all)
    requires a == [root] + rest && all == [root] + tail
    requires RootDocs(groups, decls, h, tail) == RootDocs(groups, decls, h, rest) + RootDocs(groups, decls, h, b)
    ensures RootDocs(groups, decls, h, all) == RootDocs(groups, decls, h, a) + RootDocs(groups, decls, h, b)
  {
    RootDocsCons(groups, decls, h, root, rest);
    RootDocsCons(groups, decls, h, root, tail);
    Associates(
      RootDocs(groups, decls, h, all), ChainDocs(groups, decls, h, Some(root), ""), RootDocs(groups, decls, h, tail),
      RootDocs(groups, decls, h, rest), RootDocs(groups, decls, h, b), RootDocs(groups, decls, h, a));
  }

  lemma {:induction false} RootDocsOfNone(groups: seq<Group>, decls: seq<ArgsDecl>, h: Heap, none: seq<Ref>, b: seq<Ref>)
    requires WellLinked(h) && InHeap(h, b) && InHeap(h, none) && none == []
    ensures RootDocs(groups, decls, h, b) == RootDocs(groups, decls, h, none) + RootDocs(groups, decls, h, b)
  {
  }

  /** all is a followed by b. */
  lemma {:induction false} RootDocsAppend(groups: seq<Group>, decls: seq<ArgsDecl>, h: Heap, a: seq<Ref>, b: seq<Ref>, all: seq<Ref>)
    requires WellLinked(h) && InHeap(h, a) && InHeap(h, b) && InHeap(h, all) && all == a + b
    ensures RootDocs(groups, decls, h, all) == RootDocs(groups, decls, h, a) + RootDocs(groups, decls, h, b)
    decreases |a|
  {
    if |a| == 0 {
      assert all == b;
      RootDocsOfNone(groups, decls, h, a, b);
    } else {
      var rest, tail := a[1..], all[1..];
      assert tail == rest + b && a == [a[0]] + rest && all == [a[0]] + tail;
      RootDocsAppend(groups, decls, h, rest, b, tail);
      RootDocsAppendStep(groups, decls, h, a[0], rest, a, b, tail, all);
    }
  }

  // ---------------------------------------------------------------- who recovers whom

  /** A chain's documents: the first names the parent given, each other one the node whose recovery it is. */
  predicate ChainLaid(h: Heap, start: Option<Ref>, parent: string, refs: seq<Ref>, docs: seq<JobSpec>)
    requires InHeap(h, refs)
  {
    && |docs| == |refs| && (start.Some? <==> refs != [])
    && (start.Some? ==> refs[0] == start.value && docs[0].onFailureOf == parent)
    && (forall i :: 0 < i < |refs| ==> h[refs[i - 1]].onFailure == Some(refs[i]) && docs[i].onFailureOf == h[refs[i - 1]].id)
    && (forall i :: 0 <= i < |refs| ==> (h[refs[i]].onFailure.None? <==> i + 1 == |refs|))
  }

  lemma {:induction false} ChainLaidCons(h: Heap, r: Ref, parent: string, doc: JobSpec, refs: seq<Ref>, docs: seq<JobSpec>)
    requires r < |h| && InHeap(h, refs) && doc.onFailureOf == parent && ChainLaid(h, h[r].onFailure, h[r].id, refs, docs)
    ensures InHeap(h, [r] + refs) && ChainLaid(h, Some(r), parent, [r] + refs, [doc] + docs)
  {
    var all := [r] + refs;
    forall i | 0 < i < |all|
      ensures h[all[i - 1]].onFailure == Some(all[i]) && ([doc] + docs)[i].onFailureOf == h[all[i - 1]].id
    {
      assert all[i] == refs[i - 1] && ([doc] + docs)[i] == docs[i - 1];
      if i > 1 { assert all[i - 1] == refs[i - 2]; }
    }
    forall i | 0 <= i < |all| ensures h[all[i]].onFailure.None? <==> i + 1 == |all| {
      if i > 0 { assert all[i] == refs[i - 1]; }
    }
  }

  lemma {:induction false} ChainLayout(groups: seq<Group>, decls: seq<ArgsDecl>, h: Heap, start: Option<Ref>, parent: string)
    requires WellLinked(h) && (start.Some? ==> start.value < |h|)
    ensures InHeap(h, Chain(h, start))
    ensures ChainLaid(h, start, parent, Chain(h, start), ChainDocs(groups, decls, h, start, parent))
    decreases if start.Some? then |h| - start.value else 0
  {
    ChainIsIncreasing(h, start);
    if start.Some? {
      var n := h[start.value];
      ChainLayout(groups, decls, h, n.onFailure, n.id);
      ChainLaidCons(
        h, start.value, parent, JobDoc(n, JobGroups(groups, start.value), ArgumentsOf(decls, n.id), parent),
        Chain(h, n.onFailure), ChainDocs(groups, decls, h, n.onFailure, n.id));
    }
  }

  /** Where member i stands: it is the root of its place, or the recovery of the member before it. */
  predicate LaidAt(h: Heap, starts: seq<nat>, refs: seq<Ref>, docs: seq<JobSpec>, i: nat)
    requires InHeap(h, refs) && |docs| == |refs| && i < |refs|
  {
    && (i in starts ==> docs[i].onFailureOf == "")
    && (i !in starts ==> i > 0 && h[refs[i - 1]].onFailure == Some(refs[i]) && docs[i].onFailureOf == h[refs[i - 1]].id)
    && (h[refs[i]].onFailure.None? <==> i + 1 == |refs| || i + 1 in starts)
  }

  /**
   The roots stand in order at the places `starts`, every other member is the recovery of the one
   before it and its document says so, and no recovery is missing.
   */
  predicate LaidOut(h: Heap, roots: seq<Ref>, starts: seq<nat>, refs: seq<Ref>, docs: seq<JobSpec>)
    requires InHeap(h, refs)
  {
    && |docs| == |refs| && |starts| == |roots|
    && (forall k :: 0 <= k < |starts| ==> starts[k] < |refs| && refs[starts[k]] == roots[k])
    && (forall k, l :: 0 <= k < l < |starts| ==> starts[k] < starts[l])
    && (forall i :: 0 <= i < |refs| ==> LaidAt(h, starts, refs, docs, i))
  }

  function Moved(starts: seq<nat>, n: nat): (r: seq<nat>)
    ensures |r| == |starts| && forall k :: 0 <= k < |r| ==> r[k] == starts[k] + n
  {
    seq(|starts|, k requires 0 <= k < |starts| => starts[k] + n)
  }

  lemma {:induction false} MovedIff(starts: seq<nat>, n: nat, i: nat)
    ensures i in Moved(starts, n) <==> i >= n && i - n in starts
  {
    var m := Moved(starts, n);
    if i in m {
      var k :| 0 <= k < |m| && m[k] == i;
      assert starts[k] == i - n;
    }
    if i >= n && i - n in starts {
      var k :| 0 <= k < |starts| && starts[k] == i - n;
      assert m[k] == i;
    }
  }

  /** A chain in front of a layout. */
  lemma {:induction false} LaidOutCons(
    h: Heap, root: Ref, refs: seq<Ref>, docs: seq<JobSpec>, roots: seq<Ref>, starts: seq<nat>, refs': seq<Ref>, docs': seq<JobSpec>)
    requires InHeap(h, refs) && InHeap(h, refs') && ChainLaid(h, Some(root), "", refs, docs) && LaidOut(h, roots, starts, refs', docs')
    requires roots == [] ==> refs' == []
    requires roots != [] ==> starts[0] == 0
    ensures InHeap(h, refs + refs') && LaidOut(h, [root] + roots, [0] + Moved(starts, |refs|), refs + refs', docs + docs')
  {
    var all, allDocs, places := refs + refs', docs + docs', [0] + Moved(starts, |refs|);
    PlacesCons(root, refs, roots, starts, refs');
    forall i | 0 <= i < |all| ensures LaidAt(h, places, all, allDocs, i) {
      LaidAtCons(h, root, refs, docs, roots, starts, refs', docs', i);
    }
  }

  lemma {:induction false} PlacesCons(root: Ref, refs: seq<Ref>, roots: seq<Ref>, starts: seq<nat>, refs': seq<Ref>)
    requires |refs| > 0 && refs[0] == root && |starts| == |roots|
    requires forall k :: 0 <= k < |starts| ==> starts[k] < |refs'| && refs'[starts[k]] == roots[k]
    requires forall k, l :: 0 <= k < l < |starts| ==> starts[k] < starts[l]
    ensures var places, all := [0] + Moved(starts, |refs|), refs + refs';
            && (forall k :: 0 <= k < |places| ==> places[k] < |all| && all[places[k]] == ([root] + roots)[k])
            && (forall k, l :: 0 <= k < l < |places| ==> places[k] < places[l])
  {
    var places, all := [0] + Moved(starts, |refs|), refs + refs';
    forall k | 0 <= k < |places| ensures places[k] < |all| && all[places[k]] == ([root] + roots)[k] {
      if k > 0 { assert places[k] == starts[k - 1] + |refs| && all[places[k]] == refs'[starts[k - 1]]; }
    }
    forall k, l | 0 <= k < l < |places| ensures places[k] < places[l] {
      assert places[l] == starts[l - 1] + |refs|;
      if k > 0 { assert places[k] == starts[k - 1] + |refs|; }
    }
  }

  lemma {:induction false} LaidAtCons(
    h: Heap, root: Ref, refs: seq<Ref>, docs: seq<JobSpec>, roots: seq<Ref>, starts: seq<nat>, refs': seq<Ref>, docs': seq<JobSpec>, i: nat)
    requires InHeap(h, refs) && InHeap(h, refs') && ChainLaid(h, Some(root), "", refs, docs) && LaidOut(h, roots, starts, refs', docs')
    requires (roots == [] ==> refs' == []) && (roots != [] ==> starts[0] == 0) && i < |refs| + |refs'|
    ensures InHeap(h, refs + refs') && LaidAt(h, [0] + Moved(starts, |refs|), refs + refs', docs + docs', i)
  {
    var n, all, allDocs, places := |refs|, refs + refs', docs + docs', [0] + Moved(starts, |refs|);
    MovedIff(starts, n, i);
    MovedIff(starts, n, i + 1);
    assert forall j: nat :: j in places <==> j == 0 || j in Moved(starts, n);
    if i < n {
      assert all[i] == refs[i] && allDocs[i] == docs[i];
      if i > 0 { assert all[i - 1] == refs[i - 1]; }
      if roots != [] { assert starts[0] in starts; }
    } else {
      var j := i - n;
      assert LaidAt(h, starts, refs', docs', j);
      assert all[i] == refs'[j] && allDocs[i] == docs'[j];
      if j > 0 { assert all[i - 1] == refs'[j - 1]; }
      if roots != [] { assert starts[0] in starts; }
    }
  }

  /** A plan's document: its roots in order, each followed by its recoveries, each naming the job it recovers. */
  lemma {:induction false} RootDocsLayout(groups: seq<Group>, decls: seq<ArgsDecl>, h: Heap, roots: seq<Ref>) returns (starts: seq<nat>)
    requires WellLinked(h) && InHeap(h, roots)
    ensures InHeap(h, Members(h, roots)) && LaidOut(h, roots, starts, Members(h, roots), RootDocs(groups, decls, h, roots))
    ensures roots != [] ==> starts[0] == 0
    decreases |roots|
  {
    MembersInHeap(h, roots);
    if roots == [] {
      starts := [];
    } else {
      var root, rest := roots[0], roots[1..];
      assert roots == [root] + rest;
      var places := RootDocsLayout(groups, decls, h, rest);
      var refs, docs := Chain(h, Some(root)), ChainDocs(groups, decls, h, Some(root), "");
      ChainLayout(groups, decls, h, Some(root), "");
      MembersCons(h, root, rest);
      RootDocsCons(groups, decls, h, root, rest);
      if rest == [] { assert Members(h, rest) == []; }
      LaidOutCons(h, root, refs, docs, rest, places, Members(h, rest), RootDocs(groups, decls, h, rest));
      starts := [0] + Moved(places, |refs|);
    }
  }

  // ---------------------------------------------------------------- reading a node back

  /** What a node keeps in its document: an approval gate shows no steps, and links and arguments stand elsewhere. */
  function ShownNode(n: Node): Node {
    n.(onFailure := None, arguments := None, work := Some(if n.approval || n.work.None? then [] else n.work.value))
  }

  function StepsRead(docs: seq<StepSpec>): (r: seq<Step>)
    ensures |r| == |docs| && forall i :: 0 <= i < |r| ==> r[i] == Step(docs[i].id, |docs[i].skipIf|)
  {
    seq(|docs|, i requires 0 <= i < |docs| => Step(docs[i].id, |docs[i].skipIf|))
  }

  /** The node a document was made from, as far as it shows. */
  function NodeOf(d: JobSpec): Node {
    Node(
      d.id, d.needs, None, d.closures.generate, |d.closures.skipIf|, |d.closures.beforeRun|, |d.closures.afterRun|,
      d.closures.verify != "", d.closures.memoKey != "", d.approval, Some(StepsRead(d.steps)), None, d.cores, d.settings)
  }

  /** Nothing else of a node is lost or mixed up in its document. */
  lemma {:induction false} DocReadsBack(n: Node, groups: seq<string>, arguments: seq<Argument>, parent: string)
    ensures var d := JobDoc(n, groups, arguments, parent);
            NodeOf(d) == ShownNode(n) && d.groups == groups && d.arguments == arguments && d.onFailureOf == parent
  {
    var d := JobDoc(n, groups, arguments, parent);
    assert |ClosureID(n.id, "memo", 0)| > 0 && |ClosureID(n.id, "verify", 0)| > 0;
    assert StepsRead(d.steps) == ShownNode(n).work.value;
  }

  // ---------------------------------------------------------------- groups and arguments

  predicate Names(g: Group, r: Ref, name: string) {
    g.name == name && name != "" && r in g.members
  }

  lemma {:induction false} NamesForIff(name: string, members: seq<Ref>, r: Ref, wanted: string)
    ensures wanted in NamesFor(name, members, r) <==> name == wanted && name != "" && r in members
    ensures NamesFor(name, members, r) == [] <==> name == "" || r !in members
    decreases |members|
  {
    if members != [] { NamesForIff(name, members[1..], r, wanted); }
  }

  /** A job shows a group's name exactly when a group of that name has it as a member. */
  lemma {:induction false} JobGroupsIff(groups: seq<Group>, r: Ref, name: string)
    ensures name in JobGroups(groups, r) <==> exists g :: g in groups && Names(g, r, name)
    decreases |groups|
  {
    if groups != [] {
      NamesForIff(groups[0].name, groups[0].members, r, name);
      JobGroupsIff(groups[1..], r, name);
      if name in NamesFor(groups[0].name, groups[0].members, r) { assert Names(groups[0], r, name); }
      assert forall g :: g in groups <==> g == groups[0] || g in groups[1..];
    }
  }

  lemma {:induction false} JobGroupsAppend(a: seq<Group>, b: seq<Group>, r: Ref)
    ensures JobGroups(a + b, r) == JobGroups(a, r) + JobGroups(b, r)
    decreases |a|
  {
    if a == [] {
      assert a + b == b;
    } else {
      assert (a + b)[0] == a[0] && (a + b)[1..] == a[1..] + b;
      JobGroupsAppend(a[1..], b, r);
    }
  }

  /** A node no named group holds. */
  predicate Ungrouped(groups: seq<Group>, r: Ref) {
    forall g :: g in groups && g.name != "" ==> r !in g.members
  }

  lemma {:induction false} UngroupedExactly(groups: seq<Group>, r: Ref)
    ensures JobGroups(groups, r) == [] <==> Ungrouped(groups, r)
    decreases |groups|
  {
    if groups != [] {
      NamesForIff(groups[0].name, groups[0].members, r, "");
      UngroupedExactly(groups[1..], r);
      assert forall g :: g in groups <==> g == groups[0] || g in groups[1..];
    }
  }

  ghost predicate DeclaresArgument(decls: seq<ArgsDecl>, id: string, x: Argument) {
    exists d, f :: d in decls && d.jobID == id && f in d.fields && x == Argument(f, id)
  }

  /** A job shows exactly the arguments some declaration makes for its id. */
  lemma {:induction false} ArgumentsExactly(decls: seq<ArgsDecl>, id: string, x: Argument)
    ensures x in ArgumentsOf(decls, id) <==> DeclaresArgument(decls, id, x)
    decreases |decls|
  {
    if decls != [] {
      var d, own := decls[0], FieldArguments(decls[0].fields, id);
      ArgumentsExactly(decls[1..], id, x);
      assert forall e :: e in decls <==> e == d || e in decls[1..];
      if x in own {
        var k :| 0 <= k < |own| && own[k] == x;
        assert d.fields[k] in d.fields;
      }
      if exists f :: f in d.fields && x == Argument(f, id) {
        var f :| f in d.fields && x == Argument(f, id);
        var k :| 0 <= k < |d.fields| && d.fields[k] == f;
        assert own[k] == x;
      }
      assert DeclaresArgument(decls, id, x) <==>
             DeclaresArgument(decls[1..], id, x) || (d.jobID == id && exists f :: f in d.fields && x == Argument(f, id));
    }
  }

  /** The description of a whole plan's arguments holds those of every id, and no others. */
  lemma {:induction false} AllArgumentsExactly(decls: seq<ArgsDecl>, x: Argument)
    ensures x in AllArguments(decls) <==> DeclaresArgument(decls, x.jobID, x)
    decreases |decls|
  {
    if decls != [] {
      var d, own := decls[0], FieldArguments(decls[0].fields, decls[0].jobID);
      AllArgumentsExactly(decls[1..], x);
      assert forall e :: e in decls <==> e == d || e in decls[1..];
      if x in own {
        var k :| 0 <= k < |own| && own[k] == x;
        assert d.fields[k] in d.fields;
      }
      if exists f :: f in d.fields && x == Argument(f, d.jobID) {
        var f :| f in d.fields && x == Argument(f, d.jobID);
        var k :| 0 <= k < |d.fields| && d.fields[k] == f;
        assert own[k] == x;
      }
      assert DeclaresArgument(decls, x.jobID, x) <==>
             DeclaresArgument(decls[1..], x.jobID, x) || (d.jobID == x.jobID && exists f :: f in d.fields && x == Argument(f, d.jobID));
    }
  }

  lemma {:induction false} ArgumentsAppend(a: seq<ArgsDecl>, b: seq<ArgsDecl>, id: string)
    ensures ArgumentsOf(a + b, id) == ArgumentsOf(a, id) + ArgumentsOf(b, id)
    decreases |a|
  {
    if a == [] {
      assert a + b == b;
    } else {
      assert (a + b)[0] == a[0] && (a + b)[1..] == a[1..] + b;
      ArgumentsAppend(a[1..], b, id);
    }
  }

  /** An id no declaration gives a field. */
  predicate Undeclared(decls: seq<ArgsDecl>, id: string) {
    forall d :: d in decls && d.fields != [] ==> d.jobID != id
  }

  lemma {:induction false} UndeclaredExactly(decls: seq<ArgsDecl>, id: string)
    ensures ArgumentsOf(decls, id) == [] <==> Undeclared(decls, id)
    decreases |decls|
  {
    if decls != [] {
      UndeclaredExactly(decls[1..], id);
      assert forall d :: d in decls <==> d == decls[0] || d in decls[1..];
    }
  }

  // ---------------------------------------------------------------- merging and rendering

  function RegisterRoots(byID: map<string, Ref>, h: Heap, roots: seq<Ref>): map<string, Ref>
    requires InHeap(h, roots)
    decreases |roots|
  {
    if roots == [] then byID else RegisterRoots(byID[h[roots[0]].id := roots[0]], h, roots[1..])
  }

  /** What an accepted expansion adds to the plan, under its generator's id. */
  function Merged(p: Plan, e: Plan, h: Heap, generator: string, jobs: seq<JobSpec>): Plan
    requires InHeap(h, e.nodes)
  {
    Plan(
      p.nodes + e.nodes,
      RegisterRoots(p.byID, h, e.nodes),
      p.groups + e.groups,
      p.jobArgs + e.jobArgs,
      p.generated[generator := jobs],
      p.generatedArguments[generator := AllArguments(e.jobArgs)])
  }

  /** No node is in a named group, or has arguments declared, by the other plan. */
  predicate Foreign(refs: seq<Ref>, h: Heap, groups: seq<Group>, decls: seq<ArgsDecl>)
    requires InHeap(h, refs)
  {
    forall i :: 0 <= i < |refs| ==> Ungrouped(groups, refs[i]) && Undeclared(decls, h[refs[i]].id)
  }

  predicate Separate(p: Plan, e: Plan, h: Heap)
    requires WellLinked(h) && InHeap(h, p.nodes) && InHeap(h, e.nodes)
  {
    MembersInHeap(h, p.nodes);
    MembersInHeap(h, e.nodes);
    && Foreign(PlanMembers(p, h), h, e.groups, e.jobArgs)
    && Foreign(PlanMembers(e, h), h, p.groups, p.jobArgs)
  }

  /** The chain part of the commuting square: more groups and declarations change a document only by what they say. */
  lemma {:induction false} ChainDocsUnchanged(
    groups: seq<Group>, decls: seq<ArgsDecl>, groups': seq<Group>, decls': seq<ArgsDecl>, h: Heap, start: Option<Ref>, parent: string)
    requires WellLinked(h) && (start.Some? ==> start.value < |h|)
    ensures InHeap(h, Chain(h, start))
    ensures ChainDocs(groups, decls, h, start, parent) == ChainDocs(groups', decls', h, start, parent)
            <==> SameAt(groups, decls, groups', decls', h, Chain(h, start))
    decreases if start.Some? then |h| - start.value else 0
  {
    ChainIsIncreasing(h, start);
    if start.Some? {
      var n := h[start.value];
      ChainDocsUnchanged(groups, decls, groups', decls', h, n.onFailure, n.id);
      SameAtCons(groups, decls, groups', decls', h, start.value, Chain(h, n.onFailure));
      ConsEqual(
        JobDoc(n, JobGroups(groups, start.value), ArgumentsOf(decls, n.id), parent), ChainDocs(groups, decls, h, n.onFailure, n.id),
        JobDoc(n, JobGroups(groups', start.value), ArgumentsOf(decls', n.id), parent), ChainDocs(groups', decls', h, n.onFailure, n.id));
    }
  }

  lemma {:induction false} ConsEqual<T>(x: T, xs: seq<T>, y: T, ys: seq<T>)
    ensures [x] + xs == [y] + ys <==> x == y && xs == ys
  {
    if [x] + xs == [y] + ys {
      assert x == ([x] + xs)[0] && y == ([y] + ys)[0];
      assert xs == ([x] + xs)[1..] && ys == ([y] + ys)[1..];
    }
  }

  lemma {:induction false} AppendEqual<T>(a: seq<T>, b: seq<T>, c: seq<T>, d: seq<T>)
    requires |a| == |c|
    ensures a + b == c + d <==> a == c && b == d
  {
    if a + b == c + d {
      assert a == (a + b)[..|a|] && c == (c + d)[..|a|];
      assert b == (a + b)[|a|..] && d == (c + d)[|a|..];
    }
  }

  predicate SameGroupsAndArguments(
    groups: seq<Group>, decls: seq<ArgsDecl>, groups': seq<Group>, decls': seq<ArgsDecl>, h: Heap, r: Ref)
    requires r < |h|
  {
    JobGroups(groups, r) == JobGroups(groups', r) && ArgumentsOf(decls, h[r].id) == ArgumentsOf(decls', h[r].id)
  }

  predicate SameAt(groups: seq<Group>, decls: seq<ArgsDecl>, groups': seq<Group>, decls': seq<ArgsDecl>, h: Heap, refs: seq<Ref>)
    requires InHeap(h, refs)
  {
    forall i :: 0 <= i < |refs| ==> SameGroupsAndArguments(groups, decls, groups', decls', h, refs[i])
  }

  lemma {:induction false} SameAtCons(
    groups: seq<Group>, decls: seq<ArgsDecl>, groups': seq<Group>, decls': seq<ArgsDecl>, h: Heap, r: Ref, refs: seq<Ref>)
    requires r < |h| && InHeap(h, refs)
    ensures SameAt(groups, decls, groups', decls', h, [r] + refs)
            <==> SameGroupsAndArguments(groups, decls, groups', decls', h, r) && SameAt(groups, decls, groups', decls', h, refs)
  {
    var all := [r] + refs;
    if SameAt(groups, decls, groups', decls', h, all) {
      assert all[0] == r;
      forall i | 0 <= i < |refs| ensures SameGroupsAndArguments(groups, decls, groups', decls', h, refs[i]) {
        assert all[i + 1] == refs[i];
      }
    }
  }

  lemma {:induction false} SameAtAppend(
    groups: seq<Group>, decls: seq<ArgsDecl>, groups': seq<Group>, decls': seq<ArgsDecl>, h: Heap, a: seq<Ref>, b: seq<Ref>)
    requires InHeap(h, a) && InHeap(h, b)
    ensures SameAt(groups, decls, groups', decls', h, a + b)
            <==> SameAt(groups, decls, groups', decls', h, a) && SameAt(groups, decls, groups', decls', h, b)
  {
    var all := a + b;
    if SameAt(groups, decls, groups', decls', h, all) {
      forall i | 0 <= i < |a| ensures SameGroupsAndArguments(groups, decls, groups', decls', h, a[i]) {
        assert all[i] == a[i];
      }
      forall i | 0 <= i < |b| ensures SameGroupsAndArguments(groups, decls, groups', decls', h, b[i]) {
        assert all[|a| + i] == b[i];
      }
    }
  }

  lemma {:induction false} ChainDocsLength(groups: seq<Group>, decls: seq<ArgsDecl>, h: Heap, start: Option<Ref>, parent: string)
    requires WellLinked(h) && (start.Some? ==> start.value < |h|)
    ensures |ChainDocs(groups, decls, h, start, parent)| == |Chain(h, start)|
    decreases if start.Some? then |h| - start.value else 0
  {
    if start.Some? { ChainDocsLength(groups, decls, h, h[start.value].onFailure, h[start.value].id); }
  }

  lemma {:induction false} RootDocsUnchanged(
    groups: seq<Group>, decls: seq<ArgsDecl>, groups': seq<Group>, decls': seq<ArgsDecl>, h: Heap, roots: seq<Ref>)
    requires WellLinked(h) && InHeap(h, roots)
    ensures InHeap(h, Members(h, roots))
    ensures RootDocs(groups, decls, h, roots) == RootDocs(groups', decls', h, roots)
            <==> SameAt(groups, decls, groups', decls', h, Members(h, roots))
    decreases |roots|
  {
    MembersInHeap(h, roots);
    if roots != [] {
      ChainDocsUnchanged(groups, decls, groups', decls', h, Some(roots[0]), "");
      RootDocsUnchanged(groups, decls, groups', decls', h, roots[1..]);
      SameAtAppend(groups, decls, groups', decls', h, Chain(h, Some(roots[0])), Members(h, roots[1..]));
      ChainDocsLength(groups, decls, h, Some(roots[0]), "");
      ChainDocsLength(groups', decls', h, Some(roots[0]), "");
      AppendEqual(
        ChainDocs(groups, decls, h, Some(roots[0]), ""), RootDocs(groups, decls, h, roots[1..]),
        ChainDocs(groups', decls', h, Some(roots[0]), ""), RootDocs(groups', decls', h, roots[1..]));
    }
  }

  lemma {:induction false} AppendIsSelf<T>(a: seq<T>, b: seq<T>)
    ensures a == a + b <==> b == []
    ensures b == a + b <==> a == []
  {
    assert |a + b| == |a| + |b|;
    assert a == [] ==> a + b == b;
    assert b == [] ==> a + b == a;
  }

  /** Adding groups and declarations behind leaves the documents alone exactly when they are foreign. */
  lemma {:induction false} SameAfterExactly(groups: seq<Group>, decls: seq<ArgsDecl>, more: seq<Group>, moreDecls: seq<ArgsDecl>, h: Heap, refs: seq<Ref>)
    requires InHeap(h, refs)
    ensures SameAt(groups, decls, groups + more, decls + moreDecls, h, refs) <==> Foreign(refs, h, more, moreDecls)
  {
    forall i | 0 <= i < |refs|
      ensures SameGroupsAndArguments(groups, decls, groups + more, decls + moreDecls, h, refs[i])
              <==> Ungrouped(more, refs[i]) && Undeclared(moreDecls, h[refs[i]].id)
    {
      OneSameAfter(groups, decls, more, moreDecls, h, refs[i]);
    }
  }

  lemma {:induction false} OneSameAfter(groups: seq<Group>, decls: seq<ArgsDecl>, more: seq<Group>, moreDecls: seq<ArgsDecl>, h: Heap, r: Ref)
    requires r < |h|
    ensures SameGroupsAndArguments(groups, decls, groups + more, decls + moreDecls, h, r)
            <==> Ungrouped(more, r) && Undeclared(moreDecls, h[r].id)
    ensures SameGroupsAndArguments(more, moreDecls, groups + more, decls + moreDecls, h, r)
            <==> Ungrouped(groups, r) && Undeclared(decls, h[r].id)
  {
    JobGroupsAppend(groups, more, r);
    ArgumentsAppend(decls, moreDecls, h[r].id);
    UngroupedExactly(more, r);
    UngroupedExactly(groups, r);
    UndeclaredExactly(moreDecls, h[r].id);
    UndeclaredExactly(decls, h[r].id);
    AppendIsSelf(JobGroups(groups, r), JobGroups(more, r));
    AppendIsSelf(ArgumentsOf(decls, h[r].id), ArgumentsOf(moreDecls, h[r].id));
  }

  lemma {:induction false} SameBeforeExactly(groups: seq<Group>, decls: seq<ArgsDecl>, more: seq<Group>, moreDecls: seq<ArgsDecl>, h: Heap, refs: seq<Ref>)
    requires InHeap(h, refs)
    ensures SameAt(more, moreDecls, groups + more, decls + moreDecls, h, refs) <==> Foreign(refs, h, groups, decls)
  {
    forall i | 0 <= i < |refs|
      ensures SameGroupsAndArguments(more, moreDecls, groups + more, decls + moreDecls, h, refs[i])
              <==> Ungrouped(groups, refs[i]) && Undeclared(decls, h[refs[i]].id)
    {
      OneSameAfter(groups, decls, more, moreDecls, h, refs[i]);
    }
  }

  /**
   Merging commutes with rendering: the merged plan's document is the plan's jobs followed by the
   expansion's, all unchanged, exactly when neither plan groups or declares arguments for a node of the other.
   */
  lemma {:induction false} MergeCommutesExactly(p: Plan, e: Plan, h: Heap, generator: string, jobs: seq<JobSpec>)
    requires WellLinked(h) && InHeap(h, p.nodes) && InHeap(h, e.nodes)
    ensures InHeap(h, Merged(p, e, h, generator, jobs).nodes)
    ensures PlanJobs(Merged(p, e, h, generator, jobs), h) == PlanJobs(p, h) + PlanJobs(e, h) <==> Separate(p, e, h)
  {
    var groups, decls := p.groups + e.groups, p.jobArgs + e.jobArgs;
    MembersInHeap(h, p.nodes);
    MembersInHeap(h, e.nodes);
    RootDocsAppend(groups, decls, h, p.nodes, e.nodes, p.nodes + e.nodes);
    RootDocsUnchanged(p.groups, p.jobArgs, groups, decls, h, p.nodes);
    RootDocsUnchanged(e.groups, e.jobArgs, groups, decls, h, e.nodes);
    SameAfterExactly(p.groups, p.jobArgs, e.groups, e.jobArgs, h, PlanMembers(p, h));
    SameBeforeExactly(p.groups, p.jobArgs, e.groups, e.jobArgs, h, PlanMembers(e, h));
    RootDocsRender(groups, decls, h, p.nodes);
    RootDocsRender(p.groups, p.jobArgs, h, p.nodes);
    AppendEqual(
      RootDocs(groups, decls, h, p.nodes), RootDocs(groups, decls, h, e.nodes),
      RootDocs(p.groups, p.jobArgs, h, p.nodes), RootDocs(e.groups, e.jobArgs, h, e.nodes));
  }
}
