/** What a callback's calls amount to: what each one leaves, and which arguments the finished plan shows. */
module CallbackLaws {
  import opened Results
  import opened ClosureIds
  import opened PlanModel
  import opened ClosureDispatch
  import opened Expansion
  import opened ExpansionLaws
  import opened ExpansionRuns

  // ---------------------------------------------------------------- what each call leaves

  /** A node as it was asked for: every modifier kept, not linked yet, without generators; a gate holds no work. */
  predicate MadeAs(m: Node, n: Node) {
    && m.id == n.id && m.needs == n.needs && m.onFailure == None && m.generators == []
    && m.skipIf == n.skipIf && m.beforeRun == n.beforeRun && m.afterRun == n.afterRun && m.verify == n.verify && m.memo == n.memo
    && m.approval == n.approval && m.cores == n.cores && m.settings == n.settings
    && (if n.approval then m.work == None && m.arguments == None else m.work == n.work && m.arguments == n.arguments)
  }

  /** A job is added exactly when its id is free, and not empty unless it is a gate; it is a root, under its id. */
  lemma {:induction false} AddJobExactly(base: nat, w: World, n: Node)
    ensures var r := Apply(base, w, AddJob(n));
            && (r.None? <==> n.id in w.plan.byID || (n.id == "" && !n.approval))
            && (r.Some? ==>
                  && r.value.heap[..|w.heap|] == w.heap && |r.value.heap| == |w.heap| + 1 && MadeAs(r.value.heap[|w.heap|], n)
                  && r.value.plan == w.plan.(nodes := w.plan.nodes + [|w.heap|], byID := r.value.plan.byID, jobArgs := r.value.plan.jobArgs)
                  && r.value.plan.byID == w.plan.byID[n.id := |w.heap|])
  {
  }

  /** A recovery is made for a node of the callback; it is linked from there and is no root. */
  lemma {:induction false} AddRecoveryExactly(base: nat, w: World, k: nat, n: Node)
    ensures var r := Apply(base, w, AddRecovery(k, n));
            && (r.None? <==> base + k >= |w.heap| || n.id == "" || n.approval)
            && (r.Some? ==>
                  && r.value.plan == w.plan && |r.value.heap| == |w.heap| + 1 && MadeAs(r.value.heap[|w.heap|], n)
                  && r.value.heap[base + k].onFailure == Some(|w.heap|)
                  && r.value.heap[base + k].(onFailure := w.heap[base + k].onFailure) == w.heap[base + k]
                  && forall i :: 0 <= i < |w.heap| && i != base + k ==> r.value.heap[i] == w.heap[i])
  {
  }

  /** A generator more, under the id of the next callback of its kind. */
  lemma {:induction false} AddGeneratorExactly(base: nat, w: World, k: nat)
    ensures var r := Apply(base, w, AddGenerator(k));
            && (r.None? <==> base + k >= |w.heap|)
            && (r.Some? ==>
                  && r.value.plan == w.plan && |r.value.heap| == |w.heap|
                  && (var n, m := w.heap[base + k], r.value.heap[base + k];
                      && m.generators == n.generators + [CallbackID(n.id, Generate(|n.generators|))]
                      && m.(generators := n.generators) == n)
                  && forall i :: 0 <= i < |w.heap| && i != base + k ==> r.value.heap[i] == w.heap[i])
  {
  }

  /** A need is there afterwards, once, behind those there were. */
  lemma {:induction false} AddNeedExactly(base: nat, w: World, k: nat, id: string)
    ensures var r := Apply(base, w, AddNeed(k, id));
            && (r.None? <==> base + k >= |w.heap|)
            && (r.Some? ==>
                  && r.value.plan == w.plan && |r.value.heap| == |w.heap|
                  && (var n, m := w.heap[base + k], r.value.heap[base + k];
                      && n.needs <= m.needs && id in m.needs && |m.needs| == |n.needs| + (if id in n.needs then 0 else 1)
                      && m.(needs := n.needs) == n)
                  && forall i :: 0 <= i < |w.heap| && i != base + k ==> r.value.heap[i] == w.heap[i])
  {
  }

  /** A group of the callback's nodes, behind the groups there were; empty and repeated names are not refused here. */
  lemma {:induction false} AddGroupExactly(base: nat, w: World, name: string, members: seq<nat>)
    ensures var r := Apply(base, w, AddGroup(name, members));
            && (r.Some? <==> forall i :: 0 <= i < |members| ==> base + members[i] < |w.heap|)
            && (r.Some? ==>
                  && r.value.heap == w.heap && |r.value.plan.groups| == |w.plan.groups| + 1
                  && r.value.plan.(groups := w.plan.groups) == w.plan && r.value.plan.groups[..|w.plan.groups|] == w.plan.groups
                  && (var g := r.value.plan.groups[|w.plan.groups|];
                      && g.name == name && |g.members| == |members|
                      && forall i :: 0 <= i < |members| ==> g.members[i] == base + members[i]))
  {
  }

  /** Calls are made in order, and a panic is the end: what was done before it stays done. */
  lemma {:induction false} RunStopsAtPanic(base: nat, w: World, before: seq<Call>, c: Call, after: seq<Call>)
    requires Run(base, w, before).ok
    ensures var m := Run(base, w, before).world;
            && (Apply(base, m, c).None? ==> Run(base, w, before + [c] + after) == Built(m, false))
            && (Apply(base, m, c).Some? ==> Run(base, w, before + [c] + after) == Run(base, Apply(base, m, c).value, after))
    decreases |before|
  {
    var all := before + [c] + after;
    if before == [] {
      assert all == [c] + after && all[1..] == after;
    } else {
      assert all[1..] == before[1..] + [c] + after;
      RunStopsAtPanic(base, Apply(base, w, before[0]).value, before[1..], c, after);
    }
  }

  // ---------------------------------------------------------------- the arguments a finished plan shows

  function ArgsFrom(h: Heap, refs: seq<Ref>): seq<ArgsDecl>
    requires InHeap(h, refs)
  {
    if refs == [] then [] else OwnArgs(h[refs[0]]) + ArgsFrom(h, refs[1..])
  }

  lemma {:induction false} ArgsFromAppend(h: Heap, a: seq<Ref>, b: seq<Ref>)
    requires InHeap(h, a) && InHeap(h, b)
    ensures InHeap(h, a + b) && ArgsFrom(h, a + b) == ArgsFrom(h, a) + ArgsFrom(h, b)
    decreases |a|
  {
    if a == [] {
      assert a + b == b;
    } else {
      assert (a + b)[0] == a[0] && (a + b)[1..] == a[1..] + b;
      ArgsFromAppend(h, a[1..], b);
    }
  }

  lemma {:induction false} ArgsFromSame(h: Heap, h': Heap, refs: seq<Ref>)
    requires InHeap(h, refs) && InHeap(h', refs)
    requires forall i :: 0 <= i < |refs| ==> OwnArgs(h'[refs[i]]) == OwnArgs(h[refs[i]])
    ensures ArgsFrom(h', refs) == ArgsFrom(h, refs)
    decreases |refs|
  {
    if refs != [] { ArgsFromSame(h, h', refs[1..]); }
  }

  /** While it is built, a plan has declared what its roots declare. */
  ghost predicate DeclaresRoots(w: World) {
    InHeap(w.heap, w.plan.nodes) && w.plan.jobArgs == ArgsFrom(w.heap, w.plan.nodes)
  }

  lemma {:induction false} CallKeepsOwnArgs(base: nat, w: World, c: Call)
    requires Apply(base, w, c).Some?
    ensures var h' := Apply(base, w, c).value.heap;
            |w.heap| <= |h'| && forall i :: 0 <= i < |w.heap| ==> OwnArgs(h'[i]) == OwnArgs(w.heap[i])
  {
  }

  lemma {:induction false} CallDeclaresRoots(base: nat, w: World, c: Call)
    requires DeclaresRoots(w) && Apply(base, w, c).Some?
    ensures DeclaresRoots(Apply(base, w, c).value)
  {
    var w' := Apply(base, w, c).value;
    CallKeepsOwnArgs(base, w, c);
    ArgsFromSame(w.heap, w'.heap, w.plan.nodes);
    if c.AddJob? {
      var made := [|w.heap|];
      ArgsFromAppend(w'.heap, w.plan.nodes, made);
      assert ArgsFrom(w'.heap, made) == OwnArgs(w'.heap[|w.heap|]) + ArgsFrom(w'.heap, made[1..]);
      assert made[1..] == [];
    }
  }

  lemma {:induction false} RunDeclaresRoots(base: nat, w: World, calls: seq<Call>)
    requires DeclaresRoots(w)
    ensures DeclaresRoots(Run(base, w, calls).world)
    decreases |calls|
  {
    if calls != [] && Apply(base, w, calls[0]).Some? {
      CallDeclaresRoots(base, w, calls[0]);
      RunDeclaresRoots(base, Apply(base, w, calls[0]).value, calls[1..]);
    }
  }

  /** The arguments a node was given, as its document shows them. */
  function OwnArguments(n: Node): seq<Argument> {
    if n.arguments.Some? then FieldArguments(n.arguments.value, n.id) else []
  }

  lemma {:induction false} OwnArgsAre(n: Node, id: string)
    ensures ArgumentsOf(OwnArgs(n), id) == if n.id == id then OwnArguments(n) else []
  {
    assert OwnArgs(n) != [] ==> OwnArgs(n)[1..] == [];
  }

  /** All that nodes of one id declare for it. */
  function Declared(h: Heap, refs: seq<Ref>, id: string): seq<Argument>
    requires InHeap(h, refs)
  {
    if refs == [] then [] else (if h[refs[0]].id == id then OwnArguments(h[refs[0]]) else []) + Declared(h, refs[1..], id)
  }

  lemma {:induction false} ArgsFromDeclare(h: Heap, refs: seq<Ref>, id: string)
    requires InHeap(h, refs)
    ensures ArgumentsOf(ArgsFrom(h, refs), id) == Declared(h, refs, id)
    decreases |refs|
  {
    if refs != [] {
      ArgumentsAppend(OwnArgs(h[refs[0]]), ArgsFrom(h, refs[1..]), id);
      OwnArgsAre(h[refs[0]], id);
      ArgsFromDeclare(h, refs[1..], id);
    }
  }

  lemma {:induction false} ChainArgsAre(h: Heap, start: Option<Ref>)
    requires WellLinked(h) && (start.Some? ==> start.value < |h|)
    ensures InHeap(h, Chain(h, start)) && ChainArgs(h, start) == ArgsFrom(h, Chain(h, start))
    decreases if start.Some? then |h| - start.value else 0
  {
    ChainIsIncreasing(h, start);
    if start.Some? {
      ChainArgsAre(h, h[start.value].onFailure);
      assert Chain(h, start)[1..] == Chain(h, h[start.value].onFailure);
    }
  }

  lemma {:induction false} DeclaredByNone(h: Heap, refs: seq<Ref>, id: string)
    requires InHeap(h, refs) && !IDAmong(h, refs, id)
    ensures Declared(h, refs, id) == []
    decreases |refs|
  {
    if refs != [] {
      assert h[refs[0]].id != id;
      assert forall i :: 0 <= i < |refs[1..]| ==> refs[1..][i] == refs[i + 1];
      DeclaredByNone(h, refs[1..], id);
    }
  }

  lemma {:induction false} DeclaredByOne(h: Heap, refs: seq<Ref>, k: nat)
    requires InHeap(h, refs) && k < |refs|
    requires forall i, j :: 0 <= i < j < |refs| ==> h[refs[i]].id != h[refs[j]].id
    ensures Declared(h, refs, h[refs[k]].id) == OwnArguments(h[refs[k]])
    decreases |refs|
  {
    var id, rest := h[refs[k]].id, refs[1..];
    assert forall i :: 0 <= i < |rest| ==> rest[i] == refs[i + 1];
    if k == 0 {
      assert !IDAmong(h, rest, id);
      DeclaredByNone(h, rest, id);
    } else {
      DeclaredByOne(h, rest, k - 1);
    }
  }

  lemma {:induction false} DeclaredAppend(h: Heap, a: seq<Ref>, b: seq<Ref>, id: string)
    requires InHeap(h, a) && InHeap(h, b)
    ensures InHeap(h, a + b) && Declared(h, a + b, id) == Declared(h, a, id) + Declared(h, b, id)
    decreases |a|
  {
    if a == [] {
      assert a + b == b;
    } else {
      assert (a + b)[0] == a[0] && (a + b)[1..] == a[1..] + b;
      DeclaredAppend(h, a[1..], b, id);
    }
  }

  /** What a finished plan has declared for an id: the roots' own first, then the recoveries'. */
  function Finished(h: Heap, roots: seq<Ref>, id: string): seq<Argument>
    requires WellLinked(h) && InHeap(h, roots)
  {
    Declared(h, roots, id) + ArgumentsOf(RecoveryArgs(h, roots), id)
  }

  ghost predicate DistinctIDs(h: Heap, refs: seq<Ref>)
    requires InHeap(h, refs)
  {
    forall i, j :: 0 <= i < j < |refs| ==> h[refs[i]].id != h[refs[j]].id
  }

  lemma {:induction false} FinishedCons(h: Heap, root: Ref, rest: seq<Ref>, id: string)
    requires WellLinked(h) && root < |h| && InHeap(h, rest)
    ensures var tail := Chain(h, h[root].onFailure);
            && InHeap(h, tail) && InHeap(h, Chain(h, Some(root))) && InHeap(h, [root] + rest)
            && Finished(h, [root] + rest, id)
               == (Declared(h, [root], id) + Declared(h, rest, id)) + (Declared(h, tail, id) + ArgumentsOf(RecoveryArgs(h, rest), id))
            && Declared(h, Chain(h, Some(root)), id) == Declared(h, [root], id) + Declared(h, tail, id)
  {
    var tail := Chain(h, h[root].onFailure);
    ChainIsIncreasing(h, Some(root));
    ChainArgsAre(h, h[root].onFailure);
    DeclaredAppend(h, [root], rest, id);
    assert ([root] + rest)[1..] == rest;
    ArgumentsAppend(ChainArgs(h, h[root].onFailure), RecoveryArgs(h, rest), id);
    ArgsFromDeclare(h, tail, id);
    DeclaredAppend(h, [root], tail, id);
  }

  lemma {:induction false} FinishedForNone(h: Heap, roots: seq<Ref>, id: string)
    requires WellLinked(h) && InHeap(h, roots) && InHeap(h, Members(h, roots)) && !IDAmong(h, Members(h, roots), id)
    ensures Finished(h, roots, id) == []
    decreases |roots|
  {
    if roots != [] {
      var root, rest := roots[0], roots[1..];
      assert roots == [root] + rest;
      FinishedCons(h, root, rest, id);
      MembersInHeap(h, rest);
      MembersCons(h, root, rest);
      NotAmongEither(h, Chain(h, Some(root)), Members(h, rest), id);
      DeclaredByNone(h, Chain(h, Some(root)), id);
      FinishedForNone(h, rest, id);
    }
  }

  lemma {:induction false} NotAmongEither(h: Heap, a: seq<Ref>, b: seq<Ref>, id: string)
    requires InHeap(h, a) && InHeap(h, b) && InHeap(h, a + b) && !IDAmong(h, a + b, id)
    ensures !IDAmong(h, a, id) && !IDAmong(h, b, id)
  {
    if IDAmong(h, a, id) || IDAmong(h, b, id) { IDAmongEither(h, a, b, id); }
  }

  lemma {:induction false} DistinctSplit(h: Heap, a: seq<Ref>, b: seq<Ref>)
    requires InHeap(h, a) && InHeap(h, b) && InHeap(h, a + b) && DistinctIDs(h, a + b)
    ensures DistinctIDs(h, a) && DistinctIDs(h, b)
    ensures forall i :: 0 <= i < |a| ==> !IDAmong(h, b, h[a[i]].id)
    ensures forall i :: 0 <= i < |b| ==> !IDAmong(h, a, h[b[i]].id)
  {
    var all := a + b;
    assert forall i :: 0 <= i < |a| ==> all[i] == a[i];
    assert forall i :: 0 <= i < |b| ==> all[|a| + i] == b[i];
  }

  /** Of four parts put together, two that are empty leave the others. */
  lemma {:induction false} TwoEmpty<T>(all: seq<T>, a: seq<T>, b: seq<T>, c: seq<T>, d: seq<T>)
    requires all == (a + b) + (c + d)
    ensures a + c == [] ==> all == b + d
    ensures b + d == [] ==> all == a + c
  {
    assert |a + c| == |a| + |c| && |b + d| == |b| + |d|;
    if a + c == [] { assert a == [] && c == []; }
    if b + d == [] { assert b == [] && d == []; }
  }

  lemma {:induction false} FinishedInFront(h: Heap, root: Ref, rest: seq<Ref>, chain: seq<Ref>, id: string)
    requires WellLinked(h) && root < |h| && InHeap(h, rest) && chain == Chain(h, Some(root)) && InHeap(h, chain) && InHeap(h, Members(h, rest))
    requires !IDAmong(h, Members(h, rest), id)
    ensures InHeap(h, [root] + rest) && Finished(h, [root] + rest, id) == Declared(h, chain, id)
  {
    FinishedCons(h, root, rest, id);
    FinishedForNone(h, rest, id);
    TwoEmpty(Finished(h, [root] + rest, id), Declared(h, [root], id), Declared(h, rest, id),
             Declared(h, Chain(h, h[root].onFailure), id), ArgumentsOf(RecoveryArgs(h, rest), id));
  }

  lemma {:induction false} FinishedBehind(h: Heap, root: Ref, rest: seq<Ref>, id: string)
    requires WellLinked(h) && root < |h| && InHeap(h, rest) && InHeap(h, Chain(h, Some(root))) && !IDAmong(h, Chain(h, Some(root)), id)
    ensures InHeap(h, [root] + rest) && Finished(h, [root] + rest, id) == Finished(h, rest, id)
  {
    FinishedCons(h, root, rest, id);
    DeclaredByNone(h, Chain(h, Some(root)), id);
    TwoEmpty(Finished(h, [root] + rest, id), Declared(h, [root], id), Declared(h, rest, id),
             Declared(h, Chain(h, h[root].onFailure), id), ArgumentsOf(RecoveryArgs(h, rest), id));
  }

  lemma {:induction false} FinishedEither(h: Heap, root: Ref, rest: seq<Ref>, chain: seq<Ref>, others: seq<Ref>, k: nat)
    requires WellLinked(h) && root < |h| && InHeap(h, rest) && chain == Chain(h, Some(root)) && others == Members(h, rest)
    requires InHeap(h, chain) && InHeap(h, others) && k < |chain + others| && InHeap(h, chain + others) && DistinctIDs(h, chain + others)
    requires k >= |chain| ==> Finished(h, rest, h[others[k - |chain|]].id) == OwnArguments(h[others[k - |chain|]])
    ensures InHeap(h, [root] + rest)
    ensures Finished(h, [root] + rest, h[(chain + others)[k]].id) == OwnArguments(h[(chain + others)[k]])
  {
    DistinctSplit(h, chain, others);
    if k < |chain| {
      assert (chain + others)[k] == chain[k];
      FinishedInFront(h, root, rest, chain, h[chain[k]].id);
      DeclaredByOne(h, chain, k);
    } else {
      assert (chain + others)[k] == others[k - |chain|];
      FinishedBehind(h, root, rest, h[others[k - |chain|]].id);
    }
  }

  /** With distinct ids every node, root or recovery, has declared exactly its own arguments. */
  lemma {:induction false} FinishedForOne(h: Heap, roots: seq<Ref>, members: seq<Ref>, k: nat)
    requires WellLinked(h) && InHeap(h, roots) && members == Members(h, roots) && InHeap(h, members) && DistinctIDs(h, members) && k < |members|
    ensures Finished(h, roots, h[members[k]].id) == OwnArguments(h[members[k]])
    decreases |roots|
  {
    var root, rest := roots[0], roots[1..];
    var chain, others := Chain(h, Some(root)), Members(h, rest);
    ChainIsIncreasing(h, Some(root));
    MembersInHeap(h, rest);
    assert members == chain + others && roots == [root] + rest;
    if k >= |chain| {
      OthersDistinct(h, chain, others);
      FinishedForOne(h, rest, others, k - |chain|);
    }
    FinishedEither(h, root, rest, chain, others, k);
  }

  lemma {:induction false} OthersDistinct(h: Heap, a: seq<Ref>, b: seq<Ref>)
    requires InHeap(h, b) && InHeap(h, a + b) && DistinctIDs(h, a + b)
    ensures DistinctIDs(h, b)
  {
    assert forall i :: 0 <= i < |b| ==> (a + b)[|a| + i] == b[i];
  }

  /** A plan whose declarations are those of its roots and then those of its recoveries. */
  ghost predicate DeclaresAll(q: Plan, h: Heap)
    requires WellLinked(h) && InHeap(h, q.nodes)
  {
    q.jobArgs == ArgsFrom(h, q.nodes) + RecoveryArgs(h, q.nodes)
  }

  /** Each document shows exactly the arguments of its own node, be it a root or a recovery. */
  lemma {:induction false} ShowsOwnArguments(q: Plan, h: Heap, i: nat)
    requires WellLinked(h) && InHeap(h, q.nodes) && DeclaresAll(q, h) && UniqueIDs(PlanJobs(q, h)) && i < |PlanJobs(q, h)|
    ensures InHeap(h, PlanMembers(q, h)) && |PlanMembers(q, h)| == |PlanJobs(q, h)|
    ensures PlanJobs(q, h)[i].arguments == OwnArguments(h[PlanMembers(q, h)[i]])
  {
    var members, docs := PlanMembers(q, h), PlanJobs(q, h);
    RootDocsRender(q.groups, q.jobArgs, h, q.nodes);
    var id := h[members[i]].id;
    forall j, k | 0 <= j < k < |members| ensures h[members[j]].id != h[members[k]].id {
      assert docs[j].id == h[members[j]].id && docs[k].id == h[members[k]].id;
    }
    ArgumentsAppend(ArgsFrom(h, q.nodes), RecoveryArgs(h, q.nodes), id);
    ArgsFromDeclare(h, q.nodes, id);
    FinishedForOne(h, q.nodes, members, i);
  }

  ghost predicate ShownArgument(docs: seq<JobSpec>, x: Argument) {
    exists i :: 0 <= i < |docs| && x in docs[i].arguments
  }

  lemma {:induction false} DocArgumentsAre(q: Plan, h: Heap, i: nat)
    requires WellLinked(h) && InHeap(h, q.nodes) && i < |PlanJobs(q, h)|
    ensures PlanJobs(q, h)[i].arguments == ArgumentsOf(q.jobArgs, PlanJobs(q, h)[i].id)
  {
    RootDocsRender(q.groups, q.jobArgs, h, q.nodes);
  }

  lemma {:induction false} ShownIsDeclared(q: Plan, h: Heap, x: Argument)
    requires WellLinked(h) && InHeap(h, q.nodes) && ShownArgument(PlanJobs(q, h), x)
    ensures DeclaresArgument(q.jobArgs, x.jobID, x)
  {
    var docs := PlanJobs(q, h);
    var i :| 0 <= i < |docs| && x in docs[i].arguments;
    DocArgumentsAre(q, h, i);
    ArgumentsExactly(q.jobArgs, docs[i].id, x);
  }

  lemma {:induction false} DeclaredIsShown(q: Plan, h: Heap, x: Argument)
    requires WellLinked(h) && InHeap(h, q.nodes) && DeclsShown(q, h) && DeclaresArgument(q.jobArgs, x.jobID, x)
    ensures ShownArgument(PlanJobs(q, h), x)
  {
    var docs := PlanJobs(q, h);
    var d, f :| d in q.jobArgs && d.jobID == x.jobID && f in d.fields && x == Argument(f, x.jobID);
    var k :| 0 <= k < |q.jobArgs| && q.jobArgs[k] == d;
    assert Shown(docs, d.jobID);
    var i :| 0 <= i < |docs| && docs[i].id == x.jobID;
    ArgumentsExactly(q.jobArgs, x.jobID, x);
    DocArgumentsAre(q, h, i);
  }

  /** The list of all declared arguments holds exactly those that some document shows. */
  lemma {:induction false} AllArgumentsShown(q: Plan, h: Heap, x: Argument)
    requires WellLinked(h) && InHeap(h, q.nodes) && DeclsShown(q, h)
    ensures x in AllArguments(q.jobArgs) <==> ShownArgument(PlanJobs(q, h), x)
  {
    AllArgumentsExactly(q.jobArgs, x);
    if x in AllArguments(q.jobArgs) { DeclaredIsShown(q, h, x); }
    if ShownArgument(PlanJobs(q, h), x) { ShownIsDeclared(q, h, x); }
  }

  lemma {:induction false} SameOwnArgs(base: nat, w: World, id: string, heap: Heap)
    requires Own(base, w) && heap == Needing(w, base, id) && DeclaresRoots(w)
    ensures InHeap(heap, w.plan.nodes) && w.plan.jobArgs == ArgsFrom(heap, w.plan.nodes)
  {
    ArgsFromSame(w.heap, heap, w.plan.nodes);
  }

  lemma {:induction false} BuildDeclaresRoots(h: Heap, calls: seq<Call>)
    requires WellLinked(h) && AllWellFormed(h)
    ensures DeclaresRoots(Build(h, calls).world)
  {
    RunDeclaresRoots(|h|, World(EMPTY_PLAN, h), calls);
  }

  /** The nodes behind the jobs an expansion adds, in the order of its document. */
  ghost function AddedNodes(p: Plan, h: Heap, source: Ref, calls: seq<Call>): seq<Node>
    requires Live(p, h) && source < |h|
  {
    var w := Build(h, calls).world;
    var heap := Needing(w, |h|, h[source].id);
    seq(|Members(heap, w.plan.nodes)|, i requires 0 <= i < |Members(heap, w.plan.nodes)| => heap[Members(heap, w.plan.nodes)[i]])
  }

  /** Every job of an expansion, recoveries included, shows exactly the arguments its own node was given. */
  lemma {:induction false} ExpansionShowsArguments(p: Plan, h: Heap, source: Ref, generator: string, a: Attempt, i: nat)
    requires Sound(p, h) && source < |h| && UniqueIDs(AddedBy(p, h, source, generator, a)) && i < |AddedBy(p, h, source, generator, a)|
    ensures |AddedNodes(p, h, source, a.calls)| == |AddedBy(p, h, source, generator, a)|
    ensures AddedBy(p, h, source, generator, a)[i].arguments == OwnArguments(AddedNodes(p, h, source, a.calls)[i])
  {
    var w := Build(h, a.calls).world;
    var heap := Needing(w, |h|, h[source].id);
    var q := Tagged(w.plan, heap, generator, JobGroups(p.groups, source));
    BuildDeclaresRoots(h, a.calls);
    SameOwnArgs(|h|, w, h[source].id, heap);
    ShowsOwnArguments(q, heap, i);
  }

  /** The same for a declared plan. */
  lemma {:induction false} PlannedShowsArguments(p: Plan, h: Heap, calls: seq<Call>, otherRules: bool, i: nat)
    requires Planned(p, h, calls, otherRules) && WellLinked(h) && InHeap(h, p.nodes) && i < |PlanJobs(p, h)|
    ensures InHeap(h, PlanMembers(p, h)) && |PlanMembers(p, h)| == |PlanJobs(p, h)|
    ensures PlanJobs(p, h)[i].arguments == OwnArguments(h[PlanMembers(p, h)[i]])
  {
    BuildDeclaresRoots([], calls);
    assert [] + PlanJobs(p, h) == PlanJobs(p, h);
    ShowsOwnArguments(p, h, i);
  }

  /** What an accepted expansion stores as its arguments is what its jobs show; other generators' stay. */
  lemma {:induction false} StoredArgumentsShown(p: Plan, h: Heap, source: Ref, generator: string, a: Attempt, x: Argument)
    requires Sound(p, h) && source < |h| && generator != "" && generator !in p.generated && Passes(p, h, source, generator, a)
    ensures var stored := Expand(p, h, source, generator, a).plan.generatedArguments;
            && generator in stored && (x in stored[generator] <==> ShownArgument(AddedBy(p, h, source, generator, a), x))
            && forall g :: g != generator ==> (g in stored <==> g in p.generatedArguments) && (g in stored ==> stored[g] == p.generatedArguments[g])
  {
    var w := Build(h, a.calls).world;
    var heap := Needing(w, |h|, h[source].id);
    var q := Tagged(w.plan, heap, generator, JobGroups(p.groups, source));
    GrownHeapSameJobs(p, h, heap);
    JobGroupsNonEmpty(p.groups, source);
    UniqueForHost(PlanJobs(p, heap), PlanJobs(q, heap), a.coresAccepted);
    SplitIDs(PlanJobs(p, heap), PlanJobs(q, heap), "");
    TaggedIsProposal(w, |h|, h[source].id, generator, JobGroups(p.groups, source), heap);
    AllArgumentsShown(q, heap, x);
  }
}
