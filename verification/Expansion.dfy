/**
 Generator expansion: a callback builds a plan of its own beside the live one, the plan is tagged with
 where it came from, checked, and merged as a whole or not at all.
 */
module Expansion {
  import opened Results
  import opened ClosureIds
  import opened PlanModel
  import opened ClosureDispatch

  // ---------------------------------------------------------------- building a plan

  datatype World = World(plan: Plan, heap: Heap)

  /** What a callback can do to the plan it is given. Node handles count the nodes it has made. */
  datatype Call =
    | AddJob(made: Node)
    | AddRecovery(failing: nat, made: Node)
    | AddGenerator(node: nat)
    | AddGroup(name: string, members: seq<nat>)
    | AddNeed(node: nat, need: string)

  /** A new node: what its modifiers set, without links and generators. Approval gates hold no work. */
  function Blank(n: Node): Node {
    n.(onFailure := None, generators := [],
       work := if n.approval then None else n.work,
       arguments := if n.approval then None else n.arguments)
  }

  function OwnArgs(n: Node): seq<ArgsDecl> {
    if n.arguments.Some? then [ArgsDecl(n.id, n.arguments.value)] else []
  }

  function WithNeed(n: Node, id: string): Node {
    if id in n.needs then n else n.(needs := n.needs + [id])
  }

  function WithGenerator(n: Node): Node {
    n.(generators := n.generators + [ClosureID(n.id, "generate", |n.generators|)])
  }

  function Shifted(base: nat, members: seq<nat>): (r: seq<Ref>)
    ensures |r| == |members| && forall i :: 0 <= i < |r| ==> r[i] == base + members[i]
  {
    seq(|members|, i requires 0 <= i < |members| => base + members[i])
  }

  /** One call; None where it panics. */
  function Apply(base: nat, w: World, c: Call): Option<World> {
    var p, h := w.plan, w.heap;
    match c
    case AddJob(n) => (
      if n.id in p.byID || (n.id == "" && !n.approval) then None else
        Some(World(
          p.(nodes := p.nodes + [|h|], byID := p.byID[n.id := |h|], jobArgs := p.jobArgs + OwnArgs(Blank(n))),
          h + [Blank(n)]))
    )
    case AddRecovery(k, n) => (
      if base + k >= |h| || n.id == "" || n.approval then None
      else Some(World(p, h[base + k := h[base + k].(onFailure := Some(|h|))] + [Blank(n)]))
    )
    case AddGenerator(k) => (
      if base + k >= |h| then None else Some(World(p, h[base + k := WithGenerator(h[base + k])]))
    )
    case AddGroup(name, members) => (
      if exists i :: 0 <= i < |members| && base + members[i] >= |h| then None
      else Some(World(p.(groups := p.groups + [Group(name, Shifted(base, members))]), h))
    )
    case AddNeed(k, id) => (
      if base + k >= |h| then None else Some(World(p, h[base + k := WithNeed(h[base + k], id)]))
    )
  }

  predicate InRange(low: nat, high: nat, refs: seq<Ref>) {
    forall i :: 0 <= i < |refs| ==> low <= refs[i] < high
  }

  predicate GroupsInRange(low: nat, high: nat, groups: seq<Group>) {
    forall i :: 0 <= i < |groups| ==> InRange(low, high, groups[i].members)
  }

  predicate DeclsIndexed(p: Plan) {
    forall i :: 0 <= i < |p.jobArgs| ==> p.jobArgs[i].jobID in p.byID
  }

  /** A plan under construction whose nodes all lie at or beyond base. */
  ghost predicate Own(base: nat, w: World) {
    && WellLinked(w.heap) && AllWellFormed(w.heap)
    && base <= |w.heap|
    && InRange(base, |w.heap|, w.plan.nodes)
    && Indexed(w.plan, w.heap)
    && GroupsInRange(base, |w.heap|, w.plan.groups)
    && DeclsIndexed(w.plan)
  }

  predicate Grows(base: nat, h: Heap, h': Heap) {
    && base <= |h| <= |h'|
    && forall r :: 0 <= r < base ==> h'[r] == h[r]
  }

  lemma {:induction false} ApplyJobIndexed(base: nat, w: World, n: Node)
    requires InHeap(w.heap, w.plan.nodes) && Indexed(w.plan, w.heap) && Apply(base, w, AddJob(n)).Some?
    ensures var w' := Apply(base, w, AddJob(n)).value;
            InHeap(w'.heap, w'.plan.nodes) && Indexed(w'.plan, w'.heap)
  {
    var w' := Apply(base, w, AddJob(n)).value;
    var nodes, nodes' := w.plan.nodes, w'.plan.nodes;
    forall id | id in w'.plan.byID ensures IDAmong(w'.heap, w'.plan.nodes, id) {
      if id == n.id {
        assert w'.heap[nodes'[|nodes|]].id == id;
      } else {
        assert IDAmong(w.heap, w.plan.nodes, id);
        var i :| 0 <= i < |nodes| && w.heap[nodes[i]].id == id;
        assert w'.heap[nodes'[i]].id == id;
      }
    }
  }

  lemma {:induction false} ApplyJobKeepsOwn(base: nat, w: World, n: Node)
    requires Own(base, w) && Apply(base, w, AddJob(n)).Some?
    ensures Own(base, Apply(base, w, AddJob(n)).value)
  {
    var w' := Apply(base, w, AddJob(n)).value;
    ApplyJobIndexed(base, w, n);
    forall i | 0 <= i < |w'.plan.jobArgs| ensures w'.plan.jobArgs[i].jobID in w'.plan.byID {
      if i < |w.plan.jobArgs| { assert w'.plan.jobArgs[i] == w.plan.jobArgs[i]; }
    }
  }

  /** The same plan over a heap where every node keeps its id. */
  lemma {:induction false} IndexedSameIDs(p: Plan, h: Heap, h': Heap)
    requires InHeap(h, p.nodes) && InHeap(h', p.nodes) && Indexed(p, h)
    requires forall i :: 0 <= i < |p.nodes| ==> h'[p.nodes[i]].id == h[p.nodes[i]].id
    ensures Indexed(p, h')
  {
    forall id | id in p.byID ensures IDAmong(h', p.nodes, id) {
      assert IDAmong(h, p.nodes, id);
      var i :| 0 <= i < |p.nodes| && h[p.nodes[i]].id == id;
      assert h'[p.nodes[i]].id == id;
    }
  }

  lemma {:induction false} ApplyNodeHeap(base: nat, w: World, c: Call)
    requires WellLinked(w.heap) && AllWellFormed(w.heap)
    requires (c.AddRecovery? || c.AddGenerator? || c.AddNeed?) && Apply(base, w, c).Some?
    ensures var h, w' := w.heap, Apply(base, w, c).value;
            && w'.plan == w.plan && WellLinked(w'.heap) && AllWellFormed(w'.heap) && |h| <= |w'.heap|
            && forall r :: 0 <= r < |h| ==> w'.heap[r].id == h[r].id
  {
  }

  lemma {:induction false} ApplyNodeKeepsOwn(base: nat, w: World, c: Call)
    requires Own(base, w) && (c.AddRecovery? || c.AddGenerator? || c.AddNeed?) && Apply(base, w, c).Some?
    ensures Own(base, Apply(base, w, c).value)
  {
    ApplyNodeHeap(base, w, c);
    IndexedSameIDs(w.plan, w.heap, Apply(base, w, c).value.heap);
  }

  lemma {:induction false} ApplyGroupKeepsOwn(base: nat, w: World, name: string, members: seq<nat>)
    requires Own(base, w) && Apply(base, w, AddGroup(name, members)).Some?
    ensures Own(base, Apply(base, w, AddGroup(name, members)).value)
  {
    var w' := Apply(base, w, AddGroup(name, members)).value;
    forall i | 0 <= i < |w'.plan.groups| ensures InRange(base, |w'.heap|, w'.plan.groups[i].members) {
      if i < |w.plan.groups| { assert w'.plan.groups[i] == w.plan.groups[i]; }
    }
    forall id | id in w'.plan.byID ensures IDAmong(w'.heap, w'.plan.nodes, id) {
      assert IDAmong(w.heap, w.plan.nodes, id);
    }
  }

  /** Whatever a callback calls, the nodes it did not make stay as they are. */
  lemma {:induction false} ApplyKeepsOwn(base: nat, w: World, c: Call)
    requires Own(base, w) && Apply(base, w, c).Some?
    ensures Own(base, Apply(base, w, c).value)
    ensures Grows(base, w.heap, Apply(base, w, c).value.heap)
  {
    match c
    case AddJob(n) => ApplyJobKeepsOwn(base, w, n);
    case AddGroup(name, members) => ApplyGroupKeepsOwn(base, w, name, members);
    case _ => ApplyNodeKeepsOwn(base, w, c);
  }

  datatype Built = Built(world: World, ok: bool)

  /** The calls in order, up to the first that panics. */
  function Run(base: nat, w: World, calls: seq<Call>): Built
    decreases |calls|
  {
    if calls == [] then Built(w, true) else
      var next := Apply(base, w, calls[0]);
      if next.None? then Built(w, false) else Run(base, next.value, calls[1..])
  }

  lemma {:induction false} RunKeepsOwn(base: nat, w: World, calls: seq<Call>)
    requires Own(base, w)
    ensures Own(base, Run(base, w, calls).world)
    ensures Grows(base, w.heap, Run(base, w, calls).world.heap)
    decreases |calls|
  {
    if calls != [] && Apply(base, w, calls[0]).Some? {
      ApplyKeepsOwn(base, w, calls[0]);
      RunKeepsOwn(base, Apply(base, w, calls[0]).value, calls[1..]);
    }
  }

  // ---------------------------------------------------------------- tagging what was built

  function WithNeeds(h: Heap, refs: seq<Ref>, id: string): Heap
    requires InHeap(h, refs)
    decreases |refs|
  {
    if refs == [] then h else WithNeeds(h[refs[0] := WithNeed(h[refs[0]], id)], refs[1..], id)
  }

  /** Each listed node needs the id now, and nothing else changed. */
  lemma {:induction false} WithNeedsExactly(h: Heap, refs: seq<Ref>, id: string)
    requires InHeap(h, refs)
    ensures |WithNeeds(h, refs, id)| == |h|
    ensures forall r :: 0 <= r < |h| ==> WithNeeds(h, refs, id)[r] == if r in refs then WithNeed(h[r], id) else h[r]
    decreases |refs|
  {
    if refs != [] {
      WithNeedsExactly(h[refs[0] := WithNeed(h[refs[0]], id)], refs[1..], id);
      assert forall r :: r in refs <==> r == refs[0] || r in refs[1..];
    }
  }

  function Inherited(names: seq<string>, members: seq<Ref>): (r: seq<Group>)
    ensures |r| == |names| && forall i :: 0 <= i < |r| ==> r[i] == Group(names[i], members)
  {
    seq(|names|, i requires 0 <= i < |names| => Group(names[i], members))
  }

  function ChainArgs(h: Heap, start: Option<Ref>): seq<ArgsDecl>
    requires WellLinked(h) && (start.Some? ==> start.value < |h|)
    decreases if start.Some? then |h| - start.value else 0
  {
    if start.None? then [] else OwnArgs(h[start.value]) + ChainArgs(h, h[start.value].onFailure)
  }

  /** What the recovery jobs declare. */
  function RecoveryArgs(h: Heap, roots: seq<Ref>): seq<ArgsDecl>
    requires WellLinked(h) && InHeap(h, roots)
  {
    if roots == [] then [] else ChainArgs(h, h[roots[0]].onFailure) + RecoveryArgs(h, roots[1..])
  }

  function WithRecoveryArgs(p: Plan, h: Heap): Plan
    requires WellLinked(h) && InHeap(h, p.nodes)
  {
    p.(jobArgs := p.jobArgs + RecoveryArgs(h, p.nodes))
  }

  /** The expansion in the groups of its generator and of its source. */
  function Tagged(e: Plan, h: Heap, generator: string, names: seq<string>): Plan
    requires WellLinked(h) && InHeap(h, e.nodes)
  {
    var members := Members(h, e.nodes);
    WithRecoveryArgs(e.(groups := e.groups + [Group(generator, members)] + Inherited(names, members)), h)
  }

  // ---------------------------------------------------------------- checking and merging

  /** For a host that cannot read core requests, they are left out. */
  function ForHost(accepts: bool, docs: seq<JobSpec>): (r: seq<JobSpec>)
    ensures |r| == |docs|
    ensures forall i :: 0 <= i < |r| ==> r[i] == if accepts then docs[i] else docs[i].(cores := None)
  {
    if accepts then docs else seq(|docs|, i requires 0 <= i < |docs| => docs[i].(cores := None))
  }

  predicate Distinct(names: seq<string>) {
    && (forall i :: 0 <= i < |names| ==> names[i] != "")
    && forall i, j :: 0 <= i < j < |names| ==> names[i] != names[j]
  }

  /** The identifier rules of plan validation; every other rule is the parameter. */
  predicate Accepts(existing: seq<JobSpec>, added: seq<JobSpec>, otherRules: bool) {
    && UniqueIDs(existing + added)
    && (forall i :: 0 <= i < |added| ==> added[i].id != "" && Distinct(added[i].needs) && Distinct(added[i].groups))
    && otherRules
  }

  /** What a generator's evaluation depends on besides the plan: the callback, and whether it returns an error. */
  datatype Attempt = Attempt(calls: seq<Call>, fails: bool, coresAccepted: bool, otherRules: bool)

  datatype Expanded = Expanded(plan: Plan, heap: Heap, jobs: Option<seq<JobSpec>>)

  ghost predicate Live(p: Plan, h: Heap) {
    && WellLinked(h) && AllWellFormed(h) && InHeap(h, p.nodes) && Indexed(p, h) && GroupsInRange(0, |h|, p.groups)
  }

  lemma {:induction false} NothingBuilt(h: Heap)
    requires WellLinked(h) && AllWellFormed(h)
    ensures Own(|h|, World(EMPTY_PLAN, h))
  {
  }

  ghost function Build(h: Heap, calls: seq<Call>): (b: Built)
    requires WellLinked(h) && AllWellFormed(h)
    ensures Own(|h|, b.world) && Grows(|h|, h, b.world.heap)
  {
    NothingBuilt(h);
    RunKeepsOwn(|h|, World(EMPTY_PLAN, h), calls);
    Run(|h|, World(EMPTY_PLAN, h), calls)
  }

  lemma {:induction false} SameLinks(h: Heap, h': Heap, roots: seq<Ref>)
    requires WellLinked(h) && InHeap(h, roots) && |h'| == |h|
    requires forall r :: 0 <= r < |h| ==> h'[r].onFailure == h[r].onFailure
    ensures WellLinked(h') && Members(h', roots) == Members(h, roots)
    decreases |roots|
  {
    if roots != [] {
      SameChain(h, h', Some(roots[0]));
      SameLinks(h, h', roots[1..]);
    }
  }

  lemma {:induction false} SameChain(h: Heap, h': Heap, start: Option<Ref>)
    requires WellLinked(h) && WellLinked(h') && (start.Some? ==> start.value < |h|) && |h'| == |h|
    requires forall r :: 0 <= r < |h| ==> h'[r].onFailure == h[r].onFailure
    ensures Chain(h', start) == Chain(h, start)
    decreases if start.Some? then |h| - start.value else 0
  {
    if start.Some? { SameChain(h, h', h[start.value].onFailure); }
  }

  /** The built nodes with their need of the source. */
  ghost function Needing(w: World, base: nat, id: string): (h: Heap)
    requires Own(base, w)
    ensures WellLinked(h) && AllWellFormed(h) && |h| == |w.heap| && Grows(base, w.heap, h)
    ensures Members(h, w.plan.nodes) == Members(w.heap, w.plan.nodes)
    ensures InHeap(h, Members(h, w.plan.nodes))
    ensures forall r :: 0 <= r < |h| ==> h[r] == if r in Members(h, w.plan.nodes) then WithNeed(w.heap[r], id) else w.heap[r]
  {
    var members := Members(w.heap, w.plan.nodes);
    MembersInHeap(w.heap, w.plan.nodes);
    WithNeedsExactly(w.heap, members, id);
    var h := WithNeeds(w.heap, members, id);
    SameLinks(w.heap, h, w.plan.nodes);
    MembersFrom(base, w.heap, w.plan.nodes);
    h
  }

  /** Members of a plan whose roots lie at or beyond base lie there too. */
  lemma {:induction false} MembersFrom(base: nat, h: Heap, roots: seq<Ref>)
    requires WellLinked(h) && InRange(base, |h|, roots)
    ensures InRange(base, |h|, Members(h, roots))
    decreases |roots|
  {
    if roots != [] {
      ChainIsIncreasing(h, Some(roots[0]));
      MembersFrom(base, h, roots[1..]);
    }
  }

  /** The whole evaluation of one generator of a source node. */
  ghost function Expand(p: Plan, h: Heap, source: Ref, generator: string, a: Attempt): Expanded
    requires Live(p, h) && source < |h|
  {
    if generator in p.generated then Expanded(p, h, Some(p.generated[generator])) else
      var built := Build(h, a.calls);
      if !built.ok || a.fails then Expanded(p, built.world.heap, None) else
        var heap := Needing(built.world, |h|, h[source].id);
        var e := Tagged(built.world.plan, heap, generator, JobGroups(p.groups, source));
        var jobs := ForHost(a.coresAccepted, PlanJobs(e, heap));
        if Accepts(PlanJobs(p, heap), jobs, a.otherRules)
        then Expanded(Merged(p, e, heap, generator, jobs), heap, Some(jobs))
        else Expanded(p, heap, None)
  }
}
