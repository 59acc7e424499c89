/** A smallest plan with a generator, carried through two nested expansions: the conditions of the laws can be met. */
module GenerationExample {
  import opened Results
  import opened ClosureIds
  import opened PlanModel
  import opened ClosureDispatch
  import opened Expansion
  import opened ExpansionLaws
  import opened ExpansionRuns
  import opened Lineage

  function Plain(id: Bytes): Node {
    Node(id, [], None, [], 0, 0, 0, false, false, false, Some([Step("run", 0)]), None, None, Settings(map[], [], None, None, false, false))
  }

  /** A callback that declares one job with a generator of its own. */
  function OneJob(id: Bytes): seq<Call> {
    [AddJob(Plain(id)), AddGenerator(0)]
  }

  function OneAttempt(id: Bytes): Attempt {
    Attempt(OneJob(id), false, true, true)
  }

  function PlanOf(id: Bytes, r: Ref): Plan {
    Plan([r], map[id := r], [], [], map[], map[])
  }

  /** One root without recovery: its document. */
  lemma {:induction false} OneRoot(p: Plan, h: Heap, r: Ref)
    requires WellLinked(h) && p.nodes == [r] && r < |h| && h[r].onFailure == None
    ensures PlanMembers(p, h) == [r]
    ensures PlanJobs(p, h) == [JobDoc(h[r], JobGroups(p.groups, r), ArgumentsOf(p.jobArgs, h[r].id), "")]
  {
    var n := h[r];
    MembersCons(h, r, []);
    RootDocsCons(p.groups, p.jobArgs, h, r, []);
    assert [r] + [] == p.nodes;
    assert Members(h, []) == [] && Chain(h, None) == [] && Chain(h, Some(r)) == [r];
    assert RootDocs(p.groups, p.jobArgs, h, []) == [] && ChainDocs(p.groups, p.jobArgs, h, None, n.id) == [];
    assert ChainDocs(p.groups, p.jobArgs, h, Some(r), "") == [JobDoc(n, JobGroups(p.groups, r), ArgumentsOf(p.jobArgs, n.id), "")];
  }

  /** A plan of one job without recovery declares no more at the end. */
  lemma {:induction false} NoRecoveryArgs(p: Plan, h: Heap, r: Ref)
    requires WellLinked(h) && p.nodes == [r] && r < |h| && h[r].onFailure == None
    ensures WithRecoveryArgs(p, h) == p
  {
    assert p.nodes[1..] == [];
    assert ChainArgs(h, None) == [] && RecoveryArgs(h, []) == [];
    assert RecoveryArgs(h, p.nodes) == [];
    assert p.jobArgs + [] == p.jobArgs;
  }

  // ---------------------------------------------------------------- what the callback builds

  lemma {:induction false} FirstJob(base: nat, h: Heap, id: Bytes)
    requires id != ""
    ensures Apply(base, World(EMPTY_PLAN, h), AddJob(Plain(id))) == Some(World(PlanOf(id, |h|), h + [Plain(id)]))
  {
    var n := Plain(id);
    assert Blank(n) == n && OwnArgs(n) == [];
    assert EMPTY_PLAN.nodes + [|h|] == [|h|] && EMPTY_PLAN.byID[id := |h|] == map[id := |h|];
    assert EMPTY_PLAN.jobArgs + [] == [];
  }

  lemma {:induction false} ThenGenerator(h: Heap, id: Bytes)
    ensures Apply(|h|, World(PlanOf(id, |h|), h + [Plain(id)]), AddGenerator(0))
         == Some(World(PlanOf(id, |h|), h + [WithGenerator(Plain(id))]))
  {
    assert (h + [Plain(id)])[|h| := WithGenerator(Plain(id))] == h + [WithGenerator(Plain(id))];
  }

  lemma {:induction false} RunTwo(base: nat, w: World, c: Call, d: Call, w1: World, w2: World)
    requires Apply(base, w, c) == Some(w1) && Apply(base, w1, d) == Some(w2)
    ensures Run(base, w, [c, d]) == Built(w2, true)
  {
    assert [c, d][1..] == [d] && [d][1..] == [];
    assert Run(base, w2, []) == Built(w2, true);
    assert Run(base, w1, [d]) == Built(w2, true);
  }

  lemma {:induction false} BuildsOne(h: Heap, id: Bytes)
    requires WellLinked(h) && AllWellFormed(h) && id != ""
    ensures Build(h, OneJob(id)) == Built(World(PlanOf(id, |h|), h + [WithGenerator(Plain(id))]), true)
  {
    FirstJob(|h|, h, id);
    ThenGenerator(h, id);
    RunTwo(|h|, World(EMPTY_PLAN, h), AddJob(Plain(id)), AddGenerator(0),
           World(PlanOf(id, |h|), h + [Plain(id)]), World(PlanOf(id, |h|), h + [WithGenerator(Plain(id))]));
  }

  function Generated(id: Bytes, source: string): Node {
    WithNeed(WithGenerator(Plain(id)), source)
  }

  lemma {:induction false} NeedsOne(w: World, h: Heap, id: Bytes, source: string)
    requires w == World(PlanOf(id, |h|), h + [WithGenerator(Plain(id))]) && Own(|h|, w)
    ensures Needing(w, |h|, source) == h + [Generated(id, source)]
    ensures Members(Needing(w, |h|, source), [|h|]) == [|h|]
  {
    var heap := Needing(w, |h|, source);
    OneRoot(w.plan, heap, |h|);
    assert heap[|h|] == Generated(id, source);
    assert forall r :: 0 <= r < |h| ==> heap[r] == h[r];
  }

  function DocOf(id: Bytes, source: string, generator: string, names: seq<string>): JobSpec {
    JobDoc(Generated(id, source), [generator] + names, [], "")
  }

  function HeapOne(h: Heap, id: Bytes, source: string): Heap {
    h + [Generated(id, source)]
  }

  function PlanOne(id: Bytes, r: Ref, generator: string, names: seq<string>): Plan {
    PlanOf(id, r).(groups := [] + [Group(generator, [r])] + Inherited(names, [r]))
  }

  lemma {:induction false} RendersOne(heap: Heap, r: Ref, id: Bytes, source: string, generator: string, names: seq<string>)
    requires WellLinked(heap) && r < |heap| && heap[r] == Generated(id, source)
    requires generator != "" && NonEmptyNames(names)
    ensures PlanJobs(PlanOne(id, r, generator, names), heap) == [DocOf(id, source, generator, names)]
  {
    OneRoot(PlanOne(id, r, generator, names), heap, r);
    TaggedGroupsAre([], [r], generator, names, r);
    assert JobGroups([], r) + [generator] + names == [generator] + names;
    assert ArgumentsOf([], id) == [];
  }

  lemma {:induction false} TaggedOne(heap: Heap, r: Ref, id: Bytes, source: string, generator: string, names: seq<string>)
    requires WellLinked(heap) && r < |heap| && heap[r] == Generated(id, source) && Members(heap, [r]) == [r]
    ensures Tagged(PlanOf(id, r), heap, generator, names) == PlanOne(id, r, generator, names)
  {
    NoRecoveryArgs(PlanOne(id, r, generator, names), heap, r);
  }

  lemma {:induction false} AcceptsOne(existing: seq<JobSpec>, d: JobSpec)
    requires UniqueIDs(existing) && !Shown(existing, d.id) && d.id != "" && Distinct(d.needs) && Distinct(d.groups)
    ensures Accepts(existing, ForHost(true, [d]), true)
  {
    var all := existing + [d];
    forall i, j | 0 <= i < j < |all| ensures all[i].id != all[j].id {
      assert all[i] == existing[i];
    }
  }

  /** The whole of what the callback's plan becomes. */
  lemma {:induction false} BuiltOne(h: Heap, id: Bytes, source: string, generator: string, names: seq<string>)
    requires WellLinked(h) && AllWellFormed(h) && id != "" && generator != "" && NonEmptyNames(names)
    ensures var b := Build(h, OneJob(id));
            && b.ok && Needing(b.world, |h|, source) == HeapOne(h, id, source)
            && InHeap(HeapOne(h, id, source), b.world.plan.nodes)
            && Tagged(b.world.plan, HeapOne(h, id, source), generator, names) == PlanOne(id, |h|, generator, names)
            && PlanJobs(PlanOne(id, |h|, generator, names), HeapOne(h, id, source)) == [DocOf(id, source, generator, names)]
  {
    BuildsOne(h, id);
    NeedsOne(Build(h, OneJob(id)).world, h, id, source);
    TaggedOne(HeapOne(h, id, source), |h|, id, source, generator, names);
    RendersOne(HeapOne(h, id, source), |h|, id, source, generator, names);
  }

  // ---------------------------------------------------------------- one level

  function GeneratorOfJob(id: Bytes): string {
    ClosureID(id, "generate", 0)
  }

  /** A node that can generate: it stands in the plan, and its generator's group would be new to it. */
  ghost predicate Ready(s: State, r: Ref, id: Bytes) {
    && Sound(s.plan, s.heap) && r < |s.heap| && s.heap[r].id == id && |s.heap[r].generators| > 0
    && InHeap(s.heap, PlanMembers(s.plan, s.heap)) && Holds(s.heap, PlanMembers(s.plan, s.heap), r, id)
    && id != "" && GeneratorOfJob(id) !in s.plan.generated
    && Distinct([GeneratorOfJob(id)] + JobGroups(s.plan.groups, r))
  }

  /** The request that makes one job generate another. */
  function Generating(from: Bytes, to: Bytes): Request {
    Request(GeneratorOfJob(from), OneAttempt(to))
  }

  /** A ready node is the one its generator's closure leads to. */
  lemma {:induction false} LeadsToSource(s: State, r: Ref, id: Bytes)
    requires Ready(s, r, id)
    ensures ClosureJob(s.plan, s.heap, GeneratorOfJob(id)) == Some(r) && GeneratorOfJob(id) in s.heap[r].generators
    ensures GeneratorOfJob(id) != ""
  {
    assert WellFormed(s.heap[r]) && s.heap[r].generators[0] == GeneratorOfJob(id);
    assert NamesCallback(s.heap[r], GeneratorOfJob(id), Generate(0));
    ClosureJobFindsExactly(s.plan, s.heap, GeneratorOfJob(id), r);
    CallbackIDNotEmpty(id, Generate(0));
  }

  function After(s: State, r: Ref, from: Bytes, to: Bytes): State {
    var generator, names := GeneratorOfJob(from), JobGroups(s.plan.groups, r);
    var heap, doc := HeapOne(s.heap, to, from), DocOf(to, from, generator, names);
    State(Plan(s.plan.nodes + [|s.heap|], s.plan.byID[to := |s.heap|],
               s.plan.groups + ([] + [Group(generator, [|s.heap|])] + Inherited(names, [|s.heap|])),
               s.plan.jobArgs, s.plan.generated[generator := [doc]], s.plan.generatedArguments[generator := []]),
          heap, s.log + [Merge(generator, [doc])])
  }

  lemma {:induction false} MergedOne(p: Plan, heap: Heap, r: Ref, id: Bytes, source: string, generator: string, names: seq<string>, jobs: seq<JobSpec>)
    requires r < |heap| && heap[r] == Generated(id, source)
    ensures Merged(p, PlanOne(id, r, generator, names), heap, generator, jobs)
         == Plan(p.nodes + [r], p.byID[id := r], p.groups + ([] + [Group(generator, [r])] + Inherited(names, [r])), p.jobArgs,
                 p.generated[generator := jobs], p.generatedArguments[generator := []])
  {
    var byID := p.byID[id := r];
    assert [r][1..] == [] && RegisterRoots(byID, heap, []) == byID;
    assert RegisterRoots(p.byID, heap, [r]) == byID;
    assert p.jobArgs + [] == p.jobArgs;
  }

  lemma {:induction false} AddsOne(p: Plan, h: Heap, r: Ref, generator: string, to: Bytes)
    requires Live(p, h) && r < |h| && generator != "" && to != ""
    ensures var names := JobGroups(p.groups, r);
            && AddedBy(p, h, r, generator, OneAttempt(to)) == [DocOf(to, h[r].id, generator, names)]
            && Build(h, OneJob(to)).ok
  {
    JobGroupsNonEmpty(p.groups, r);
    BuiltOne(h, to, h[r].id, generator, JobGroups(p.groups, r));
  }

  /** What a ready node's generator adds, and that it is accepted. */
  lemma {:induction false} OneJobPasses(s: State, r: Ref, from: Bytes, to: Bytes)
    requires Ready(s, r, from) && to != "" && !Shown(PlanJobs(s.plan, s.heap), to)
    ensures var doc := DocOf(to, from, GeneratorOfJob(from), JobGroups(s.plan.groups, r));
            && AddedBy(s.plan, s.heap, r, GeneratorOfJob(from), OneAttempt(to)) == [doc]
            && Passes(s.plan, s.heap, r, GeneratorOfJob(from), OneAttempt(to))
  {
    LeadsToSource(s, r, from);
    AddsOne(s.plan, s.heap, r, GeneratorOfJob(from), to);
    AcceptsOne(PlanJobs(s.plan, s.heap), DocOf(to, from, GeneratorOfJob(from), JobGroups(s.plan.groups, r)));
  }

  lemma {:induction false} ForHostOfOne(d: JobSpec)
    ensures ForHost(true, [d]) == [d]
  {
  }

  /** The expansion itself, when validation accepts it. */
  lemma {:induction false} ExpandOne(p: Plan, h: Heap, r: Ref, generator: string, to: Bytes, doc: JobSpec)
    requires Sound(p, h) && r < |h| && generator != "" && to != "" && generator !in p.generated
    requires doc == DocOf(to, h[r].id, generator, JobGroups(p.groups, r)) && Accepts(PlanJobs(p, h), [doc], true)
    ensures Expand(p, h, r, generator, OneAttempt(to))
         == Expanded(Merged(p, PlanOne(to, |h|, generator, JobGroups(p.groups, r)), HeapOne(h, to, h[r].id), generator, [doc]),
                     HeapOne(h, to, h[r].id), Some([doc]))
  {
    JobGroupsNonEmpty(p.groups, r);
    BuiltOne(h, to, h[r].id, generator, JobGroups(p.groups, r));
    GrownHeapSameJobs(p, h, HeapOne(h, to, h[r].id));
    ForHostOfOne(doc);
  }

  lemma {:induction false} ExpandingIsAfter(s: State, r: Ref, from: Bytes, to: Bytes, doc: JobSpec)
    requires Sound(s.plan, s.heap) && r < |s.heap| && s.heap[r].id == from && to != ""
    requires GeneratorOfJob(from) != "" && GeneratorOfJob(from) !in s.plan.generated
    requires doc == DocOf(to, from, GeneratorOfJob(from), JobGroups(s.plan.groups, r)) && Accepts(PlanJobs(s.plan, s.heap), [doc], true)
    ensures Expanding(s, r, GeneratorOfJob(from), OneAttempt(to)) == After(s, r, from, to)
  {
    var generator, names := GeneratorOfJob(from), JobGroups(s.plan.groups, r);
    AddsOne(s.plan, s.heap, r, generator, to);
    ExpandOne(s.plan, s.heap, r, generator, to, doc);
    MergedOne(s.plan, HeapOne(s.heap, to, from), |s.heap|, to, from, generator, names, [doc]);
  }

  lemma {:induction false} EvalIsAfter(s: State, r: Ref, from: Bytes, to: Bytes)
    requires Ready(s, r, from) && to != "" && !Shown(PlanJobs(s.plan, s.heap), to)
    ensures Eval(s, Generating(from, to)) == After(s, r, from, to)
  {
    var doc := DocOf(to, from, GeneratorOfJob(from), JobGroups(s.plan.groups, r));
    LeadsToSource(s, r, from);
    AcceptsOne(PlanJobs(s.plan, s.heap), doc);
    ForHostOfOne(doc);
    ExpandingIsAfter(s, r, from, to, doc);
    EvalIsExpansion(s, Generating(from, to), r);
  }

  /** A node allocated later is in no group yet. */
  lemma {:induction false} NewNodeUngrouped(groups: seq<Group>, n: nat)
    requires GroupsInRange(0, n, groups)
    ensures JobGroups(groups, n) == []
  {
    forall g | g in groups && g.name != "" ensures n !in g.members {
      var k :| 0 <= k < |groups| && groups[k] == g;
      assert InRange(0, n, groups[k].members);
    }
    UngroupedExactly(groups, n);
  }

  lemma {:induction false} GroupsOfAdded(groups: seq<Group>, n: nat, generator: string, names: seq<string>)
    requires GroupsInRange(0, n, groups) && generator != "" && NonEmptyNames(names)
    ensures JobGroups(groups + ([] + [Group(generator, [n])] + Inherited(names, [n])), n) == [generator] + names
  {
    var added := [] + [Group(generator, [n])] + Inherited(names, [n]);
    JobGroupsAppend(groups, added, n);
    NewNodeUngrouped(groups, n);
    TaggedGroupsAre([], [n], generator, names, n);
    assert JobGroups([], n) + [generator] + names == [generator] + names;
  }

  lemma {:induction false} GroupsAfter(s: State, r: Ref, from: Bytes, to: Bytes)
    requires GroupsInRange(0, |s.heap|, s.plan.groups) && GeneratorOfJob(from) != ""
    ensures JobGroups(After(s, r, from, to).plan.groups, |s.heap|) == [GeneratorOfJob(from)] + JobGroups(s.plan.groups, r)
  {
    JobGroupsNonEmpty(s.plan.groups, r);
    GroupsOfAdded(s.plan.groups, |s.heap|, GeneratorOfJob(from), JobGroups(s.plan.groups, r));
  }

  lemma {:induction false} LastRootHeld(p: Plan, h: Heap, r: Ref)
    requires WellLinked(h) && InHeap(h, p.nodes) && |p.nodes| > 0 && p.nodes[|p.nodes| - 1] == r
    ensures r < |h| && InHeap(h, PlanMembers(p, h)) && Holds(h, PlanMembers(p, h), r, h[r].id)
  {
    var roots := p.nodes;
    RootIsMember(h, roots, |roots| - 1);
  }

  /** One level: the new job is shown behind, and is ready to generate itself. */
  lemma {:induction false} OneLevel(s: State, r: Ref, from: Bytes, to: Bytes)
    requires Ready(s, r, from) && to != "" && to != from && !Shown(PlanJobs(s.plan, s.heap), to)
    requires GeneratorOfJob(to) !in s.plan.generated && GeneratorOfJob(to) !in JobGroups(s.plan.groups, r)
    ensures var s', doc := After(s, r, from, to), DocOf(to, from, GeneratorOfJob(from), JobGroups(s.plan.groups, r));
            && Eval(s, Generating(from, to)) == s'
            && Sound(s'.plan, s'.heap) && PlanJobs(s'.plan, s'.heap) == PlanJobs(s.plan, s.heap) + [doc]
            && Ready(s', |s.heap|, to)
  {
    var s' := After(s, r, from, to);
    EvalIsAfter(s, r, from, to);
    LeadsToSource(s, r, from);
    OneJobPasses(s, r, from, to);
    EvalDecides(s, Generating(from, to));
    JobGroupsNonEmpty(s.plan.groups, r);
    GroupsAfter(s, r, from, to);
    LastRootHeld(s'.plan, s'.heap, |s.heap|);
    DistinctCons(GeneratorOfJob(to), [GeneratorOfJob(from)] + JobGroups(s.plan.groups, r));
    CallbackIDNotEmpty(to, Generate(0));
    if GeneratorOfJob(to) == GeneratorOfJob(from) { ClosureIDInjective(to, "generate", 0, from, "generate", 0); }
  }

  lemma {:induction false} DistinctCons(name: string, names: seq<string>)
    requires Distinct(names)
    ensures name != "" && name !in names ==> Distinct([name] + names)
  {
  }

  // ---------------------------------------------------------------- two levels

  /** The state before anything was generated: one job with one generator. */
  function Before(a: Bytes): State {
    State(PlanOf(a, 0), [WithGenerator(Plain(a))], [])
  }

  function FirstDoc(a: Bytes): JobSpec {
    JobDoc(WithGenerator(Plain(a)), [], [], "")
  }

  lemma {:induction false} BeforeRenders(a: Bytes)
    ensures WellLinked(Before(a).heap) && InHeap(Before(a).heap, Before(a).plan.nodes)
    ensures PlanJobs(Before(a).plan, Before(a).heap) == [FirstDoc(a)] && PlanMembers(Before(a).plan, Before(a).heap) == [0]
    ensures WithRecoveryArgs(Before(a).plan, Before(a).heap) == Before(a).plan
  {
    var p, h := Before(a).plan, Before(a).heap;
    NoRecoveryArgs(p, h, 0);
    OneRoot(p, h, 0);
    assert JobGroups([], 0) == [] && ArgumentsOf([], a) == [];
  }

  lemma {:induction false} BeforeIsPlanned(a: Bytes)
    requires a != ""
    ensures Planned(Before(a).plan, Before(a).heap, OneJob(a), true)
  {
    BeforeRenders(a);
    BuildsOne([], a);
    assert [] + [WithGenerator(Plain(a))] == Before(a).heap;
    assert [] + [FirstDoc(a)] == [FirstDoc(a)];
  }

  lemma {:induction false} BeforeIsReady(a: Bytes)
    requires a != ""
    ensures Valid([FirstDoc(a)], Before(a)) && Ready(Before(a), 0, a)
    ensures JobGroups(Before(a).plan.groups, 0) == [] && PlanJobs(Before(a).plan, Before(a).heap) == [FirstDoc(a)]
  {
    var s := Before(a);
    BeforeIsPlanned(a);
    BeforeRenders(a);
    PlannedIsValid(s.plan, s.heap, OneJob(a), true);
    CallbackIDNotEmpty(a, Generate(0));
    assert JobGroups([], 0) == [] && [GeneratorOfJob(a)] + [] == [GeneratorOfJob(a)];
    assert PlanMembers(s.plan, s.heap)[0] == 0;
  }

  lemma {:induction false} DifferentGenerators(a: Bytes, b: Bytes)
    ensures a != b ==> GeneratorOfJob(a) != GeneratorOfJob(b)
  {
    if GeneratorOfJob(a) == GeneratorOfJob(b) { ClosureIDInjective(a, "generate", 0, b, "generate", 0); }
  }

  lemma {:induction false} NotShownBeside(x: JobSpec, y: JobSpec, id: string)
    requires x.id != id && y.id != id
    ensures !Shown([x], id) && !Shown([x] + [y], id)
  {
  }

  lemma {:induction false} FirstState(a: Bytes, b: Bytes)
    requires JobGroups(Before(a).plan.groups, 0) == []
    ensures var s' := After(Before(a), 0, a, b);
            && s'.plan.generated.Keys == {GeneratorOfJob(a)}
            && s'.log == [Merge(GeneratorOfJob(a), [DocOf(b, a, GeneratorOfJob(a), [])])]
  {
  }

  /** The first of two generations. */
  lemma {:induction false} FirstLevel(a: Bytes, b: Bytes, s: State, s': State)
    requires a != "" && b != "" && a != b && s == Before(a) && s' == After(s, 0, a, b)
    ensures Sound(s.plan, s.heap) && Eval(s, Generating(a, b)) == s' && Ready(s', 1, b)
    ensures JobGroups(s'.plan.groups, 1) == [GeneratorOfJob(a)]
    ensures PlanJobs(s'.plan, s'.heap) == [FirstDoc(a)] + [DocOf(b, a, GeneratorOfJob(a), [])]
  {
    BeforeIsReady(a);
    NotShownBeside(FirstDoc(a), FirstDoc(a), b);
    OneLevel(s, 0, a, b);
    CallbackIDNotEmpty(a, Generate(0));
    GroupsAfter(s, 0, a, b);
    assert [GeneratorOfJob(a)] + [] == [GeneratorOfJob(a)];
  }

  /** The log of the two generations. */
  function Log(a: Bytes, b: Bytes, c: Bytes): seq<Merge> {
    var ga, gb := GeneratorOfJob(a), GeneratorOfJob(b);
    [Merge(ga, [DocOf(b, a, ga, [])])] + [Merge(gb, [DocOf(c, b, gb, [ga])])]
  }

  lemma {:induction false} SecondLevel(a: Bytes, b: Bytes, c: Bytes, s: State)
    requires c != "" && a != b && b != c && a != c && Ready(s, 1, b)
    requires JobGroups(s.plan.groups, 1) == [GeneratorOfJob(a)] && s.plan.generated.Keys == {GeneratorOfJob(a)}
    requires PlanJobs(s.plan, s.heap) == [FirstDoc(a)] + [DocOf(b, a, GeneratorOfJob(a), [])]
    requires s.log == [Merge(GeneratorOfJob(a), [DocOf(b, a, GeneratorOfJob(a), [])])]
    ensures Eval(s, Generating(b, c)).log == Log(a, b, c)
  {
    DifferentGenerators(a, c);
    NotShownBeside(FirstDoc(a), DocOf(b, a, GeneratorOfJob(a), []), c);
    EvalIsAfter(s, 1, b, c);
  }

  lemma {:induction false} ExecNext(initial: seq<JobSpec>, s: State, earlier: seq<Request>, q: Request)
    requires Valid(initial, s)
    ensures Exec(initial, s, earlier + [q]) == Eval(Exec(initial, s, earlier), q)
  {
    var all := earlier + [q];
    assert all[..|all| - 1] == earlier && all[|all| - 1] == q;
  }

  lemma {:induction false} ExecOne(initial: seq<JobSpec>, s: State, q: Request)
    requires Valid(initial, s)
    ensures Exec(initial, s, [q]) == Eval(s, q)
  {
    ExecNext(initial, s, [], q);
    assert [] + [q] == [q];
  }

  lemma {:induction false} ExecTwo(initial: seq<JobSpec>, s: State, q: Request, q': Request, s1: State, s2: State)
    requires Valid(initial, s) && s1 == Eval(s, q) && Sound(s1.plan, s1.heap) && s2 == Eval(s1, q')
    ensures Exec(initial, s, [q] + [q']) == s2
  {
    ExecOne(initial, s, q);
    ExecNext(initial, s, [q], q');
  }

  /** Nested generation happens: for any three ids a run of two requests ends with a path of two generations. */
  lemma {:induction false} GenerationNests(a: Bytes, b: Bytes, c: Bytes)
    requires a != "" && b != "" && c != "" && a != b && b != c && a != c
    ensures Valid([FirstDoc(a)], Before(a))
    ensures Exec([FirstDoc(a)], Before(a), [Generating(a, b)] + [Generating(b, c)]).log == Log(a, b, c)
    ensures GenerationPath([FirstDoc(a)], Log(a, b, c), [0, 1, 2], [GeneratorOfJob(a), GeneratorOfJob(b)])
  {
    BeforeIsReady(a);
    var s1 := After(Before(a), 0, a, b);
    FirstLevel(a, b, Before(a), s1);
    FirstState(a, b);
    SecondLevel(a, b, c, s1);
    ExecTwo([FirstDoc(a)], Before(a), Generating(a, b), Generating(b, c), s1, Eval(s1, Generating(b, c)));
    PathOfTwo(FirstDoc(a), DocOf(b, a, GeneratorOfJob(a), []), DocOf(c, b, GeneratorOfJob(b), [GeneratorOfJob(a)]),
              GeneratorOfJob(a), GeneratorOfJob(b));
  }

  lemma {:induction false} PathOfTwo(x: JobSpec, y: JobSpec, z: JobSpec, g: string, g': string)
    requires x.closures.generate == [g] && y.closures.generate == [g']
    ensures GenerationPath([x], [Merge(g, [y])] + [Merge(g', [z])], [0, 1, 2], [g, g'])
  {
    var m, m' := Merge(g, [y]), Merge(g', [z]);
    var log := [m] + [m'];
    AllDocsSnoc([x], [], m);
    AllDocsSnoc([x], [m], m');
    assert [] + [m] == [m] && log[..0] == [] && log[..1] == [m];
    assert AllDocs([x], log) == [x] + [y] + [z];
    assert InMerge([x], log, 0, 1) && InMerge([x], log, 1, 2);
    assert Generates([x], log, 0, g, 1) && Generates([x], log, 1, g', 2);
  }
}
