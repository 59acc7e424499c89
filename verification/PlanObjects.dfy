/** The plan object and the node arena behind it, each method proved against the plan as a value. */
module PlanObjects {
  import opened Results
  import opened ClosureIds
  import opened PlanModel
  import opened ClosureDispatch
  import opened Expansion
  import opened ExpansionLaws
  import opened ExpansionRuns
  import opened CallbackLaws

  /** The job nodes of the process. A reference is an index; nodes are never freed. */
  class NodeArena {
    var cells: Heap

    constructor ()
      ensures cells == []
    {
      cells := [];
    }

    method Allocate(n: Node) returns (r: Ref)
      modifies this
      ensures r == |old(cells)| && cells == old(cells) + [n]
    {
      r := |cells|;
      cells := cells + [n];
    }

    /** addNeed: a need is listed once. */
    method AddNeed(r: Ref, id: string)
      requires r < |cells|
      modifies this
      ensures cells == old(cells)[r := WithNeed(old(cells)[r], id)]
    {
      if id !in cells[r].needs { cells := cells[r := cells[r].(needs := cells[r].needs + [id])]; }
    }

    /** OnFailure: a fresh node becomes the recovery, whatever was linked before. */
    method OnFailure(r: Ref, n: Node) returns (recovery: Ref)
      requires r < |cells|
      modifies this
      ensures recovery == |old(cells)|
      ensures cells == old(cells)[r := old(cells)[r].(onFailure := Some(recovery))] + [Blank(n)]
    {
      recovery := Allocate(Blank(n));
      cells := cells[r := cells[r].(onFailure := Some(recovery))];
    }

    method Generate(r: Ref) returns (id: string)
      requires r < |cells|
      modifies this
      ensures cells == old(cells)[r := WithGenerator(old(cells)[r])]
      ensures id == ClosureID(old(cells)[r].id, "generate", |old(cells)[r].generators|)
    {
      id := ClosureID(cells[r].id, "generate", |cells[r].generators|);
      cells := cells[r := cells[r].(generators := cells[r].generators + [id])];
    }
  }

  lemma {:induction false} RootDocsSnoc(groups: seq<Group>, decls: seq<ArgsDecl>, h: Heap, roots: seq<Ref>, i: nat)
    requires WellLinked(h) && InHeap(h, roots) && i < |roots|
    ensures RootDocs(groups, decls, h, roots[..i + 1]) == RootDocs(groups, decls, h, roots[..i]) + ChainDocs(groups, decls, h, Some(roots[i]), "")
  {
    RootDocsAppend(groups, decls, h, roots[..i], [roots[i]], roots[..i + 1]);
  }

  lemma {:induction false} MembersSnoc(h: Heap, roots: seq<Ref>, i: nat)
    requires WellLinked(h) && InHeap(h, roots) && i < |roots|
    ensures Members(h, roots[..i + 1]) == Members(h, roots[..i]) + Chain(h, Some(roots[i]))
  {
    MembersAppend(h, roots[..i], [roots[i]]);
    assert roots[..i] + [roots[i]] == roots[..i + 1];
  }

  lemma {:induction false} NamesForSnoc(name: string, members: seq<Ref>, r: Ref, i: nat)
    requires i < |members|
    ensures NamesFor(name, members[..i + 1], r) == NamesFor(name, members[..i], r) + (if members[i] == r && name != "" then [name] else [])
    decreases i
  {
    if i == 0 {
      assert members[..1] == [members[0]];
    } else {
      assert members[..i + 1][1..] == members[1..][..i] && members[..i][1..] == members[1..][..i - 1];
      NamesForSnoc(name, members[1..], r, i - 1);
    }
  }

  lemma {:induction false} JobGroupsSnoc(groups: seq<Group>, r: Ref, i: nat)
    requires i < |groups|
    ensures JobGroups(groups[..i + 1], r) == JobGroups(groups[..i], r) + NamesFor(groups[i].name, groups[i].members, r)
  {
    JobGroupsAppend(groups[..i], [groups[i]], r);
    assert groups[..i] + [groups[i]] == groups[..i + 1];
    assert JobGroups([groups[i]], r) == NamesFor(groups[i].name, groups[i].members, r) + JobGroups([], r);
  }

  lemma {:induction false} ArgumentsSnoc(decls: seq<ArgsDecl>, id: string, i: nat)
    requires i < |decls|
    ensures ArgumentsOf(decls[..i + 1], id)
         == ArgumentsOf(decls[..i], id) + (if decls[i].jobID == id then FieldArguments(decls[i].fields, id) else [])
  {
    ArgumentsAppend(decls[..i], [decls[i]], id);
    assert decls[..i] + [decls[i]] == decls[..i + 1];
    assert ArgumentsOf([decls[i]], id) == (if decls[i].jobID == id then FieldArguments(decls[i].fields, id) else []) + ArgumentsOf([], id);
  }

  lemma {:induction false} WithNeedsSnoc(h: Heap, refs: seq<Ref>, r: Ref, id: string)
    requires InHeap(h, refs) && r < |h|
    ensures InHeap(h, refs + [r])
    ensures |WithNeeds(h, refs, id)| == |h|
    ensures WithNeeds(h, refs + [r], id) == WithNeeds(h, refs, id)[r := WithNeed(WithNeeds(h, refs, id)[r], id)]
  {
    var a, b := WithNeeds(h, refs, id), WithNeeds(h, refs + [r], id);
    WithNeedsExactly(h, refs, id);
    WithNeedsExactly(h, refs + [r], id);
    forall k | 0 <= k < |h| ensures b[k] == a[r := WithNeed(a[r], id)][k] {
      assert k in refs + [r] <==> k in refs || k == r;
    }
  }

  lemma {:induction false} ChainArgsStep(h: Heap, current: Ref)
    requires WellLinked(h) && current < |h|
    ensures ChainArgs(h, Some(current)) == OwnArgs(h[current]) + ChainArgs(h, h[current].onFailure)
  {
  }

  lemma {:induction false} RecoveryArgsSnoc(h: Heap, roots: seq<Ref>, i: nat)
    requires WellLinked(h) && InHeap(h, roots) && i < |roots|
    ensures RecoveryArgs(h, roots[..i + 1]) == RecoveryArgs(h, roots[..i]) + ChainArgs(h, h[roots[i]].onFailure)
    decreases i
  {
    if i == 0 {
      assert roots[..1] == [roots[0]];
      assert RecoveryArgs(h, [roots[0]]) == ChainArgs(h, h[roots[0]].onFailure) + RecoveryArgs(h, []);
    } else {
      assert roots[..i + 1][1..] == roots[1..][..i] && roots[..i][1..] == roots[1..][..i - 1];
      RecoveryArgsSnoc(h, roots[1..], i - 1);
    }
  }

  lemma {:induction false} RegisterRootsSnoc(byID: map<string, Ref>, h: Heap, roots: seq<Ref>, i: nat)
    requires InHeap(h, roots) && i < |roots|
    ensures RegisterRoots(byID, h, roots[..i + 1]) == RegisterRoots(byID, h, roots[..i])[h[roots[i]].id := roots[i]]
    decreases i
  {
    var root := roots[0];
    if i == 0 {
      assert roots[..1] == [root] && roots[..0] == [];
    } else {
      assert roots[..i + 1][1..] == roots[1..][..i] && roots[..i][1..] == roots[1..][..i - 1];
      RegisterRootsSnoc(byID[h[root].id := root], h, roots[1..], i - 1);
    }
  }

  lemma {:induction false} AllArgumentsSnoc(decls: seq<ArgsDecl>, i: nat)
    requires i < |decls|
    ensures AllArguments(decls[..i + 1]) == AllArguments(decls[..i]) + FieldArguments(decls[i].fields, decls[i].jobID)
    decreases i
  {
    if i == 0 {
      assert decls[..1] == [decls[0]];
      assert AllArguments([decls[0]]) == FieldArguments(decls[0].fields, decls[0].jobID) + AllArguments([]);
    } else {
      assert decls[..i + 1][1..] == decls[1..][..i] && decls[..i][1..] == decls[1..][..i - 1];
      AllArgumentsSnoc(decls[1..], i - 1);
    }
  }

  lemma {:induction false} SameLinksAfterNeeds(h: Heap, refs: seq<Ref>, id: string)
    requires WellLinked(h) && InHeap(h, refs)
    ensures |WithNeeds(h, refs, id)| == |h| && forall r :: 0 <= r < |h| ==> WithNeeds(h, refs, id)[r].onFailure == h[r].onFailure
  {
    WithNeedsExactly(h, refs, id);
  }

  // ---------------------------------------------------------------- the identifier rules

  /** identifiers: no empty and no repeated name. */
  method CheckNames(names: seq<string>) returns (ok: bool)
    ensures ok <==> Distinct(names)
  {
    var seen: set<string> := {};
    var i := 0;
    while i < |names|
      invariant 0 <= i <= |names|
      invariant forall name :: name in seen <==> exists j :: 0 <= j < i && names[j] == name
      invariant Distinct(names[..i])
    {
      if names[i] == "" || names[i] in seen { return false; }
      seen := seen + {names[i]};
      i := i + 1;
    }
    assert names[..i] == names;
    return true;
  }

  /** registerJob over the plan's jobs and then the new ones, and validateJob over the new ones. */
  method CheckJobs(existing: seq<JobSpec>, added: seq<JobSpec>, otherRules: bool) returns (ok: bool)
    ensures ok <==> Accepts(existing, added, otherRules)
  {
    var jobs := existing + added;
    var seen: set<string> := {};
    var i := 0;
    while i < |jobs|
      invariant 0 <= i <= |jobs|
      invariant forall id :: id in seen <==> exists j :: 0 <= j < i && jobs[j].id == id
      invariant UniqueIDs(jobs[..i])
    {
      if jobs[i].id in seen { return false; }
      seen := seen + {jobs[i].id};
      i := i + 1;
    }
    assert jobs[..i] == jobs;
    var k := 0;
    while k < |added|
      invariant 0 <= k <= |added|
      invariant forall j :: 0 <= j < k ==> added[j].id != "" && Distinct(added[j].needs) && Distinct(added[j].groups)
    {
      if added[k].id == "" { return false; }
      var needs := CheckNames(added[k].needs);
      if !needs { return false; }
      var groups := CheckNames(added[k].groups);
      if !groups { return false; }
      k := k + 1;
    }
    return otherRules;
  }

  class PlanObject {
    const arena: NodeArena
    var nodes: seq<Ref>
    var byID: map<string, Ref>
    var groups: seq<Group>
    var jobArgs: seq<ArgsDecl>
    var generated: map<string, seq<JobSpec>>
    var generatedArguments: map<string, seq<Argument>>

    constructor (arena: NodeArena)
      ensures this.arena == arena && View() == EMPTY_PLAN
    {
      this.arena := arena;
      nodes, byID, groups, jobArgs, generated, generatedArguments := [], map[], [], [], map[], map[];
    }

    function View(): Plan
      reads this
    {
      Plan(nodes, byID, groups, jobArgs, generated, generatedArguments)
    }

    function Here(): World
      reads this, arena
    {
      World(View(), arena.cells)
    }

    // -------------------------------------------------------------- building

    /** Job, and Approval for a node marked as a gate; false where they panic. */
    method Job(n: Node) returns (ok: bool)
      modifies this, arena
      ensures forall base :: 0 <= base ==>
                var w := Apply(base, old(Here()), AddJob(n));
                if w.Some? then ok && Here() == w.value else !ok && Here() == old(Here())
    {
      if n.id in byID { return false; }
      if n.id == "" && !n.approval { return false; }
      var node := Blank(n);
      if node.arguments.Some? { jobArgs := jobArgs + [ArgsDecl(node.id, node.arguments.value)]; }
      var r := arena.Allocate(node);
      nodes := nodes + [r];
      byID := byID[node.id := r];
      return true;
    }

    method GroupJobs(name: string, members: seq<Ref>)
      modifies this`groups
      ensures View() == old(View()).(groups := old(groups) + [Group(name, members)])
    {
      groups := groups + [Group(name, members)];
    }

    /** One call of a callback, on its own nodes. */
    method Perform(base: nat, c: Call) returns (ok: bool)
      modifies this, arena
      ensures var w := Apply(base, old(Here()), c);
              if w.Some? then ok && Here() == w.value else !ok && Here() == old(Here())
    {
      match c
      case AddJob(n) =>
        ok := Job(n);
      case AddRecovery(k, n) =>
        if base + k >= |arena.cells| || n.id == "" || n.approval { return false; }
        var recovery := arena.OnFailure(base + k, n);
        return true;
      case AddGenerator(k) =>
        if base + k >= |arena.cells| { return false; }
        var id := arena.Generate(base + k);
        return true;
      case AddGroup(name, members) =>
        if exists i :: 0 <= i < |members| && base + members[i] >= |arena.cells| { return false; }
        GroupJobs(name, Shifted(base, members));
        return true;
      case AddNeed(k, id) =>
        if base + k >= |arena.cells| { return false; }
        arena.AddNeed(base + k, id);
        return true;
    }

    /** The callback, up to the call that panics. */
    method RunCallback(base: nat, calls: seq<Call>) returns (ok: bool)
      modifies this, arena
      ensures Built(Here(), ok) == Run(base, old(Here()), calls)
    {
      var i := 0;
      while i < |calls|
        invariant 0 <= i <= |calls|
        invariant Run(base, old(Here()), calls) == Run(base, Here(), calls[i..])
      {
        ok := Perform(base, calls[i]);
        if !ok { return; }
        assert calls[i..][1..] == calls[i + 1..];
        i := i + 1;
      }
      return true;
    }

    // -------------------------------------------------------------- rendering

    method GroupNames(r: Ref) returns (names: seq<string>)
      ensures names == JobGroups(groups, r)
    {
      names := [];
      var i := 0;
      while i < |groups|
        invariant 0 <= i <= |groups|
        invariant names == JobGroups(groups[..i], r)
      {
        var g := groups[i];
        ghost var before := names;
        var k := 0;
        while k < |g.members|
          invariant 0 <= k <= |g.members|
          invariant names == before + NamesFor(g.name, g.members[..k], r)
        {
          if g.members[k] == r && g.name != "" { names := names + [g.name]; }
          NamesForSnoc(g.name, g.members, r, k);
          k := k + 1;
        }
        assert g.members[..k] == g.members;
        JobGroupsSnoc(groups, r, i);
        i := i + 1;
      }
      assert groups[..i] == groups;
    }

    method Arguments(id: string) returns (arguments: seq<Argument>)
      ensures arguments == ArgumentsOf(jobArgs, id)
    {
      arguments := [];
      var i := 0;
      while i < |jobArgs|
        invariant 0 <= i <= |jobArgs|
        invariant arguments == ArgumentsOf(jobArgs[..i], id)
      {
        ArgumentsSnoc(jobArgs, id, i);
        if jobArgs[i].jobID == id { arguments := arguments + FieldArguments(jobArgs[i].fields, id); }
        i := i + 1;
      }
      assert jobArgs[..i] == jobArgs;
    }

    method ChainDocument(root: Ref) returns (docs: seq<JobSpec>)
      requires WellLinked(arena.cells) && root < |arena.cells|
      ensures docs == ChainDocs(groups, jobArgs, arena.cells, Some(root), "")
    {
      docs := [];
      var parent := "";
      var current := Some(root);
      while current.Some?
        invariant current.Some? ==> current.value < |arena.cells|
        invariant ChainDocs(groups, jobArgs, arena.cells, Some(root), "") == docs + ChainDocs(groups, jobArgs, arena.cells, current, parent)
        decreases if current.Some? then |arena.cells| - current.value else 0
      {
        var n := arena.cells[current.value];
        var names := GroupNames(current.value);
        var arguments := Arguments(n.id);
        var doc := JobDoc(n, names, arguments, parent);
        assert ChainDocs(groups, jobArgs, arena.cells, current, parent) == [doc] + ChainDocs(groups, jobArgs, arena.cells, n.onFailure, n.id);
        docs := docs + [doc];
        parent := n.id;
        current := n.onFailure;
      }
    }

    /** planDocument: one loop over the roots, one along each chain. */
    method PlanDocument() returns (docs: seq<JobSpec>)
      requires WellLinked(arena.cells) && InHeap(arena.cells, nodes)
      ensures docs == PlanJobs(View(), arena.cells)
    {
      docs := [];
      var i := 0;
      while i < |nodes|
        invariant 0 <= i <= |nodes|
        invariant docs == RootDocs(groups, jobArgs, arena.cells, nodes[..i])
      {
        var chain := ChainDocument(nodes[i]);
        RootDocsSnoc(groups, jobArgs, arena.cells, nodes, i);
        docs := docs + chain;
        i := i + 1;
      }
      assert nodes[..i] == nodes;
    }

    // -------------------------------------------------------------- lookups

    method FindJob(id: string) returns (found: Option<Ref>)
      requires WellLinked(arena.cells) && InHeap(arena.cells, nodes)
      ensures found == PlanJob(View(), arena.cells, id)
    {
      if id in byID { return Some(byID[id]); }
      var i := 0;
      while i < |nodes|
        invariant 0 <= i <= |nodes|
        invariant FindRecovery(arena.cells, nodes, id) == FindRecovery(arena.cells, nodes[i..], id)
      {
        var current := arena.cells[nodes[i]].onFailure;
        while current.Some? && arena.cells[current.value].id != id
          invariant current.Some? ==> current.value < |arena.cells|
          invariant FindInChain(arena.cells, arena.cells[nodes[i]].onFailure, id) == FindInChain(arena.cells, current, id)
          decreases if current.Some? then |arena.cells| - current.value else 0
        {
          current := arena.cells[current.value].onFailure;
        }
        if current.Some? { return current; }
        assert nodes[i..][1..] == nodes[i + 1..];
        i := i + 1;
      }
      return None;
    }

    /** closureJob: the first job of the document that lists the id, looked up by its own id. */
    method FindClosureJob(id: string) returns (found: Option<Ref>)
      requires WellLinked(arena.cells) && InHeap(arena.cells, nodes)
      ensures found == ClosureJob(View(), arena.cells, id)
    {
      var docs := PlanDocument();
      var i := 0;
      while i < |docs|
        invariant 0 <= i <= |docs|
        invariant FirstDeclaring(docs, id) == FirstDeclaring(docs[i..], id)
      {
        if HasClosure(docs[i].closures, id) || StepListed(docs[i].steps, id) {
          found := FindJob(docs[i].id);
          return;
        }
        assert docs[i..][1..] == docs[i + 1..];
        i := i + 1;
      }
      return None;
    }

    // -------------------------------------------------------------- expansion

    /** The inner loop of the first walk: a root and its recovery chain are listed and need the source. */
    method NeedAlong(root: Ref, id: string, ghost h: Heap, front: seq<Ref>) returns (members: seq<Ref>)
      requires WellLinked(h) && root < |h| && InHeap(h, front) && arena.cells == WithNeeds(h, front, id)
      modifies arena
      ensures members == front + Chain(h, Some(root)) && InHeap(h, members)
      ensures arena.cells == WithNeeds(h, members, id)
    {
      members := front;
      var current := Some(root);
      while current.Some?
        invariant current.Some? ==> current.value < |h|
        invariant InHeap(h, members) && front + Chain(h, Some(root)) == members + Chain(h, current)
        invariant arena.cells == WithNeeds(h, members, id)
        decreases if current.Some? then |h| - current.value else 0
      {
        WithNeedsSnoc(h, members, current.value, id);
        arena.AddNeed(current.value, id);
        members := members + [current.value];
        SameLinksAfterNeeds(h, members, id);
        current := arena.cells[current.value].onFailure;
      }
    }

    /** Every node built needs the source from here on. */
    method NeedSource(id: string) returns (members: seq<Ref>)
      requires WellLinked(arena.cells) && InHeap(arena.cells, nodes)
      modifies arena
      ensures members == Members(old(arena.cells), nodes) && InHeap(old(arena.cells), members)
      ensures arena.cells == WithNeeds(old(arena.cells), members, id)
    {
      ghost var h := arena.cells;
      members := [];
      var i := 0;
      while i < |nodes|
        invariant 0 <= i <= |nodes|
        invariant members == Members(h, nodes[..i]) && InHeap(h, members)
        invariant arena.cells == WithNeeds(h, members, id)
      {
        members := NeedAlong(nodes[i], id, h, members);
        MembersSnoc(h, nodes, i);
        i := i + 1;
      }
      assert nodes[..i] == nodes;
    }

    /** The inner loop of registerRecoveryArgs, along one recovery chain. */
    method RegisterChainArgs(first: Option<Ref>)
      requires WellLinked(arena.cells) && (first.Some? ==> first.value < |arena.cells|)
      modifies this`jobArgs
      ensures jobArgs == old(jobArgs) + ChainArgs(arena.cells, first)
    {
      ghost var front := jobArgs;
      var current := first;
      while current.Some?
        invariant current.Some? ==> current.value < |arena.cells|
        invariant front + ChainArgs(arena.cells, first) == jobArgs + ChainArgs(arena.cells, current)
        decreases if current.Some? then |arena.cells| - current.value else 0
      {
        ChainArgsStep(arena.cells, current.value);
        jobArgs := jobArgs + OwnArgs(arena.cells[current.value]);
        current := arena.cells[current.value].onFailure;
      }
    }

    /** registerRecoveryArgs. */
    method RegisterRecoveryArgs()
      requires WellLinked(arena.cells) && InHeap(arena.cells, nodes)
      modifies this`jobArgs
      ensures View() == WithRecoveryArgs(old(View()), arena.cells)
    {
      ghost var before := jobArgs;
      var i := 0;
      while i < |nodes|
        invariant 0 <= i <= |nodes|
        invariant jobArgs == before + RecoveryArgs(arena.cells, nodes[..i])
      {
        RegisterChainArgs(arena.cells[nodes[i]].onFailure);
        RecoveryArgsSnoc(arena.cells, nodes, i);
        i := i + 1;
      }
      assert nodes[..i] == nodes;
    }

    /** The generator's group, then one for each of the source's. */
    method Tag(generator: string, names: seq<string>, members: seq<Ref>)
      requires WellLinked(arena.cells) && InHeap(arena.cells, nodes) && members == Members(arena.cells, nodes)
      modifies this`groups, this`jobArgs
      ensures View() == Tagged(old(View()), arena.cells, generator, names)
    {
      GroupJobs(generator, members);
      ghost var own := groups;
      var i := 0;
      while i < |names|
        invariant 0 <= i <= |names|
        invariant View() == old(View()).(groups := own + Inherited(names, members)[..i])
      {
        GroupJobs(names[i], members);
        i := i + 1;
      }
      assert Inherited(names, members)[..i] == Inherited(names, members);
      RegisterRecoveryArgs();
    }

    method DeclaredArguments() returns (arguments: seq<Argument>)
      ensures arguments == AllArguments(jobArgs)
    {
      arguments := [];
      var i := 0;
      while i < |jobArgs|
        invariant 0 <= i <= |jobArgs|
        invariant arguments == AllArguments(jobArgs[..i])
      {
        AllArgumentsSnoc(jobArgs, i);
        arguments := arguments + FieldArguments(jobArgs[i].fields, jobArgs[i].jobID);
        i := i + 1;
      }
      assert jobArgs[..i] == jobArgs;
    }

    /** The merge, under the plan's lock. */
    method Merge(e: PlanObject, generator: string, jobs: seq<JobSpec>)
      requires e != this && InHeap(arena.cells, e.nodes)
      modifies this
      ensures View() == Merged(old(View()), e.View(), arena.cells, generator, jobs)
    {
      var arguments := e.DeclaredArguments();
      generatedArguments := generatedArguments[generator := arguments];
      var i := 0;
      while i < |e.nodes|
        invariant 0 <= i <= |e.nodes|
        invariant View() == old(View()).(
          nodes := old(nodes) + e.nodes[..i],
          byID := RegisterRoots(old(byID), arena.cells, e.nodes[..i]),
          generatedArguments := old(generatedArguments)[generator := AllArguments(e.jobArgs)])
      {
        RegisterRootsSnoc(old(byID), arena.cells, e.nodes, i);
        nodes := nodes + [e.nodes[i]];
        byID := byID[arena.cells[e.nodes[i]].id := e.nodes[i]];
        i := i + 1;
      }
      assert e.nodes[..i] == e.nodes;
      groups := groups + e.groups;
      jobArgs := jobArgs + e.jobArgs;
      generated := generated[generator := jobs];
    }

    /** The generator branch of evaluate. */
    method ExpandGenerator(source: Ref, generator: string, a: Attempt) returns (jobs: Option<seq<JobSpec>>)
      requires Live(View(), arena.cells) && source < |arena.cells|
      modifies this, arena
      ensures Expanded(View(), arena.cells, jobs) == Expand(old(View()), old(arena.cells), source, generator, a)
    {
      if generator in generated { return Some(generated[generator]); }
      var e := new PlanObject(arena);
      ghost var h := arena.cells;
      ghost var built := Build(h, a.calls);
      var ok := e.RunCallback(|arena.cells|, a.calls);
      assert Built(e.Here(), ok) == built;
      if !ok || a.fails { return None; }
      ghost var heap := Needing(built.world, |h|, h[source].id);
      var members := e.NeedSource(arena.cells[source].id);
      assert arena.cells == heap;
      var names := GroupNames(source);
      e.Tag(generator, names, members);
      var docs := e.PlanDocument();
      var sent := ForHost(a.coresAccepted, docs);
      var existing := PlanDocument();
      var accepted := CheckJobs(existing, sent, a.otherRules);
      if !accepted { return None; }
      Merge(e, generator, sent);
      return Some(sent);
    }

    /** Eval: find the job that declares the closure, then what the closure is in that job. */
    method EvalClosure(closure: string, job: string, a: Attempt) returns (reply: Reply)
      requires Sound(View(), arena.cells)
      modifies this, arena
      ensures var after := Eval(State(old(View()), old(arena.cells), []), Request(closure, a));
              View() == after.plan && arena.cells == after.heap
      ensures reply == ReplyTo(old(View()), old(arena.cells), closure, job, a)
    {
      var source := FindClosureJob(closure);
      if source.None? { return UnknownClosure; }
      FoundInHeap(View(), arena.cells, closure);
      ClosureJobFindsExactly(View(), arena.cells, closure, source.value);
      var n := arena.cells[source.value];
      if job != "" && n.id != job && closure !in n.generators { return UnknownClosure; }
      var callback := FindCallback(n, closure);
      CallbackIsFound(n, closure, callback);
      if !callback.value.Generate? { return Ran(callback.value); }
      var jobs := ExpandGenerator(source.value, closure, a);
      return if jobs.Some? then Jobs(jobs.value, ArgumentsFor(View(), closure)) else Failed;
    }
  }

  /** What a host hears: no such closure, a plain callback's turn, a generator's jobs, or its failure. */
  datatype Reply = UnknownClosure | Ran(callback: Callback) | Jobs(jobs: seq<JobSpec>, arguments: seq<Argument>) | Failed

  /** The arguments stored for a generator. */
  function ArgumentsFor(p: Plan, generator: string): seq<Argument> {
    if generator in p.generatedArguments then p.generatedArguments[generator] else []
  }

  ghost predicate DeclaresClosure(n: Node, closure: string) {
    exists c :: NamesCallback(n, closure, c)
  }

  ghost function ReplyTo(p: Plan, h: Heap, closure: string, job: string, a: Attempt): Reply
    requires Sound(p, h)
  {
    var source := ClosureJob(p, h, closure);
    if source.None? then UnknownClosure else
      FoundInHeap(p, h, closure);
      ClosureJobFindsExactly(p, h, closure, source.value);
      var n := h[source.value];
      if closure in n.generators then
        var r := Expand(p, h, source.value, closure, a);
        if r.jobs.Some? then Jobs(r.jobs.value, ArgumentsFor(r.plan, closure)) else Failed
      else if job != "" && n.id != job then UnknownClosure
      else
        assert exists c :: NamesCallback(n, closure, c);
        var c :| NamesCallback(n, closure, c);
        Ran(c)
  }

  /** The scan finds the one callback of this id; it is a generator exactly when the generators list the id. */
  lemma {:induction false} CallbackIsFound(n: Node, closure: string, found: Option<Callback>)
    requires WellFormed(n) && DeclaresClosure(n, closure)
    requires found.Some? ==> NamesCallback(n, closure, found.value)
    requires found.None? ==> forall c :: !NamesCallback(n, closure, c)
    ensures found.Some? && (found.value.Generate? <==> closure in n.generators)
    ensures forall c :: NamesCallback(n, closure, c) ==> c == found.value
  {
    forall c | NamesCallback(n, closure, c) ensures c == found.value {
      OneCallbackPerID(n, closure, c, found.value);
    }
    if found.value.Generate? {
      assert n.generators[found.value.index] == closure;
    }
    if closure in n.generators {
      var k :| 0 <= k < |n.generators| && n.generators[k] == closure;
      assert NamesCallback(n, closure, Generate(k));
    }
  }

  // ---------------------------------------------------------------- what each reply means

  /** The node is in the plan and declares a callback under this id. */
  ghost predicate DeclaredBy(p: Plan, h: Heap, closure: string, r: Ref)
    requires WellLinked(h) && InHeap(h, p.nodes)
  {
    MembersInHeap(h, p.nodes);
    r < |h| && Holds(h, PlanMembers(p, h), r, h[r].id) && DeclaresClosure(h[r], closure)
  }

  /** A request bound to a job reaches that job's callbacks, and any job's generators. */
  predicate Fits(n: Node, closure: string, job: string) {
    job == "" || n.id == job || closure in n.generators
  }

  lemma {:induction false} OneDeclarer(p: Plan, h: Heap, closure: string)
    requires Sound(p, h)
    ensures forall r: Ref :: DeclaredBy(p, h, closure, r) <==> ClosureJob(p, h, closure) == Some(r)
  {
    forall r: Ref ensures DeclaredBy(p, h, closure, r) <==> ClosureJob(p, h, closure) == Some(r) {
      ClosureJobFindsExactly(p, h, closure, r);
    }
  }

  lemma {:induction false} GeneratorIsListed(n: Node, closure: string)
    requires WellFormed(n)
    ensures closure in n.generators <==> exists c :: NamesCallback(n, closure, c) && c.Generate?
  {
    if closure in n.generators {
      var k :| 0 <= k < |n.generators| && n.generators[k] == closure;
      assert NamesCallback(n, closure, Generate(k));
    }
    if exists c :: NamesCallback(n, closure, c) && c.Generate? {
      var c :| NamesCallback(n, closure, c) && c.Generate?;
      assert n.generators[c.index] == closure;
    }
  }

  /** Which callback the reply names, in terms of the node found. */
  lemma {:induction false} RanIs(n: Node, closure: string, c: Callback, ran: Callback)
    requires WellFormed(n) && NamesCallback(n, closure, ran)
    ensures NamesCallback(n, closure, c) <==> c == ran
    ensures ran.Generate? <==> closure in n.generators
  {
    GeneratorIsListed(n, closure);
    forall d | NamesCallback(n, closure, d) ensures d == ran { OneCallbackPerID(n, closure, d, ran); }
  }

  /** The closure is unknown exactly when no node of the plan declares it that the request may reach. */
  lemma {:induction false} UnknownExactly(p: Plan, h: Heap, closure: string, job: string, a: Attempt)
    requires Sound(p, h)
    ensures ReplyTo(p, h, closure, job, a) == UnknownClosure <==>
              forall r: Ref :: DeclaredBy(p, h, closure, r) ==> !Fits(h[r], closure, job)
  {
    var source := ClosureJob(p, h, closure);
    OneDeclarer(p, h, closure);
    if source.Some? { assert DeclaredBy(p, h, closure, source.value); }
  }

  ghost predicate RunsPlain(p: Plan, h: Heap, closure: string, job: string, c: Callback)
    requires WellLinked(h) && InHeap(h, p.nodes)
  {
    !c.Generate? && exists r: Ref :: DeclaredBy(p, h, closure, r) && NamesCallback(h[r], closure, c) && (job == "" || h[r].id == job)
  }

  lemma {:induction false} PlainInSource(p: Plan, h: Heap, closure: string, job: string, c: Callback, source: Option<Ref>)
    requires WellLinked(h) && InHeap(h, p.nodes) && forall r: Ref :: DeclaredBy(p, h, closure, r) <==> source == Some(r)
    ensures RunsPlain(p, h, closure, job, c) <==>
              && !c.Generate? && source.Some? && source.value < |h|
              && NamesCallback(h[source.value], closure, c) && (job == "" || h[source.value].id == job)
  {
    if source.Some? { assert DeclaredBy(p, h, closure, source.value); }
  }

  /** A plain callback runs exactly when it is the one declared under this id, in the bound job if there is one. */
  lemma {:induction false} RanExactly(p: Plan, h: Heap, closure: string, job: string, a: Attempt, c: Callback)
    requires Sound(p, h)
    ensures ReplyTo(p, h, closure, job, a) == Ran(c) <==> RunsPlain(p, h, closure, job, c)
  {
    var source := ClosureJob(p, h, closure);
    OneDeclarer(p, h, closure);
    PlainInSource(p, h, closure, job, c, source);
    if source.Some? {
      FoundInHeap(p, h, closure);
      ClosureJobFindsExactly(p, h, closure, source.value);
      var d :| NamesCallback(h[source.value], closure, d);
      RanIs(h[source.value], closure, c, d);
      ReplyNames(p, h, closure, job, a, source.value, d);
    }
  }

  lemma {:induction false} ReplyNames(p: Plan, h: Heap, closure: string, job: string, a: Attempt, source: Ref, d: Callback)
    requires Sound(p, h) && ClosureJob(p, h, closure) == Some(source) && source < |h| && NamesCallback(h[source], closure, d)
    ensures var reply := ReplyTo(p, h, closure, job, a);
            reply.Ran? <==> !d.Generate? && (job == "" || h[source].id == job)
    ensures var reply := ReplyTo(p, h, closure, job, a); reply.Ran? ==> reply.callback == d
  {
    RanIs(h[source], closure, d, d);
    var reply := ReplyTo(p, h, closure, job, a);
    if reply.Ran? { RanIs(h[source], closure, reply.callback, d); }
  }

  lemma {:induction false} FoundGenerates(p: Plan, h: Heap, closure: string, log: seq<Merge>, a: Attempt)
    requires Sound(p, h)
    ensures NamesGenerator(State(p, h, log), Request(closure, a)) <==>
              exists r: Ref :: DeclaredBy(p, h, closure, r) && closure in h[r].generators
  {
    var source := ClosureJob(p, h, closure);
    OneDeclarer(p, h, closure);
    if source.Some? { assert DeclaredBy(p, h, closure, source.value); }
  }

  lemma {:induction false} GeneratorReply(p: Plan, h: Heap, closure: string, job: string, a: Attempt, log: seq<Merge>)
    requires Sound(p, h)
    ensures var s, q, reply := State(p, h, log), Request(closure, a), ReplyTo(p, h, closure, job, a);
            if NamesGenerator(s, q)
            then reply == (if Answer(s, q).Some? then Jobs(Answer(s, q).value, ArgumentsFor(Eval(s, q).plan, closure)) else Failed)
            else !reply.Jobs? && !reply.Failed?
  {
    var s, q := State(p, h, log), Request(closure, a);
    if NamesGenerator(s, q) { EvalIsExpansion(s, q, ClosureJob(p, h, closure).value); }
    if ClosureJob(p, h, closure).Some? { FoundInHeap(p, h, closure); }
  }

  /**
   Jobs are answered exactly for a generator that was merged before, and then those stored, or whose
   callback succeeds and whose jobs validation accepts, and then those; every other generator fails.
   With the jobs go the arguments stored for the generator.
   */
  lemma {:induction false} JobsExactly(p: Plan, h: Heap, closure: string, job: string, a: Attempt, log: seq<Merge>)
    requires Sound(p, h)
    ensures var s, q, reply := State(p, h, log), Request(closure, a), ReplyTo(p, h, closure, job, a);
            && (reply.Jobs? <==> Replays(s, q) || Merges(s, q))
            && (Replays(s, q) ==> reply == Jobs(p.generated[closure], ArgumentsFor(p, closure)))
            && (Merges(s, q) ==> reply.jobs == ForHost(a.coresAccepted, AddedFor(s, q)))
            && (reply == Failed <==> NamesGenerator(s, q) && !Replays(s, q) && !Merges(s, q))
  {
    var s, q := State(p, h, log), Request(closure, a);
    GeneratorReply(p, h, closure, job, a, log);
    EvalDecides(s, q);
  }

  /** The arguments answered with a new expansion are exactly those its jobs show. */
  lemma {:induction false} AnsweredArguments(p: Plan, h: Heap, closure: string, job: string, a: Attempt, log: seq<Merge>, x: Argument)
    requires Sound(p, h) && Merges(State(p, h, log), Request(closure, a))
    ensures ReplyTo(p, h, closure, job, a).Jobs?
    ensures x in ReplyTo(p, h, closure, job, a).arguments <==> ShownArgument(AddedFor(State(p, h, log), Request(closure, a)), x)
  {
    var s, q := State(p, h, log), Request(closure, a);
    var source := ClosureJob(p, h, closure).value;
    FoundInHeap(p, h, closure);
    GeneratorIsNamed(h, source, closure);
    EvalIsExpansion(s, q, source);
    GeneratorReply(p, h, closure, job, a, log);
    EvalDecides(s, q);
    StoredArgumentsShown(p, h, source, closure, a, x);
  }
}
