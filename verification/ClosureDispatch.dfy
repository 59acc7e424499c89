/** From an id to the job, and inside the job to the callback, that declared it. */
module ClosureDispatch {
  import opened Results
  import opened ClosureIds
  import opened PlanModel

  // ---------------------------------------------------------------- finding a job by id

  ghost predicate IDAmong(h: Heap, refs: seq<Ref>, id: string)
    requires InHeap(h, refs)
  {
    exists i :: 0 <= i < |refs| && h[refs[i]].id == id
  }

  /** The index holds exactly the roots. */
  ghost predicate Indexed(p: Plan, h: Heap)
    requires InHeap(h, p.nodes)
  {
    && (forall i :: 0 <= i < |p.nodes| ==> h[p.nodes[i]].id in p.byID && p.byID[h[p.nodes[i]].id] == p.nodes[i])
    && (forall id :: id in p.byID ==> IDAmong(h, p.nodes, id))
  }

  function FindInChain(h: Heap, start: Option<Ref>, id: string): Option<Ref>
    requires WellLinked(h) && (start.Some? ==> start.value < |h|)
    decreases if start.Some? then |h| - start.value else 0
  {
    if start.None? then None
    else if h[start.value].id == id then start
    else FindInChain(h, h[start.value].onFailure, id)
  }

  function FindRecovery(h: Heap, roots: seq<Ref>, id: string): Option<Ref>
    requires WellLinked(h) && InHeap(h, roots)
  {
    if roots == [] then None else
      var found := FindInChain(h, h[roots[0]].onFailure, id);
      if found.Some? then found else FindRecovery(h, roots[1..], id)
  }

  function PlanJob(p: Plan, h: Heap, id: string): Option<Ref>
    requires WellLinked(h) && InHeap(h, p.nodes)
  {
    if id in p.byID then Some(p.byID[id]) else FindRecovery(h, p.nodes, id)
  }

  ghost predicate Holds(h: Heap, refs: seq<Ref>, r: Ref, id: string)
    requires InHeap(h, refs)
  {
    exists i :: 0 <= i < |refs| && refs[i] == r && h[r].id == id
  }

  lemma {:induction false} HoldsEither(h: Heap, a: seq<Ref>, b: seq<Ref>, r: Ref, id: string)
    requires InHeap(h, a) && InHeap(h, b)
    ensures InHeap(h, a + b) && (Holds(h, a + b, r, id) <==> Holds(h, a, r, id) || Holds(h, b, r, id))
  {
    var all := a + b;
    if Holds(h, all, r, id) {
      var i :| 0 <= i < |all| && all[i] == r && h[r].id == id;
      if i < |a| { assert a[i] == r; } else { assert b[i - |a|] == r; }
    }
    if Holds(h, a, r, id) {
      var i :| 0 <= i < |a| && a[i] == r && h[r].id == id;
      assert all[i] == r;
    }
    if Holds(h, b, r, id) {
      var i :| 0 <= i < |b| && b[i] == r && h[r].id == id;
      assert all[|a| + i] == r;
    }
  }

  lemma {:induction false} FindInChainExactly(h: Heap, start: Option<Ref>, id: string)
    requires WellLinked(h) && (start.Some? ==> start.value < |h|)
    ensures InHeap(h, Chain(h, start))
    ensures var found := FindInChain(h, start, id);
            if found.Some? then Holds(h, Chain(h, start), found.value, id)
            else forall i :: 0 <= i < |Chain(h, start)| ==> h[Chain(h, start)[i]].id != id
    decreases if start.Some? then |h| - start.value else 0
  {
    ChainIsIncreasing(h, start);
    if start.Some? {
      var rest := h[start.value].onFailure;
      FindInChainExactly(h, rest, id);
      var found := FindInChain(h, start, id);
      if found == start {
        assert Chain(h, start)[0] == start.value;
      } else if found.Some? {
        HoldsEither(h, [start.value], Chain(h, rest), found.value, id);
      }
    }
  }

  lemma {:induction false} FindRecoveryExactly(h: Heap, roots: seq<Ref>, id: string)
    requires WellLinked(h) && InHeap(h, roots)
    ensures InHeap(h, Members(h, roots))
    ensures var found := FindRecovery(h, roots, id);
            if found.Some? then Holds(h, Members(h, roots), found.value, id)
            else forall i :: 0 <= i < |Members(h, roots)| && h[Members(h, roots)[i]].id == id ==> Members(h, roots)[i] in roots
    decreases |roots|
  {
    MembersInHeap(h, roots);
    if roots != [] {
      var root, rest := roots[0], roots[1..];
      ChainIsIncreasing(h, Some(root));
      FindInChainExactly(h, h[root].onFailure, id);
      FindRecoveryExactly(h, rest, id);
      var found := FindRecovery(h, roots, id);
      if found.Some? {
        HoldsEither(h, [root], Chain(h, h[root].onFailure), found.value, id);
        HoldsEither(h, Chain(h, Some(root)), Members(h, rest), found.value, id);
      }
    }
  }

  lemma {:induction false} RootIsMember(h: Heap, roots: seq<Ref>, i: nat)
    requires WellLinked(h) && InHeap(h, roots) && i < |roots|
    ensures InHeap(h, Members(h, roots)) && Holds(h, Members(h, roots), roots[i], h[roots[i]].id)
    decreases |roots|
  {
    MembersInHeap(h, roots);
    MembersInHeap(h, roots[1..]);
    ChainIsIncreasing(h, Some(roots[0]));
    HoldsEither(h, Chain(h, Some(roots[0])), Members(h, roots[1..]), roots[i], h[roots[i]].id);
    if i == 0 {
      assert Chain(h, Some(roots[0]))[0] == roots[0];
    } else {
      RootIsMember(h, roots[1..], i - 1);
    }
  }

  ghost predicate Shown(docs: seq<JobSpec>, id: string) {
    exists i :: 0 <= i < |docs| && docs[i].id == id
  }

  /** A lookup finds a node exactly for the ids in the document, and it is a node of the plan with that id. */
  lemma {:induction false} PlanJobFindsExactly(p: Plan, h: Heap, id: string)
    requires WellLinked(h) && InHeap(h, p.nodes) && Indexed(p, h)
    ensures InHeap(h, PlanMembers(p, h))
    ensures PlanJob(p, h, id).Some? <==> Shown(PlanJobs(p, h), id)
    ensures PlanJob(p, h, id).Some? ==> Holds(h, PlanMembers(p, h), PlanJob(p, h, id).value, id)
  {
    var members, docs, found := PlanMembers(p, h), PlanJobs(p, h), PlanJob(p, h, id);
    RootDocsRender(p.groups, p.jobArgs, h, p.nodes);
    FindRecoveryExactly(h, p.nodes, id);
    if id in p.byID {
      assert IDAmong(h, p.nodes, id);
      var i :| 0 <= i < |p.nodes| && h[p.nodes[i]].id == id;
      RootIsMember(h, p.nodes, i);
    }
    if found.Some? {
      var i :| 0 <= i < |members| && members[i] == found.value && h[found.value].id == id;
      assert docs[i].id == id;
    } else {
      forall i | 0 <= i < |docs| ensures docs[i].id != id {
        assert docs[i].id == h[members[i]].id;
      }
    }
  }

  // ---------------------------------------------------------------- what a node declares

  ghost predicate HasStepSkip(steps: seq<Step>, step: string, index: nat) {
    exists k :: 0 <= k < |steps| && steps[k].id == step && index < steps[k].skipIf
  }

  function StepsOf(n: Node): seq<Step> {
    if n.work.Some? then n.work.value else []
  }

  ghost predicate Declares(n: Node, c: Callback) {
    match c
    case SkipIf(i) => i < n.skipIf
    case BeforeRun(i) => i < n.beforeRun
    case AfterRun(i) => i < n.afterRun
    case Verify => n.verify
    case Memo => n.memo
    case StepSkip(step, i) => HasStepSkip(StepsOf(n), step, i)
    case Generate(i) => i < |n.generators|
  }

  /** Generate numbers a job's generators, and approval gates have no work. */
  predicate WellFormed(n: Node) {
    && (n.approval ==> n.work.None?)
    && forall k :: 0 <= k < |n.generators| ==> n.generators[k] == ClosureID(n.id, "generate", k)
  }

  predicate HasClosure(c: ClosureSpec, id: string) {
    && id != ""
    && (c.memoKey == id || c.verify == id || id in c.skipIf || id in c.beforeRun || id in c.afterRun || id in c.generate)
  }

  ghost predicate StepsHaveClosure(steps: seq<StepSpec>, id: string) {
    exists k :: 0 <= k < |steps| && id in steps[k].skipIf
  }

  ghost predicate DocDeclares(d: JobSpec, id: string) {
    HasClosure(d.closures, id) || StepsHaveClosure(d.steps, id)
  }

  ghost predicate NamesCallback(n: Node, id: string, c: Callback) {
    Declares(n, c) && id == CallbackID(n.id, c)
  }

  lemma {:induction false} NumberedIff(job: Bytes, kind: string, count: nat, id: string)
    ensures id in Numbered(job, kind, count) <==> exists i :: 0 <= i < count && id == ClosureID(job, kind, i)
  {
    var ids := Numbered(job, kind, count);
    if id in ids {
      var i :| 0 <= i < |ids| && ids[i] == id;
      assert id == ClosureID(job, kind, i);
    }
    if exists i :: 0 <= i < count && id == ClosureID(job, kind, i) {
      var i :| 0 <= i < count && id == ClosureID(job, kind, i);
      assert ids[i] == id;
    }
  }

  lemma {:induction false} ListedIsDeclared(n: Node, id: string)
    requires WellFormed(n) && HasClosure(ClosuresOf(n), id)
    ensures exists c :: NamesCallback(n, id, c)
  {
    NumberedIff(n.id, "skip", n.skipIf, id);
    NumberedIff(n.id, "before", n.beforeRun, id);
    NumberedIff(n.id, "after", n.afterRun, id);
    if n.memo && id == ClosureID(n.id, "memo", 0) {
      assert NamesCallback(n, id, Memo);
    } else if n.verify && id == ClosureID(n.id, "verify", 0) {
      assert NamesCallback(n, id, Verify);
    } else if id in ClosuresOf(n).skipIf {
      var i :| 0 <= i < n.skipIf && id == ClosureID(n.id, "skip", i);
      assert NamesCallback(n, id, SkipIf(i));
    } else if id in ClosuresOf(n).beforeRun {
      var i :| 0 <= i < n.beforeRun && id == ClosureID(n.id, "before", i);
      assert NamesCallback(n, id, BeforeRun(i));
    } else if id in ClosuresOf(n).afterRun {
      var i :| 0 <= i < n.afterRun && id == ClosureID(n.id, "after", i);
      assert NamesCallback(n, id, AfterRun(i));
    } else {
      var i :| 0 <= i < |n.generators| && n.generators[i] == id;
      assert NamesCallback(n, id, Generate(i));
    }
  }

  lemma {:induction false} StepListedIsDeclared(n: Node, id: string)
    requires WellFormed(n) && StepsHaveClosure(StepDocs(n.id, ShownSteps(n)), id)
    ensures exists c :: NamesCallback(n, id, c)
  {
    var steps, docs := ShownSteps(n), StepDocs(n.id, ShownSteps(n));
    var k :| 0 <= k < |docs| && id in docs[k].skipIf;
    NumberedIff(n.id, StepKind(steps[k].id), steps[k].skipIf, id);
    var i :| 0 <= i < steps[k].skipIf && id == ClosureID(n.id, StepKind(steps[k].id), i);
    assert HasStepSkip(StepsOf(n), steps[k].id, i);
    assert NamesCallback(n, id, StepSkip(steps[k].id, i));
  }

  lemma {:induction false} DeclaredIsListed(n: Node, c: Callback)
    requires WellFormed(n) && Declares(n, c)
    ensures if c.StepSkip? then StepsHaveClosure(StepDocs(n.id, ShownSteps(n)), CallbackID(n.id, c))
            else HasClosure(ClosuresOf(n), CallbackID(n.id, c))
  {
    var id := CallbackID(n.id, c);
    CallbackIDNotEmpty(n.id, c);
    if c.StepSkip? {
      var steps := ShownSteps(n);
      var k :| 0 <= k < |StepsOf(n)| && StepsOf(n)[k].id == c.step && c.index < StepsOf(n)[k].skipIf;
      NumberedIff(n.id, StepKind(c.step), steps[k].skipIf, id);
      assert id in StepDocs(n.id, steps)[k].skipIf;
    } else {
      NumberedIff(n.id, "skip", n.skipIf, id);
      NumberedIff(n.id, "before", n.beforeRun, id);
      NumberedIff(n.id, "after", n.afterRun, id);
    }
  }

  /** A document lists an id exactly when its node declares the callback of that id. */
  lemma {:induction false} DocDeclaresExactly(n: Node, groups: seq<string>, arguments: seq<Argument>, parent: string, id: string)
    requires WellFormed(n)
    ensures DocDeclares(JobDoc(n, groups, arguments, parent), id) <==> exists c :: NamesCallback(n, id, c)
  {
    if HasClosure(ClosuresOf(n), id) { ListedIsDeclared(n, id); }
    if StepsHaveClosure(StepDocs(n.id, ShownSteps(n)), id) { StepListedIsDeclared(n, id); }
    if exists c :: NamesCallback(n, id, c) {
      var c :| NamesCallback(n, id, c);
      DeclaredIsListed(n, c);
    }
  }

  /** Each list of a document names the callbacks of its kind, in order, and the callbacks of a step stand with it. */
  lemma {:induction false} ListsNameTheirKind(n: Node, groups: seq<string>, arguments: seq<Argument>, parent: string)
    requires WellFormed(n)
    ensures var d := JobDoc(n, groups, arguments, parent);
            && |d.closures.skipIf| == n.skipIf && |d.closures.beforeRun| == n.beforeRun && |d.closures.afterRun| == n.afterRun
            && (forall i :: 0 <= i < n.skipIf ==> d.closures.skipIf[i] == CallbackID(n.id, SkipIf(i)))
            && (forall i :: 0 <= i < n.beforeRun ==> d.closures.beforeRun[i] == CallbackID(n.id, BeforeRun(i)))
            && (forall i :: 0 <= i < n.afterRun ==> d.closures.afterRun[i] == CallbackID(n.id, AfterRun(i)))
            && (forall i :: 0 <= i < |d.closures.generate| ==> d.closures.generate[i] == CallbackID(n.id, Generate(i)))
            && d.closures.verify == (if n.verify then CallbackID(n.id, Verify) else "")
            && d.closures.memoKey == (if n.memo then CallbackID(n.id, Memo) else "")
            && (n.work.Some? ==> |d.steps| == |n.work.value| && forall k :: 0 <= k < |d.steps| ==> StepNamed(n.id, n.work.value[k], d.steps[k]))
  {
  }

  predicate StepNamed(job: Bytes, s: Step, d: StepSpec) {
    d.id == s.id && |d.skipIf| == s.skipIf && forall i :: 0 <= i < s.skipIf ==> d.skipIf[i] == CallbackID(job, StepSkip(s.id, i))
  }

  // ---------------------------------------------------------------- finding a job by closure

  function FirstDeclaring(docs: seq<JobSpec>, id: string): Option<JobSpec> {
    if docs == [] then None
    else if HasClosure(docs[0].closures, id) || StepListed(docs[0].steps, id) then Some(docs[0])
    else FirstDeclaring(docs[1..], id)
  }

  function StepListed(steps: seq<StepSpec>, id: string): (r: bool)
    ensures r <==> StepsHaveClosure(steps, id)
  {
    steps != [] && (id in steps[0].skipIf || StepListed(steps[1..], id))
  }

  function ClosureJob(p: Plan, h: Heap, id: string): Option<Ref>
    requires WellLinked(h) && InHeap(h, p.nodes)
  {
    var doc := FirstDeclaring(PlanJobs(p, h), id);
    if doc.Some? then PlanJob(p, h, doc.value.id) else None
  }

  lemma {:induction false} FirstDeclaringExactly(docs: seq<JobSpec>, id: string)
    ensures var found := FirstDeclaring(docs, id);
            if found.Some? then exists i :: 0 <= i < |docs| && docs[i] == found.value && DocDeclares(docs[i], id)
            else forall i :: 0 <= i < |docs| ==> !DocDeclares(docs[i], id)
    decreases |docs|
  {
    if docs != [] {
      FirstDeclaringExactly(docs[1..], id);
      var found := FirstDeclaring(docs, id);
      if DocDeclares(docs[0], id) {
        assert docs[0] == found.value;
      } else if found.Some? {
        var i :| 0 <= i < |docs[1..]| && docs[1..][i] == found.value && DocDeclares(docs[1..][i], id);
        assert docs[i + 1] == found.value;
      } else {
        forall i | 0 <= i < |docs| ensures !DocDeclares(docs[i], id) {
          if i > 0 { assert docs[i] == docs[1..][i - 1]; }
        }
      }
    }
  }

  predicate UniqueIDs(docs: seq<JobSpec>) {
    forall i, j :: 0 <= i < j < |docs| ==> docs[i].id != docs[j].id
  }

  predicate AllWellFormed(h: Heap) {
    forall r :: 0 <= r < |h| ==> WellFormed(h[r])
  }

  ghost predicate SameIDs(h: Heap, refs: seq<Ref>, docs: seq<JobSpec>)
    requires InHeap(h, refs)
  {
    |docs| == |refs| && forall i :: 0 <= i < |refs| ==> docs[i].id == h[refs[i]].id
  }

  lemma {:induction false} DocsCarryIDs(p: Plan, h: Heap)
    requires WellLinked(h) && InHeap(h, p.nodes)
    ensures InHeap(h, PlanMembers(p, h)) && SameIDs(h, PlanMembers(p, h), PlanJobs(p, h))
  {
    RootDocsRender(p.groups, p.jobArgs, h, p.nodes);
  }

  /** With unique ids the id decides the node. */
  lemma {:induction false} SameIDSameNode(h: Heap, refs: seq<Ref>, docs: seq<JobSpec>, r: Ref, s: Ref, id: string)
    requires InHeap(h, refs) && SameIDs(h, refs, docs) && UniqueIDs(docs)
    requires Holds(h, refs, r, id) && Holds(h, refs, s, id)
    ensures r == s
  {
    var i :| 0 <= i < |refs| && refs[i] == r && h[r].id == id;
    var j :| 0 <= j < |refs| && refs[j] == s && h[s].id == id;
    assert docs[i].id == id && docs[j].id == id;
  }

  /** Member i declares the callback, so a search through the document ends at member i. */
  lemma {:induction false} DeclaredIsFound(p: Plan, h: Heap, r: Ref, c: Callback)
    requires WellLinked(h) && InHeap(h, p.nodes) && Indexed(p, h) && AllWellFormed(h) && UniqueIDs(PlanJobs(p, h))
    requires InHeap(h, PlanMembers(p, h)) && r < |h| && Holds(h, PlanMembers(p, h), r, h[r].id) && Declares(h[r], c)
    ensures ClosureJob(p, h, CallbackID(h[r].id, c)) == Some(r)
  {
    var members, docs, id := PlanMembers(p, h), PlanJobs(p, h), CallbackID(h[r].id, c);
    RootDocsRender(p.groups, p.jobArgs, h, p.nodes);
    FirstDeclaringExactly(docs, id);
    var i :| 0 <= i < |members| && members[i] == r && h[r].id == h[r].id;
    assert NamesCallback(h[r], id, c);
    DocDeclaresExactly(h[r], docs[i].groups, docs[i].arguments, docs[i].onFailureOf, id);
    var found := FirstDeclaring(docs, id);
    var j :| 0 <= j < |docs| && docs[j] == found.value && DocDeclares(docs[j], id);
    DocDeclaresExactly(h[members[j]], docs[j].groups, docs[j].arguments, docs[j].onFailureOf, id);
    var d :| NamesCallback(h[members[j]], id, d);
    CallbackIDInjective(h[r].id, c, h[members[j]].id, d);
    PlanJobFindsExactly(p, h, h[r].id);
    DocsCarryIDs(p, h);
    SameIDSameNode(h, members, docs, r, PlanJob(p, h, h[r].id).value, h[r].id);
  }

  /** With unique job ids a closure id leads to a job exactly when that job is the one that declared it. */
  lemma {:induction false} ClosureJobFindsExactly(p: Plan, h: Heap, id: string, r: Ref)
    requires WellLinked(h) && InHeap(h, p.nodes) && Indexed(p, h) && AllWellFormed(h) && UniqueIDs(PlanJobs(p, h))
    ensures InHeap(h, PlanMembers(p, h))
    ensures ClosureJob(p, h, id) == Some(r) <==> r < |h| && Holds(h, PlanMembers(p, h), r, h[r].id) && exists c :: NamesCallback(h[r], id, c)
  {
    var members, docs := PlanMembers(p, h), PlanJobs(p, h);
    RootDocsRender(p.groups, p.jobArgs, h, p.nodes);
    if ClosureJob(p, h, id) == Some(r) {
      FirstDeclaringExactly(docs, id);
      var i :| 0 <= i < |docs| && docs[i] == FirstDeclaring(docs, id).value && DocDeclares(docs[i], id);
      DocDeclaresExactly(h[members[i]], docs[i].groups, docs[i].arguments, docs[i].onFailureOf, id);
      PlanJobFindsExactly(p, h, docs[i].id);
      assert Holds(h, members, members[i], docs[i].id);
      DocsCarryIDs(p, h);
      SameIDSameNode(h, members, docs, r, members[i], docs[i].id);
    }
    if r < |h| && Holds(h, members, r, h[r].id) && exists c :: NamesCallback(h[r], id, c) {
      var c :| NamesCallback(h[r], id, c);
      DeclaredIsFound(p, h, r, c);
    }
  }

  // ---------------------------------------------------------------- inside the job

  /** Scanning one numbered list. */
  method FindNumbered(job: Bytes, kind: string, count: nat, id: string) returns (found: Option<nat>)
    ensures found.Some? ==> found.value < count && id == ClosureID(job, kind, found.value)
    ensures found.None? ==> forall i :: 0 <= i < count ==> id != ClosureID(job, kind, i)
  {
    var i := 0;
    while i < count
      invariant 0 <= i <= count
      invariant forall j :: 0 <= j < i ==> id != ClosureID(job, kind, j)
    {
      if id == ClosureID(job, kind, i) { return Some(i); }
      i := i + 1;
    }
    return None;
  }

  /** closureStep: the step whose skip predicate has this id. */
  method ClosureStep(n: Node, id: string) returns (found: Option<Callback>)
    ensures found.Some? ==> found.value.StepSkip? && NamesCallback(n, id, found.value)
    ensures found.None? ==> forall c: Callback :: c.StepSkip? ==> !NamesCallback(n, id, c)
  {
    var steps := StepsOf(n);
    var k := 0;
    while k < |steps|
      invariant 0 <= k <= |steps|
      invariant forall j, i :: 0 <= j < k && 0 <= i < steps[j].skipIf ==> id != ClosureID(n.id, StepKind(steps[j].id), i)
    {
      var i := FindNumbered(n.id, StepKind(steps[k].id), steps[k].skipIf, id);
      if i.Some? {
        assert HasStepSkip(steps, steps[k].id, i.value);
        return Some(StepSkip(steps[k].id, i.value));
      }
      k := k + 1;
    }
    forall c: Callback | c.StepSkip? ensures !NamesCallback(n, id, c) {
      if HasStepSkip(steps, c.step, c.index) {
        var j :| 0 <= j < |steps| && steps[j].id == c.step && c.index < steps[j].skipIf;
        assert id != ClosureID(n.id, StepKind(steps[j].id), c.index);
      }
    }
    return None;
  }

  /** The order in which an evaluation compares the id with what the job declares. */
  method FindCallback(n: Node, id: string) returns (found: Option<Callback>)
    requires WellFormed(n)
    ensures found.Some? ==> NamesCallback(n, id, found.value)
    ensures found.None? ==> forall c :: !NamesCallback(n, id, c)
  {
    var skip := FindNumbered(n.id, "skip", n.skipIf, id);
    if skip.Some? { return Some(SkipIf(skip.value)); }
    var before := FindNumbered(n.id, "before", n.beforeRun, id);
    if before.Some? { return Some(BeforeRun(before.value)); }
    var after := FindNumbered(n.id, "after", n.afterRun, id);
    if after.Some? { return Some(AfterRun(after.value)); }
    if n.verify && id == ClosureID(n.id, "verify", 0) { return Some(Verify); }
    if n.memo && id == ClosureID(n.id, "memo", 0) { return Some(Memo); }
    var step := ClosureStep(n, id);
    if step.Some? { return step; }
    var k := 0;
    while k < |n.generators|
      invariant 0 <= k <= |n.generators|
      invariant forall j :: 0 <= j < k ==> id != n.generators[j]
    {
      if id == n.generators[k] { return Some(Generate(k)); }
      k := k + 1;
    }
    return None;
  }

  /** The scan cannot answer anything else: one id, one callback. */
  lemma {:induction false} OneCallbackPerID(n: Node, id: string, c: Callback, d: Callback)
    requires NamesCallback(n, id, c) && NamesCallback(n, id, d)
    ensures c == d
  {
    CallbackIDInjective(n.id, c, n.id, d);
  }
}
