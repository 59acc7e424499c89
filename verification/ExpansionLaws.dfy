/** What one expansion guarantees: the merged plan is sound, and a refused expansion leaves no trace. */
module ExpansionLaws {
  import opened Results
  import opened ClosureIds
  import opened PlanModel
  import opened ClosureDispatch
  import opened Expansion

  /** Every declaration of arguments is about a job the document shows. */
  ghost predicate DeclsShown(p: Plan, h: Heap)
    requires WellLinked(h) && InHeap(h, p.nodes)
  {
    forall i :: 0 <= i < |p.jobArgs| ==> Shown(PlanJobs(p, h), p.jobArgs[i].jobID)
  }

  ghost predicate Sound(p: Plan, h: Heap) {
    Live(p, h) && UniqueIDs(PlanJobs(p, h)) && DeclsShown(p, h)
  }

  // ---------------------------------------------------------------- new nodes do not disturb old documents

  lemma {:induction false} ChainDocsFrame(groups: seq<Group>, decls: seq<ArgsDecl>, h: Heap, h': Heap, start: Option<Ref>, parent: string)
    requires WellLinked(h) && WellLinked(h') && Grows(|h|, h, h') && (start.Some? ==> start.value < |h|)
    ensures ChainDocs(groups, decls, h', start, parent) == ChainDocs(groups, decls, h, start, parent)
    ensures Chain(h', start) == Chain(h, start)
    decreases if start.Some? then |h| - start.value else 0
  {
    if start.Some? { ChainDocsFrame(groups, decls, h, h', h[start.value].onFailure, h[start.value].id); }
  }

  lemma {:induction false} RootDocsFrame(groups: seq<Group>, decls: seq<ArgsDecl>, h: Heap, h': Heap, roots: seq<Ref>)
    requires WellLinked(h) && WellLinked(h') && Grows(|h|, h, h') && InHeap(h, roots)
    ensures InHeap(h', roots)
    ensures RootDocs(groups, decls, h', roots) == RootDocs(groups, decls, h, roots)
    ensures Members(h', roots) == Members(h, roots)
    decreases |roots|
  {
    if roots != [] {
      ChainDocsFrame(groups, decls, h, h', Some(roots[0]), "");
      RootDocsFrame(groups, decls, h, h', roots[1..]);
    }
  }

  /** The plan renders as before over any heap that only grew. */
  lemma {:induction false} GrownHeapSameJobs(p: Plan, h: Heap, h': Heap)
    requires Sound(p, h) && WellLinked(h') && AllWellFormed(h') && Grows(|h|, h, h')
    ensures InHeap(h', p.nodes) && PlanJobs(p, h') == PlanJobs(p, h) && PlanMembers(p, h') == PlanMembers(p, h)
    ensures Sound(p, h')
  {
    RootDocsFrame(p.groups, p.jobArgs, h, h', p.nodes);
    IndexedSameIDs(p, h, h');
    forall i | 0 <= i < |p.groups| ensures InRange(0, |h'|, p.groups[i].members) { }
  }

  // ---------------------------------------------------------------- what a tagged expansion looks like

  lemma {:induction false} IDAmongEither(h: Heap, a: seq<Ref>, b: seq<Ref>, id: string)
    requires InHeap(h, a) && InHeap(h, b) && (IDAmong(h, a, id) || IDAmong(h, b, id))
    ensures InHeap(h, a + b) && IDAmong(h, a + b, id)
  {
    var all := a + b;
    if IDAmong(h, a, id) {
      var i :| 0 <= i < |a| && h[a[i]].id == id;
      assert all[i] == a[i];
    } else {
      var i :| 0 <= i < |b| && h[b[i]].id == id;
      assert all[|a| + i] == b[i];
    }
  }

  lemma {:induction false} ChainArgsShown(h: Heap, start: Option<Ref>)
    requires WellLinked(h) && (start.Some? ==> start.value < |h|)
    ensures InHeap(h, Chain(h, start))
    ensures forall i :: 0 <= i < |ChainArgs(h, start)| ==> IDAmong(h, Chain(h, start), ChainArgs(h, start)[i].jobID)
    decreases if start.Some? then |h| - start.value else 0
  {
    ChainIsIncreasing(h, start);
    if start.Some? {
      var rest := h[start.value].onFailure;
      ChainArgsShown(h, rest);
      var own, args := OwnArgs(h[start.value]), ChainArgs(h, start);
      forall i | 0 <= i < |args| ensures IDAmong(h, Chain(h, start), args[i].jobID) {
        if i < |own| {
          assert h[[start.value][0]].id == args[i].jobID;
        } else {
          assert args[i] == ChainArgs(h, rest)[i - |own|];
        }
        IDAmongEither(h, [start.value], Chain(h, rest), args[i].jobID);
      }
    }
  }

  lemma {:induction false} RecoveryArgsShown(h: Heap, roots: seq<Ref>)
    requires WellLinked(h) && InHeap(h, roots)
    ensures InHeap(h, Members(h, roots))
    ensures forall i :: 0 <= i < |RecoveryArgs(h, roots)| ==> IDAmong(h, Members(h, roots), RecoveryArgs(h, roots)[i].jobID)
    decreases |roots|
  {
    MembersInHeap(h, roots);
    if roots != [] {
      var root, rest := roots[0], roots[1..];
      ChainIsIncreasing(h, Some(root));
      ChainArgsShown(h, h[root].onFailure);
      RecoveryArgsShown(h, rest);
      var own, args := ChainArgs(h, h[root].onFailure), RecoveryArgs(h, roots);
      forall i | 0 <= i < |args| ensures IDAmong(h, Members(h, roots), args[i].jobID) {
        if i < |own| {
          assert args[i] == own[i];
          IDAmongEither(h, [root], Chain(h, h[root].onFailure), args[i].jobID);
        } else {
          assert args[i] == RecoveryArgs(h, rest)[i - |own|];
        }
        IDAmongEither(h, Chain(h, Some(root)), Members(h, rest), args[i].jobID);
      }
    }
  }

  lemma {:induction false} ShownExactly(p: Plan, h: Heap, id: string)
    requires WellLinked(h) && InHeap(h, p.nodes)
    ensures InHeap(h, PlanMembers(p, h)) && (Shown(PlanJobs(p, h), id) <==> IDAmong(h, PlanMembers(p, h), id))
  {
    DocsCarryIDs(p, h);
    var docs, members := PlanJobs(p, h), PlanMembers(p, h);
    if Shown(docs, id) {
      var i :| 0 <= i < |docs| && docs[i].id == id;
      assert h[members[i]].id == id;
    }
    if IDAmong(h, members, id) {
      var i :| 0 <= i < |members| && h[members[i]].id == id;
      assert docs[i].id == id;
    }
  }

  /** Declarations made while building, and those of the recoveries at the end, are all about jobs shown. */
  lemma {:induction false} FinishedDeclsShown(p: Plan, h: Heap)
    requires WellLinked(h) && InHeap(h, p.nodes) && Indexed(p, h) && DeclsIndexed(p)
    ensures DeclsShown(WithRecoveryArgs(p, h), h)
  {
    var q := WithRecoveryArgs(p, h);
    RecoveryArgsShown(h, p.nodes);
    forall i | 0 <= i < |q.jobArgs| ensures Shown(PlanJobs(q, h), q.jobArgs[i].jobID) {
      var id := q.jobArgs[i].jobID;
      if i < |p.jobArgs| {
        assert q.jobArgs[i] == p.jobArgs[i] && IDAmong(h, p.nodes, id);
        var k :| 0 <= k < |p.nodes| && h[p.nodes[k]].id == id;
        RootIsMember(h, p.nodes, k);
        var m :| 0 <= m < |Members(h, p.nodes)| && Members(h, p.nodes)[m] == p.nodes[k] && h[p.nodes[k]].id == id;
        assert h[Members(h, p.nodes)[m]].id == id;
      } else {
        assert q.jobArgs[i] == RecoveryArgs(h, p.nodes)[i - |p.jobArgs|];
      }
      ShownExactly(q, h, id);
    }
  }

  /** A job that needs the source, and whose groups end with the generator's and then the source's. */
  predicate Tags(d: JobSpec, source: string, generator: string, names: seq<string>) {
    source in d.needs && EndsWith(d.groups, [generator] + names)
  }

  predicate EndsWith<T(==)>(s: seq<T>, tail: seq<T>) {
    |tail| <= |s| && s[|s| - |tail|..] == tail
  }

  ghost predicate AllTagged(docs: seq<JobSpec>, source: string, generator: string, names: seq<string>) {
    forall i :: 0 <= i < |docs| ==> Tags(docs[i], source, generator, names)
  }

  predicate NonEmptyNames(names: seq<string>) {
    forall i :: 0 <= i < |names| ==> names[i] != ""
  }

  lemma {:induction false} JobGroupsNonEmpty(groups: seq<Group>, r: Ref)
    ensures NonEmptyNames(JobGroups(groups, r))
  {
    var names := JobGroups(groups, r);
    forall i | 0 <= i < |names| ensures names[i] != "" {
      JobGroupsIff(groups, r, names[i]);
      assert names[i] in names;
    }
  }

  ghost predicate DistinctRefs(refs: seq<Ref>) {
    forall i, j :: 0 <= i < j < |refs| ==> refs[i] != refs[j]
  }

  lemma {:induction false} NamesForOnce(name: string, members: seq<Ref>, r: Ref)
    requires DistinctRefs(members) && r in members && name != ""
    ensures NamesFor(name, members, r) == [name]
    decreases |members|
  {
    NamesForIff(name, members[1..], r, name);
    if members[0] != r { NamesForOnce(name, members[1..], r); }
  }

  lemma {:induction false} InheritedGroups(names: seq<string>, members: seq<Ref>, r: Ref)
    requires DistinctRefs(members) && r in members && NonEmptyNames(names)
    ensures JobGroups(Inherited(names, members), r) == names
    decreases |names|
  {
    if names != [] {
      NamesForOnce(names[0], members, r);
      assert Inherited(names, members)[1..] == Inherited(names[1..], members);
      InheritedGroups(names[1..], members, r);
    }
  }

  /** A generated job's groups are its own, the generator's, and the source's, in that order. */
  lemma {:induction false} TaggedGroupsAre(groups: seq<Group>, members: seq<Ref>, generator: string, names: seq<string>, r: Ref)
    requires DistinctRefs(members) && r in members && generator != "" && NonEmptyNames(names)
    ensures JobGroups(groups + [Group(generator, members)] + Inherited(names, members), r) == JobGroups(groups, r) + [generator] + names
  {
    var own := Group(generator, members);
    JobGroupsAppend(groups + [own], Inherited(names, members), r);
    JobGroupsAppend(groups, [own], r);
    NamesForOnce(generator, members, r);
    assert JobGroups([own], r) == NamesFor(generator, members, r) + JobGroups([], r);
    InheritedGroups(names, members, r);
  }

  lemma {:induction false} EndsWithAfter<T>(front: seq<T>, tail: seq<T>)
    ensures EndsWith(front + tail, tail)
  {
  }

  /** Unique ids in the document: no node is held twice. */
  lemma {:induction false} MembersDistinct(p: Plan, h: Heap)
    requires WellLinked(h) && InHeap(h, p.nodes) && UniqueIDs(PlanJobs(p, h))
    ensures DistinctRefs(PlanMembers(p, h))
  {
    var docs, members := PlanJobs(p, h), PlanMembers(p, h);
    DocsCarryIDs(p, h);
    forall i, j | 0 <= i < j < |members| ensures members[i] != members[j] {
      assert docs[i].id == h[members[i]].id && docs[j].id == h[members[j]].id;
    }
  }

  lemma {:induction false} OneTagged(groups: seq<Group>, members: seq<Ref>, generator: string, names: seq<string>, r: Ref)
    requires DistinctRefs(members) && r in members && generator != "" && NonEmptyNames(names)
    ensures EndsWith(JobGroups(groups + [Group(generator, members)] + Inherited(names, members), r), [generator] + names)
  {
    var own := JobGroups(groups, r);
    TaggedGroupsAre(groups, members, generator, names, r);
    assert own + [generator] + names == own + ([generator] + names);
    EndsWithAfter(own, [generator] + names);
  }

  lemma {:induction false} TaggedDocs(e: Plan, h: Heap, source: string, generator: string, names: seq<string>)
    requires WellLinked(h) && InHeap(h, e.nodes) && generator != "" && NonEmptyNames(names)
    requires forall r :: r in Members(h, e.nodes) && r < |h| ==> source in h[r].needs
    requires UniqueIDs(PlanJobs(Tagged(e, h, generator, names), h))
    ensures AllTagged(PlanJobs(Tagged(e, h, generator, names), h), source, generator, names)
  {
    var q := Tagged(e, h, generator, names);
    var docs, members := PlanJobs(q, h), Members(h, e.nodes);
    MembersDistinct(q, h);
    RootDocsRender(q.groups, q.jobArgs, h, q.nodes);
    forall i | 0 <= i < |docs| ensures Tags(docs[i], source, generator, names) {
      assert members[i] in members;
      OneTagged(e.groups, members, generator, names, members[i]);
    }
  }

  /** An expansion ready to be checked: its own nodes, beyond the old heap, all tagged. */
  ghost predicate Proposal(e: Plan, base: nat, h: Heap, source: string, generator: string, names: seq<string>) {
    && WellLinked(h) && AllWellFormed(h) && InRange(base, |h|, e.nodes) && Indexed(e, h)
    && GroupsInRange(base, |h|, e.groups)
    && DeclsShown(e, h)
    && AllTagged(PlanJobs(e, h), source, generator, names)
  }

  lemma {:induction false} TaggedGroupsInRange(e: Plan, base: nat, h: Heap, generator: string, names: seq<string>)
    requires WellLinked(h) && InRange(base, |h|, e.nodes) && GroupsInRange(base, |h|, e.groups)
    ensures GroupsInRange(base, |h|, Tagged(e, h, generator, names).groups)
  {
    var members := Members(h, e.nodes);
    var groups := Tagged(e, h, generator, names).groups;
    MembersFrom(base, h, e.nodes);
    forall i | 0 <= i < |groups| ensures InRange(base, |h|, groups[i].members) {
      if i < |e.groups| {
        assert groups[i] == e.groups[i];
      } else {
        assert groups[i].members == members;
      }
    }
  }

  lemma {:induction false} TaggedProposal(e: Plan, base: nat, h: Heap, source: string, generator: string, names: seq<string>)
    requires WellLinked(h) && AllWellFormed(h) && InRange(base, |h|, e.nodes) && Indexed(e, h)
    requires GroupsInRange(base, |h|, e.groups) && DeclsIndexed(e)
    requires generator != "" && NonEmptyNames(names)
    requires forall r :: r in Members(h, e.nodes) && r < |h| ==> source in h[r].needs
    requires UniqueIDs(PlanJobs(Tagged(e, h, generator, names), h))
    ensures Proposal(Tagged(e, h, generator, names), base, h, source, generator, names)
  {
    var q := Tagged(e, h, generator, names);
    TaggedGroupsInRange(e, base, h, generator, names);
    TaggedDocs(e, h, source, generator, names);
    FinishedDeclsShown(e.(groups := q.groups), h);
    SameIndexed(e, q, h);
  }

  lemma {:induction false} SameIndexed(p: Plan, q: Plan, h: Heap)
    requires InHeap(h, p.nodes) && Indexed(p, h) && q.nodes == p.nodes && q.byID == p.byID
    ensures InHeap(h, q.nodes) && Indexed(q, h)
  {
    forall id | id in q.byID ensures IDAmong(h, q.nodes, id) {
      assert IDAmong(h, p.nodes, id);
    }
  }

  lemma {:induction false} NeedingNeeds(w: World, base: nat, source: string, h: Heap)
    requires Own(base, w) && h == Needing(w, base, source)
    ensures WellLinked(h) && AllWellFormed(h) && |h| == |w.heap| && InHeap(h, w.plan.nodes)
    ensures forall r :: r in Members(h, w.plan.nodes) && r < |h| ==> source in h[r].needs
    ensures forall r :: 0 <= r < |h| ==> h[r].id == w.heap[r].id
  {
  }

  lemma {:induction false} TaggedIsProposal(w: World, base: nat, source: string, generator: string, names: seq<string>, h: Heap)
    requires Own(base, w) && generator != "" && NonEmptyNames(names)
    requires h == Needing(w, base, source) && UniqueIDs(PlanJobs(Tagged(w.plan, h, generator, names), h))
    ensures Proposal(Tagged(w.plan, h, generator, names), base, h, source, generator, names)
  {
    NeedingNeeds(w, base, source, h);
    ProposalOverSameIDs(w, base, source, generator, names, h);
  }

  lemma {:induction false} ProposalOverSameIDs(w: World, base: nat, source: string, generator: string, names: seq<string>, h: Heap)
    requires Own(base, w) && generator != "" && NonEmptyNames(names)
    requires WellLinked(h) && AllWellFormed(h) && |h| == |w.heap| && InHeap(h, w.plan.nodes)
    requires forall r :: r in Members(h, w.plan.nodes) && r < |h| ==> source in h[r].needs
    requires forall r :: 0 <= r < |h| ==> h[r].id == w.heap[r].id
    requires UniqueIDs(PlanJobs(Tagged(w.plan, h, generator, names), h))
    ensures Proposal(Tagged(w.plan, h, generator, names), base, h, source, generator, names)
  {
    IndexedSameIDs(w.plan, w.heap, h);
    TaggedProposal(w.plan, base, h, source, generator, names);
  }

  // ---------------------------------------------------------------- acceptance makes the merge safe

  lemma {:induction false} SplitIDs(a: seq<JobSpec>, b: seq<JobSpec>, id: string)
    requires UniqueIDs(a + b)
    ensures !(Shown(a, id) && Shown(b, id))
    ensures UniqueIDs(a) && UniqueIDs(b)
  {
    var all := a + b;
    forall i, j | 0 <= i < j < |a| ensures a[i].id != a[j].id { assert all[i] == a[i] && all[j] == a[j]; }
    forall i, j | 0 <= i < j < |b| ensures b[i].id != b[j].id { assert all[|a| + i] == b[i] && all[|a| + j] == b[j]; }
    forall i, j | 0 <= i < |a| && 0 <= j < |b| ensures a[i].id != b[j].id {
      assert all[i] == a[i] && all[|a| + j] == b[j];
    }
  }

  /** Groups over other nodes and declarations about other ids are foreign. */
  lemma {:induction false} ForeignByRange(p: Plan, q: Plan, h: Heap, low: nat, high: nat)
    requires WellLinked(h) && InHeap(h, p.nodes) && InHeap(h, q.nodes)
    requires InHeap(h, PlanMembers(p, h))
    requires forall i :: 0 <= i < |PlanMembers(p, h)| ==> !(low <= PlanMembers(p, h)[i] < high)
    requires GroupsInRange(low, high, q.groups) && DeclsShown(q, h)
    requires forall id :: !(Shown(PlanJobs(p, h), id) && Shown(PlanJobs(q, h), id))
    ensures Foreign(PlanMembers(p, h), h, q.groups, q.jobArgs)
  {
    var members := PlanMembers(p, h);
    forall i | 0 <= i < |members| ensures Ungrouped(q.groups, members[i]) && Undeclared(q.jobArgs, h[members[i]].id) {
      ShownExactly(p, h, h[members[i]].id);
      assert IDAmong(h, members, h[members[i]].id);
    }
  }

  lemma {:induction false} AcceptedIsSeparate(p: Plan, base: nat, e: Plan, h: Heap, source: string, generator: string, names: seq<string>)
    requires base <= |h| && Live(p, h) && DeclsShown(p, h) && GroupsInRange(0, base, p.groups)
    requires InHeap(h, PlanMembers(p, h)) && InRange(0, base, PlanMembers(p, h))
    requires Proposal(e, base, h, source, generator, names)
    requires UniqueIDs(PlanJobs(p, h) + PlanJobs(e, h))
    ensures Separate(p, e, h)
  {
    MembersFrom(base, h, e.nodes);
    forall id ensures !(Shown(PlanJobs(p, h), id) && Shown(PlanJobs(e, h), id)) {
      SplitIDs(PlanJobs(p, h), PlanJobs(e, h), id);
    }
    ForeignByRange(p, e, h, base, |h|);
    ForeignByRange(e, p, h, 0, base);
  }

  predicate DistinctRootIDs(h: Heap, roots: seq<Ref>)
    requires InHeap(h, roots)
  {
    forall i, j :: 0 <= i < j < |roots| ==> h[roots[i]].id != h[roots[j]].id
  }

  lemma {:induction false} RegisterRootsExactly(byID: map<string, Ref>, h: Heap, roots: seq<Ref>)
    requires InHeap(h, roots) && DistinctRootIDs(h, roots)
    ensures forall i :: 0 <= i < |roots| ==> h[roots[i]].id in RegisterRoots(byID, h, roots) && RegisterRoots(byID, h, roots)[h[roots[i]].id] == roots[i]
    ensures forall id :: id in byID && !IDAmong(h, roots, id) ==> id in RegisterRoots(byID, h, roots) && RegisterRoots(byID, h, roots)[id] == byID[id]
    ensures forall id :: id in RegisterRoots(byID, h, roots) ==> id in byID || IDAmong(h, roots, id)
    decreases |roots|
  {
    if roots != [] {
      var root, rest := roots[0], roots[1..];
      RegisterRootsExactly(byID[h[root].id := root], h, rest);
      assert !IDAmong(h, rest, h[root].id);
      forall id ensures IDAmong(h, roots, id) <==> h[root].id == id || IDAmong(h, rest, id) {
        assert [root] + rest == roots;
        if IDAmong(h, rest, id) { IDAmongEither(h, [root], rest, id); }
        if IDAmong(h, roots, id) {
          var i :| 0 <= i < |roots| && h[roots[i]].id == id;
          if i > 0 { assert rest[i - 1] == roots[i]; }
        }
        if h[root].id == id { assert h[roots[0]].id == id; }
      }
      forall i | 0 <= i < |roots|
        ensures h[roots[i]].id in RegisterRoots(byID, h, roots) && RegisterRoots(byID, h, roots)[h[roots[i]].id] == roots[i]
      {
        if i > 0 { assert rest[i - 1] == roots[i]; }
      }
    }
  }

  /** Unique ids in the document are unique ids among the roots. */
  lemma {:induction false} UniqueRootIDs(groups: seq<Group>, decls: seq<ArgsDecl>, h: Heap, roots: seq<Ref>)
    requires WellLinked(h) && InHeap(h, roots) && UniqueIDs(RootDocs(groups, decls, h, roots))
    ensures DistinctRootIDs(h, roots)
    decreases |roots|
  {
    if roots != [] {
      var root, rest := roots[0], roots[1..];
      var head, tail := ChainDocs(groups, decls, h, Some(root), ""), RootDocs(groups, decls, h, rest);
      assert RootDocs(groups, decls, h, roots) == head + tail;
      SplitIDs(head, tail, h[root].id);
      UniqueRootIDs(groups, decls, h, rest);
      assert head[0].id == h[root].id;
      forall j | 0 <= j < |rest| ensures h[rest[j]].id != h[root].id {
        RootIsShown(groups, decls, h, rest, j);
      }
      forall i, j | 0 <= i < j < |roots| ensures h[roots[i]].id != h[roots[j]].id {
        assert roots[j] == rest[j - 1];
        if i > 0 { assert roots[i] == rest[i - 1]; }
      }
    }
  }

  lemma {:induction false} RootIsShown(groups: seq<Group>, decls: seq<ArgsDecl>, h: Heap, roots: seq<Ref>, i: nat)
    requires WellLinked(h) && InHeap(h, roots) && i < |roots|
    ensures Shown(RootDocs(groups, decls, h, roots), h[roots[i]].id)
  {
    RootDocsRender(groups, decls, h, roots);
    RootIsMember(h, roots, i);
    var members, docs := Members(h, roots), RootDocs(groups, decls, h, roots);
    var m :| 0 <= m < |members| && members[m] == roots[i] && h[roots[i]].id == h[roots[i]].id;
    assert docs[m].id == h[roots[i]].id;
  }

  lemma {:induction false} DisjointRoots(p: Plan, e: Plan, h: Heap)
    requires WellLinked(h) && InHeap(h, p.nodes) && InHeap(h, e.nodes)
    requires UniqueIDs(PlanJobs(p, h) + PlanJobs(e, h))
    ensures forall i :: 0 <= i < |p.nodes| ==> !IDAmong(h, e.nodes, h[p.nodes[i]].id)
  {
    forall i | 0 <= i < |p.nodes| ensures !IDAmong(h, e.nodes, h[p.nodes[i]].id) {
      RootIsShown(p.groups, p.jobArgs, h, p.nodes, i);
      SplitIDs(PlanJobs(p, h), PlanJobs(e, h), h[p.nodes[i]].id);
      forall j | 0 <= j < |e.nodes| ensures h[e.nodes[j]].id != h[p.nodes[i]].id {
        RootIsShown(e.groups, e.jobArgs, h, e.nodes, j);
      }
    }
  }

  lemma {:induction false} RegisteredRoots(p: Plan, roots: seq<Ref>, h: Heap, q: Plan)
    requires InHeap(h, p.nodes) && InHeap(h, roots) && Indexed(p, h) && DistinctRootIDs(h, roots)
    requires forall i :: 0 <= i < |p.nodes| ==> !IDAmong(h, roots, h[p.nodes[i]].id)
    requires q.nodes == p.nodes + roots && q.byID == RegisterRoots(p.byID, h, roots)
    ensures forall i :: 0 <= i < |q.nodes| ==> h[q.nodes[i]].id in q.byID && q.byID[h[q.nodes[i]].id] == q.nodes[i]
  {
    RegisterRootsExactly(p.byID, h, roots);
    forall i | 0 <= i < |q.nodes| ensures h[q.nodes[i]].id in q.byID && q.byID[h[q.nodes[i]].id] == q.nodes[i] {
      if i < |p.nodes| {
        assert q.nodes[i] == p.nodes[i];
      } else {
        assert q.nodes[i] == roots[i - |p.nodes|];
      }
    }
  }

  lemma {:induction false} OnlyRootsRegistered(p: Plan, roots: seq<Ref>, h: Heap, q: Plan, id: string)
    requires InHeap(h, p.nodes) && InHeap(h, roots) && Indexed(p, h) && DistinctRootIDs(h, roots)
    requires q.nodes == p.nodes + roots && q.byID == RegisterRoots(p.byID, h, roots) && id in q.byID
    ensures InHeap(h, q.nodes) && IDAmong(h, q.nodes, id)
  {
    RegisterRootsExactly(p.byID, h, roots);
    IDAmongEither(h, p.nodes, roots, id);
  }

  lemma {:induction false} RegisteredIndexed(p: Plan, roots: seq<Ref>, h: Heap, q: Plan)
    requires InHeap(h, p.nodes) && InHeap(h, roots) && Indexed(p, h) && DistinctRootIDs(h, roots)
    requires forall i :: 0 <= i < |p.nodes| ==> !IDAmong(h, roots, h[p.nodes[i]].id)
    requires q.nodes == p.nodes + roots && q.byID == RegisterRoots(p.byID, h, roots)
    ensures InHeap(h, q.nodes) && Indexed(q, h)
  {
    RegisteredRoots(p, roots, h, q);
    forall id | id in q.byID ensures IDAmong(h, q.nodes, id) {
      OnlyRootsRegistered(p, roots, h, q, id);
    }
  }

  /** The merged plan's index holds exactly the roots of both plans. */
  lemma {:induction false} MergedIndexed(p: Plan, e: Plan, h: Heap, generator: string, jobs: seq<JobSpec>)
    requires WellLinked(h) && InHeap(h, p.nodes) && InHeap(h, e.nodes) && Indexed(p, h)
    requires UniqueIDs(PlanJobs(p, h) + PlanJobs(e, h))
    ensures Indexed(Merged(p, e, h, generator, jobs), h)
  {
    SplitIDs(PlanJobs(p, h), PlanJobs(e, h), "");
    UniqueRootIDs(e.groups, e.jobArgs, h, e.nodes);
    DisjointRoots(p, e, h);
    RegisteredIndexed(p, e.nodes, h, Merged(p, e, h, generator, jobs));
  }

  lemma {:induction false} ShownAfter(a: seq<JobSpec>, b: seq<JobSpec>, id: string)
    requires Shown(a, id) || Shown(b, id)
    ensures Shown(a + b, id)
  {
    if Shown(a, id) {
      var i :| 0 <= i < |a| && a[i].id == id;
      assert (a + b)[i].id == id;
    } else {
      var i :| 0 <= i < |b| && b[i].id == id;
      assert (a + b)[|a| + i].id == id;
    }
  }

  lemma {:induction false} GroupsInRangeAppend(a: seq<Group>, b: seq<Group>, low: nat, high: nat, high': nat)
    requires GroupsInRange(0, high, a) && GroupsInRange(low, high', b) && high <= high'
    ensures GroupsInRange(0, high', a + b)
  {
    var all := a + b;
    forall i | 0 <= i < |all| ensures InRange(0, high', all[i].members) {
      if i < |a| {
        assert all[i] == a[i] && InRange(0, high, a[i].members);
      } else {
        assert all[i] == b[i - |a|] && InRange(low, high', b[i - |a|].members);
      }
    }
  }

  ghost predicate AllShown(decls: seq<ArgsDecl>, docs: seq<JobSpec>) {
    forall i :: 0 <= i < |decls| ==> Shown(docs, decls[i].jobID)
  }

  lemma {:induction false} AllShownAppend(a: seq<ArgsDecl>, b: seq<ArgsDecl>, docsA: seq<JobSpec>, docsB: seq<JobSpec>)
    requires AllShown(a, docsA) && AllShown(b, docsB)
    ensures AllShown(a + b, docsA + docsB)
  {
    var all := a + b;
    forall i | 0 <= i < |all| ensures Shown(docsA + docsB, all[i].jobID) {
      if i < |a| { assert all[i] == a[i]; } else { assert all[i] == b[i - |a|]; }
      ShownAfter(docsA, docsB, all[i].jobID);
    }
  }

  /** The merged document, from the checks alone. */
  lemma {:induction false} AcceptedAppends(p: Plan, h: Heap, e: Plan, h': Heap, source: string, generator: string, names: seq<string>, jobs: seq<JobSpec>)
    requires Sound(p, h) && Grows(|h|, h, h') && Proposal(e, |h|, h', source, generator, names)
    requires InHeap(h', p.nodes) && UniqueIDs(PlanJobs(p, h') + PlanJobs(e, h'))
    ensures PlanJobs(Merged(p, e, h', generator, jobs), h') == PlanJobs(p, h) + PlanJobs(e, h')
    ensures PlanJobs(p, h') == PlanJobs(p, h)
  {
    GrownHeapSameJobs(p, h, h');
    MembersInHeap(h, p.nodes);
    AcceptedIsSeparate(p, |h|, e, h', source, generator, names);
    MergeCommutesExactly(p, e, h', generator, jobs);
  }

  lemma {:induction false} MergedLive(p: Plan, h: Heap, e: Plan, h': Heap, generator: string, jobs: seq<JobSpec>)
    requires Live(p, h) && Grows(|h|, h, h') && WellLinked(h') && AllWellFormed(h')
    requires InRange(|h|, |h'|, e.nodes) && GroupsInRange(|h|, |h'|, e.groups)
    requires UniqueIDs(PlanJobs(p, h') + PlanJobs(e, h'))
    ensures Live(Merged(p, e, h', generator, jobs), h')
  {
    IndexedSameIDs(p, h, h');
    MergedIndexed(p, e, h', generator, jobs);
    GroupsInRangeAppend(p.groups, e.groups, |h|, |h|, |h'|);
  }

  /** An accepted expansion appends its documents and keeps the plan sound. */
  lemma {:induction false} AcceptedMerges(p: Plan, h: Heap, e: Plan, h': Heap, source: string, generator: string, names: seq<string>, jobs: seq<JobSpec>)
    requires Sound(p, h) && Grows(|h|, h, h') && Proposal(e, |h|, h', source, generator, names)
    requires InHeap(h', p.nodes) && UniqueIDs(PlanJobs(p, h') + PlanJobs(e, h'))
    ensures Sound(Merged(p, e, h', generator, jobs), h')
    ensures PlanJobs(Merged(p, e, h', generator, jobs), h') == PlanJobs(p, h) + PlanJobs(e, h')
  {
    AcceptedAppends(p, h, e, h', source, generator, names, jobs);
    MergedLive(p, h, e, h', generator, jobs);
    AllShownAppend(p.jobArgs, e.jobArgs, PlanJobs(p, h), PlanJobs(e, h'));
  }
}
