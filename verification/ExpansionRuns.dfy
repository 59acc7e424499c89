/** Whole runs of evaluations: what every reachable plan still says about where each job came from. */
module ExpansionRuns {
  import opened Results
  import opened ClosureIds
  import opened PlanModel
  import opened ClosureDispatch
  import opened Expansion
  import opened ExpansionLaws

  // ---------------------------------------------------------------- one evaluation

  ghost predicate Refused(p: Plan, h: Heap, r: Expanded) {
    && r.plan == p && r.jobs.None?
    && Sound(p, h) && Sound(p, r.heap) && PlanJobs(p, r.heap) == PlanJobs(p, h)
  }

  ghost predicate Replayed(p: Plan, h: Heap, generator: string, r: Expanded) {
    r.plan == p && r.heap == h && generator in p.generated && r.jobs == Some(p.generated[generator])
  }

  /** The expansion's documents are added behind, tagged, and stored as the answer. */
  ghost predicate Accepted(p: Plan, h: Heap, source: Ref, generator: string, a: Attempt, r: Expanded, added: seq<JobSpec>)
    requires source < |h|
  {
    && generator !in p.generated
    && Sound(r.plan, r.heap) && Sound(p, h)
    && PlanJobs(r.plan, r.heap) == PlanJobs(p, h) + added
    && AllTagged(added, h[source].id, generator, JobGroups(p.groups, source))
    && r.jobs == Some(ForHost(a.coresAccepted, added))
    && r.plan.generated == p.generated[generator := ForHost(a.coresAccepted, added)]
  }

  lemma {:induction false} UniqueForHost(existing: seq<JobSpec>, docs: seq<JobSpec>, accepts: bool)
    ensures UniqueIDs(existing + ForHost(accepts, docs)) <==> UniqueIDs(existing + docs)
  {
    var a, b := existing + ForHost(accepts, docs), existing + docs;
    assert forall i :: 0 <= i < |b| ==> a[i].id == b[i].id;
  }

  ghost function AddedBy(p: Plan, h: Heap, source: Ref, generator: string, a: Attempt): seq<JobSpec>
    requires Live(p, h) && source < |h|
  {
    var built := Build(h, a.calls);
    var heap := Needing(built.world, |h|, h[source].id);
    PlanJobs(Tagged(built.world.plan, heap, generator, JobGroups(p.groups, source)), heap)
  }

  lemma {:induction false} CheckedIsAccepted(p: Plan, h: Heap, source: Ref, generator: string, a: Attempt, w: World, heap: Heap, e: Plan)
    requires Sound(p, h) && source < |h| && generator != "" && generator !in p.generated
    requires Own(|h|, w) && Grows(|h|, h, w.heap)
    requires heap == Needing(w, |h|, h[source].id) && e == Tagged(w.plan, heap, generator, JobGroups(p.groups, source))
    requires InHeap(heap, p.nodes) && Accepts(PlanJobs(p, heap), ForHost(a.coresAccepted, PlanJobs(e, heap)), a.otherRules)
    ensures var jobs := ForHost(a.coresAccepted, PlanJobs(e, heap));
            Accepted(p, h, source, generator, a, Expanded(Merged(p, e, heap, generator, jobs), heap, Some(jobs)), PlanJobs(e, heap))
  {
    var names, docs := JobGroups(p.groups, source), PlanJobs(e, heap);
    JobGroupsNonEmpty(p.groups, source);
    UniqueForHost(PlanJobs(p, heap), docs, a.coresAccepted);
    SplitIDs(PlanJobs(p, heap), docs, "");
    TaggedIsProposal(w, |h|, h[source].id, generator, names, heap);
    AcceptedMerges(p, h, e, heap, h[source].id, generator, names, ForHost(a.coresAccepted, docs));
  }

  /** The callback ran to its end without an error, and validation accepts what it built beside the live jobs. */
  ghost predicate Passes(p: Plan, h: Heap, source: Ref, generator: string, a: Attempt)
    requires Live(p, h) && source < |h|
  {
    && Build(h, a.calls).ok && !a.fails
    && Accepts(PlanJobs(p, h), ForHost(a.coresAccepted, AddedBy(p, h, source, generator, a)), a.otherRules)
  }

  lemma {:induction false} BuiltIsDecided(p: Plan, h: Heap, source: Ref, generator: string, a: Attempt)
    requires Sound(p, h) && source < |h| && generator != "" && generator !in p.generated
    requires Build(h, a.calls).ok && !a.fails
    ensures var r := Expand(p, h, source, generator, a);
            if Passes(p, h, source, generator, a) then Accepted(p, h, source, generator, a, r, AddedBy(p, h, source, generator, a))
            else Refused(p, h, r)
  {
    var built := Build(h, a.calls);
    var heap := Needing(built.world, |h|, h[source].id);
    var e := Tagged(built.world.plan, heap, generator, JobGroups(p.groups, source));
    GrownHeapSameJobs(p, h, heap);
    if Accepts(PlanJobs(p, heap), ForHost(a.coresAccepted, PlanJobs(e, heap)), a.otherRules) {
      CheckedIsAccepted(p, h, source, generator, a, built.world, heap, e);
    }
  }

  /**
   Which of the three it is: a generator that was merged replays; any other is accepted exactly when its
   callback succeeded and validation accepts the result; everything else is refused without a trace.
   */
  lemma {:induction false} ExpandIsAtomic(p: Plan, h: Heap, source: Ref, generator: string, a: Attempt)
    requires Sound(p, h) && source < |h| && generator != ""
    ensures var r := Expand(p, h, source, generator, a);
            if generator in p.generated then Replayed(p, h, generator, r)
            else if Passes(p, h, source, generator, a) then Accepted(p, h, source, generator, a, r, AddedBy(p, h, source, generator, a))
            else Refused(p, h, r)
  {
    if generator !in p.generated {
      if Build(h, a.calls).ok && !a.fails {
        BuiltIsDecided(p, h, source, generator, a);
      } else {
        GrownHeapSameJobs(p, h, Build(h, a.calls).world.heap);
      }
    }
  }

  // ---------------------------------------------------------------- what is refused

  ghost predicate Repeats(names: seq<string>) {
    exists i, j :: 0 <= i < j < |names| && names[i] == names[j]
  }

  /** A job under an empty id, or one that lists an empty need or group, or one of them twice. */
  ghost predicate Faulty(doc: JobSpec) {
    doc.id == "" || "" in doc.needs || Repeats(doc.needs) || "" in doc.groups || Repeats(doc.groups)
  }

  /** Two jobs of one list share an id. */
  ghost predicate SharesAnID(docs: seq<JobSpec>) {
    exists i, j :: 0 <= i < j < |docs| && docs[i].id == docs[j].id
  }

  /** A new job takes the id of a live one. */
  ghost predicate TakesAnID(existing: seq<JobSpec>, docs: seq<JobSpec>) {
    exists i, j :: 0 <= i < |existing| && 0 <= j < |docs| && existing[i].id == docs[j].id
  }

  ghost predicate BreaksARule(existing: seq<JobSpec>, docs: seq<JobSpec>) {
    SharesAnID(docs) || TakesAnID(existing, docs) || exists i :: 0 <= i < |docs| && Faulty(docs[i])
  }

  lemma {:induction false} DistinctExactly(names: seq<string>)
    ensures Distinct(names) <==> "" !in names && !Repeats(names)
  {
    if Distinct(names) {
      assert forall i :: 0 <= i < |names| ==> names[i] != "";
    }
  }

  lemma {:induction false} UniqueExactly(existing: seq<JobSpec>, docs: seq<JobSpec>)
    requires UniqueIDs(existing)
    ensures UniqueIDs(existing + docs) <==> !SharesAnID(docs) && !TakesAnID(existing, docs)
  {
    var all, n := existing + docs, |existing|;
    if SharesAnID(docs) {
      var i, j :| 0 <= i < j < |docs| && docs[i].id == docs[j].id;
      assert all[n + i].id == all[n + j].id;
    } else if TakesAnID(existing, docs) {
      var i, j :| 0 <= i < n && 0 <= j < |docs| && existing[i].id == docs[j].id;
      assert all[i].id == all[n + j].id;
    } else {
      forall i, j | 0 <= i < j < |all| ensures all[i].id != all[j].id {
        if i >= n { assert all[i] == docs[i - n] && all[j] == docs[j - n]; }
        else if j >= n { assert all[i] == existing[i] && all[j] == docs[j - n]; }
      }
    }
  }

  /** Validation accepts exactly what breaks none of the identifier rules, with or without the core requests. */
  lemma {:induction false} AcceptsExactly(existing: seq<JobSpec>, docs: seq<JobSpec>, accepts: bool, otherRules: bool)
    requires UniqueIDs(existing)
    ensures Accepts(existing, ForHost(accepts, docs), otherRules) <==> otherRules && !BreaksARule(existing, docs)
  {
    var sent := ForHost(accepts, docs);
    UniqueExactly(existing, docs);
    UniqueForHost(existing, docs, accepts);
    forall i | 0 <= i < |docs|
      ensures sent[i].id != "" && Distinct(sent[i].needs) && Distinct(sent[i].groups) <==> !Faulty(docs[i])
    {
      DistinctExactly(docs[i].needs);
      DistinctExactly(docs[i].groups);
    }
  }

  /**
   A generator not merged yet is refused exactly when its callback panics or fails, a generated job
   has a live or repeated id or a faulty name, or another rule of validation is broken.
   */
  lemma {:induction false} RefusedExactly(p: Plan, h: Heap, source: Ref, generator: string, a: Attempt)
    requires Sound(p, h) && source < |h| && generator != "" && generator !in p.generated
    ensures Refused(p, h, Expand(p, h, source, generator, a)) <==>
              || !Build(h, a.calls).ok || a.fails || !a.otherRules
              || BreaksARule(PlanJobs(p, h), AddedBy(p, h, source, generator, a))
  {
    ExpandIsAtomic(p, h, source, generator, a);
    AcceptsExactly(PlanJobs(p, h), AddedBy(p, h, source, generator, a), a.coresAccepted, a.otherRules);
  }

  /** What a callback built, up to its source's need, before the groups it inherits. */
  ghost predicate Builds(h: Heap, id: string, a: Attempt, e: Plan, heap: Heap)
    requires WellLinked(h) && AllWellFormed(h)
  {
    var built := Build(h, a.calls);
    built.ok && !a.fails && e == built.world.plan && heap == Needing(built.world, |h|, id)
  }

  predicate Disjoint(a: seq<string>, b: seq<string>) {
    forall i :: 0 <= i < |a| ==> a[i] !in b
  }

  /** Own names, the generator and the source's names can stand side by side. */
  predicate Compatible(own: seq<string>, generator: string, names: seq<string>) {
    Distinct(own) && Distinct(names) && Disjoint(own, names) && generator != "" && generator !in own && generator !in names
  }

  lemma {:induction false} DistinctAppend(a: seq<string>, b: seq<string>)
    ensures Distinct(a + b) <==> Distinct(a) && Distinct(b) && Disjoint(a, b)
  {
    var all := a + b;
    if Distinct(all) {
      assert forall i :: 0 <= i < |a| ==> all[i] == a[i];
      forall i | 0 <= i < |b| ensures b[i] != "" && forall j :: i < j < |b| ==> b[i] != b[j] {
        assert all[|a| + i] == b[i];
        forall j | i < j < |b| ensures b[i] != b[j] { assert all[|a| + j] == b[j]; }
      }
      forall i | 0 <= i < |a| ensures a[i] !in b {
        forall j | 0 <= j < |b| ensures a[i] != b[j] { assert all[i] == a[i] && all[|a| + j] == b[j]; }
      }
    }
    if Distinct(a) && Distinct(b) && Disjoint(a, b) {
      forall i, j | 0 <= i < j < |all| ensures all[i] != all[j] {
        if i < |a| <= j { assert all[i] == a[i] && all[j] == b[j - |a|] && b[j - |a|] in b; }
      }
    }
  }

  lemma {:induction false} CompatibleExactly(own: seq<string>, generator: string, names: seq<string>)
    ensures Distinct(own + [generator] + names) <==> Compatible(own, generator, names)
  {
    var front := own + [generator];
    DistinctAppend(own, [generator]);
    DistinctAppend(front, names);
    assert forall i :: 0 <= i < |own| ==> front[i] == own[i];
    assert front[|own|] == generator;
  }

  ghost predicate RepeatsAGroup(docs: seq<JobSpec>) {
    exists i :: 0 <= i < |docs| && !Distinct(docs[i].groups)
  }

  ghost predicate AllCompatible(groups: seq<Group>, refs: seq<Ref>, generator: string, names: seq<string>) {
    forall i :: 0 <= i < |refs| ==> Compatible(JobGroups(groups, refs[i]), generator, names)
  }

  lemma {:induction false} DocGroupsAre(e: Plan, heap: Heap, generator: string, names: seq<string>, i: nat)
    requires WellLinked(heap) && InHeap(heap, e.nodes) && generator != "" && NonEmptyNames(names)
    requires DistinctRefs(Members(heap, e.nodes)) && i < |Members(heap, e.nodes)|
    ensures var docs := PlanJobs(Tagged(e, heap, generator, names), heap);
            |docs| == |Members(heap, e.nodes)| && docs[i].groups == JobGroups(e.groups, Members(heap, e.nodes)[i]) + [generator] + names
  {
    var q, members := Tagged(e, heap, generator, names), Members(heap, e.nodes);
    RootDocsRender(q.groups, q.jobArgs, heap, q.nodes);
    assert members[i] in members;
    TaggedGroupsAre(e.groups, members, generator, names, members[i]);
  }

  /** No generated job lists a group twice exactly if the groups the callback gave each of them fit the tag. */
  lemma {:induction false} RepeatsExactly(e: Plan, heap: Heap, generator: string, names: seq<string>, docs: seq<JobSpec>, members: seq<Ref>)
    requires WellLinked(heap) && InHeap(heap, e.nodes) && generator != "" && NonEmptyNames(names)
    requires docs == PlanJobs(Tagged(e, heap, generator, names), heap) && UniqueIDs(docs) && members == Members(heap, e.nodes)
    ensures RepeatsAGroup(docs) <==> !AllCompatible(e.groups, members, generator, names)
  {
    MembersDistinct(Tagged(e, heap, generator, names), heap);
    DocsCarryIDs(Tagged(e, heap, generator, names), heap);
    forall i | 0 <= i < |docs| ensures Distinct(docs[i].groups) <==> Compatible(JobGroups(e.groups, members[i]), generator, names) {
      DocGroupsAre(e, heap, generator, names, i);
      CompatibleExactly(JobGroups(e.groups, members[i]), generator, names);
    }
  }

  lemma {:induction false} SharedIsIncompatible(groups: seq<Group>, members: seq<Ref>, generator: string, names: seq<string>, r: Ref, name: string)
    requires r in members && name in JobGroups(groups, r) && name in names
    ensures !AllCompatible(groups, members, generator, names)
  {
    var i :| 0 <= i < |members| && members[i] == r;
    var own := JobGroups(groups, r);
    var k :| 0 <= k < |own| && own[k] == name;
    assert own[k] in names;
  }

  lemma {:induction false} RepeatIsNotAccepted(existing: seq<JobSpec>, docs: seq<JobSpec>, accepts: bool, otherRules: bool)
    requires RepeatsAGroup(docs)
    ensures !Accepts(existing, ForHost(accepts, docs), otherRules)
  {
    var i :| 0 <= i < |docs| && !Distinct(docs[i].groups);
    assert ForHost(accepts, docs)[i].groups == docs[i].groups;
  }

  /** A callback that groups one of its jobs under a name its source is also grouped under is always refused. */
  lemma {:induction false} SharedGroupIsRefused(p: Plan, h: Heap, source: Ref, generator: string, a: Attempt, e: Plan, heap: Heap, r: Ref, name: string)
    requires Sound(p, h) && source < |h| && generator != "" && generator !in p.generated
    requires Builds(h, h[source].id, a, e, heap)
    requires InHeap(heap, e.nodes) && r in Members(heap, e.nodes)
    requires name in JobGroups(e.groups, r) && name in JobGroups(p.groups, source)
    ensures Refused(p, h, Expand(p, h, source, generator, a))
  {
    var names := JobGroups(p.groups, source);
    var docs := PlanJobs(Tagged(e, heap, generator, names), heap);
    GrownHeapSameJobs(p, h, heap);
    JobGroupsNonEmpty(p.groups, source);
    if UniqueIDs(PlanJobs(p, heap) + ForHost(a.coresAccepted, docs)) {
      UniqueForHost(PlanJobs(p, heap), docs, a.coresAccepted);
      SplitIDs(PlanJobs(p, heap), docs, "");
      SharedIsIncompatible(e.groups, Members(heap, e.nodes), generator, names, r, name);
      RepeatsExactly(e, heap, generator, names, docs, Members(heap, e.nodes));
      RepeatIsNotAccepted(PlanJobs(p, heap), docs, a.coresAccepted, a.otherRules);
    }
  }

  // ---------------------------------------------------------------- the history of a plan

  /** One merged expansion. */
  datatype Merge = Merge(generator: string, docs: seq<JobSpec>)

  function AllDocs(initial: seq<JobSpec>, log: seq<Merge>): seq<JobSpec> {
    if log == [] then initial else AllDocs(initial, log[..|log| - 1]) + log[|log| - 1].docs
  }

  ghost predicate DeclaredAt(docs: seq<JobSpec>, s: nat, generator: string) {
    s < |docs| && generator in docs[s].closures.generate
  }

  ghost predicate ComesFrom(docs: seq<JobSpec>, s: nat, m: Merge) {
    DeclaredAt(docs, s, m.generator) && AllTagged(m.docs, docs[s].id, m.generator, docs[s].groups)
  }

  /** Each merge has a source among the jobs shown before it, and no generator merged twice. */
  ghost predicate GoodLog(initial: seq<JobSpec>, log: seq<Merge>) {
    log == [] ||
    var earlier, last := log[..|log| - 1], log[|log| - 1];
    && GoodLog(initial, earlier)
    && (forall i :: 0 <= i < |earlier| ==> earlier[i].generator != last.generator)
    && exists s :: ComesFrom(AllDocs(initial, earlier), s, last)
  }

  ghost predicate StoredAs(generated: map<string, seq<JobSpec>>, m: Merge) {
    && m.generator in generated && |generated[m.generator]| == |m.docs|
    && forall i :: 0 <= i < |m.docs| ==> generated[m.generator][i].(cores := None) == m.docs[i].(cores := None)
  }

  ghost predicate InLog(log: seq<Merge>, generator: string) {
    exists i :: 0 <= i < |log| && log[i].generator == generator
  }

  ghost predicate Stored(generated: map<string, seq<JobSpec>>, log: seq<Merge>) {
    && (forall i :: 0 <= i < |log| ==> StoredAs(generated, log[i]))
    && forall g :: g in generated ==> InLog(log, g)
  }

  datatype State = State(plan: Plan, heap: Heap, log: seq<Merge>)

  ghost predicate Valid(initial: seq<JobSpec>, s: State) {
    && Sound(s.plan, s.heap)
    && PlanJobs(s.plan, s.heap) == AllDocs(initial, s.log)
    && GoodLog(initial, s.log)
    && Stored(s.plan.generated, s.log)
  }

  /** A request names a closure; what its callback will do is part of the request. */
  datatype Request = Request(closure: string, attempt: Attempt)

  lemma {:induction false} FoundInHeap(p: Plan, h: Heap, id: string)
    requires Sound(p, h) && ClosureJob(p, h, id).Some?
    ensures ClosureJob(p, h, id).value < |h|
    ensures InHeap(h, PlanMembers(p, h)) && Holds(h, PlanMembers(p, h), ClosureJob(p, h, id).value, h[ClosureJob(p, h, id).value].id)
  {
    ClosureJobFindsExactly(p, h, id, ClosureJob(p, h, id).value);
  }

  /** The state after an expansion, with the merge recorded when there was one. */
  ghost function Expanding(s: State, source: Ref, generator: string, a: Attempt): State
    requires Live(s.plan, s.heap) && source < |s.heap|
  {
    var r := Expand(s.plan, s.heap, source, generator, a);
    State(r.plan, r.heap,
      if r.jobs.None? || generator in s.plan.generated then s.log
      else s.log + [Merge(generator, AddedBy(s.plan, s.heap, source, generator, a))])
  }

  /** Only a generator's closure can change the plan. */
  ghost function Eval(s: State, q: Request): State
    requires Sound(s.plan, s.heap)
  {
    var source := ClosureJob(s.plan, s.heap, q.closure);
    if source.None? then s else
      FoundInHeap(s.plan, s.heap, q.closure);
      if q.closure !in s.heap[source.value].generators then s
      else Expanding(s, source.value, q.closure, q.attempt)
  }

  /** What one evaluation answers: the jobs of a generator, or nothing. */
  ghost function Answer(s: State, q: Request): Option<seq<JobSpec>>
    requires Sound(s.plan, s.heap)
  {
    var source := ClosureJob(s.plan, s.heap, q.closure);
    if source.None? then None else
      FoundInHeap(s.plan, s.heap, q.closure);
      if q.closure !in s.heap[source.value].generators then None
      else Expand(s.plan, s.heap, source.value, q.closure, q.attempt).jobs
  }

  lemma {:induction false} AllDocsSnoc(initial: seq<JobSpec>, log: seq<Merge>, m: Merge)
    ensures AllDocs(initial, log + [m]) == AllDocs(initial, log) + m.docs
  {
    assert (log + [m])[..|log|] == log;
  }

  /** A member's place in the document, with its declared generators and groups. */
  lemma {:induction false} MemberIsShown(p: Plan, h: Heap, r: Ref, generator: string)
    requires WellLinked(h) && InHeap(h, p.nodes) && r < |h| && InHeap(h, PlanMembers(p, h))
    requires Holds(h, PlanMembers(p, h), r, h[r].id) && generator in h[r].generators
    ensures exists s: nat :: DeclaredAt(PlanJobs(p, h), s, generator) && PlanJobs(p, h)[s].id == h[r].id && PlanJobs(p, h)[s].groups == JobGroups(p.groups, r)
  {
    var docs, members := PlanJobs(p, h), PlanMembers(p, h);
    RootDocsRender(p.groups, p.jobArgs, h, p.nodes);
    var s :| 0 <= s < |members| && members[s] == r && h[r].id == h[r].id;
    assert DeclaredAt(docs, s, generator);
  }

  lemma {:induction false} GoodLogSnoc(initial: seq<JobSpec>, log: seq<Merge>, m: Merge, s: nat)
    requires GoodLog(initial, log) && !InLog(log, m.generator) && ComesFrom(AllDocs(initial, log), s, m)
    ensures GoodLog(initial, log + [m])
  {
    var all := log + [m];
    assert all[..|all| - 1] == log && all[|all| - 1] == m;
    assert forall i :: 0 <= i < |log| ==> log[i].generator != m.generator;
    assert ComesFrom(AllDocs(initial, all[..|all| - 1]), s, all[|all| - 1]);
  }

  lemma {:induction false} StoredSnoc(generated: map<string, seq<JobSpec>>, log: seq<Merge>, m: Merge, accepts: bool)
    requires Stored(generated, log) && m.generator !in generated
    ensures Stored(generated[m.generator := ForHost(accepts, m.docs)], log + [m])
    ensures !InLog(log, m.generator)
  {
    var generated' := generated[m.generator := ForHost(accepts, m.docs)];
    var log' := log + [m];
    assert forall i :: 0 <= i < |log| ==> StoredAs(generated, log[i]);
    forall i | 0 <= i < |log'| ensures StoredAs(generated', log'[i]) {
      if i < |log| { assert log'[i] == log[i]; }
    }
    forall g | g in generated' ensures InLog(log', g) {
      if g == m.generator {
        assert log'[|log|].generator == g;
      } else {
        assert InLog(log, g);
        var i :| 0 <= i < |log| && log[i].generator == g;
        assert log'[i].generator == g;
      }
    }
  }

  ghost predicate Keeps(generated: map<string, seq<JobSpec>>, generated': map<string, seq<JobSpec>>) {
    forall g :: g in generated ==> g in generated' && generated'[g] == generated[g]
  }

  lemma {:induction false} AcceptedKeepsValid(
    initial: seq<JobSpec>, s: State, source: Ref, generator: string, a: Attempt, r: Expanded, added: seq<JobSpec>)
    requires Valid(initial, s) && source < |s.heap|
    requires InHeap(s.heap, PlanMembers(s.plan, s.heap)) && Holds(s.heap, PlanMembers(s.plan, s.heap), source, s.heap[source].id)
    requires generator in s.heap[source].generators
    requires Accepted(s.plan, s.heap, source, generator, a, r, added)
    ensures Valid(initial, State(r.plan, r.heap, s.log + [Merge(generator, added)]))
    ensures Keeps(s.plan.generated, r.plan.generated)
  {
    var m, docs := Merge(generator, added), PlanJobs(s.plan, s.heap);
    AllDocsSnoc(initial, s.log, m);
    MemberIsShown(s.plan, s.heap, source, generator);
    var i: nat :| DeclaredAt(docs, i, generator) && docs[i].id == s.heap[source].id && docs[i].groups == JobGroups(s.plan.groups, source);
    StoredSnoc(s.plan.generated, s.log, m, a.coresAccepted);
    GoodLogSnoc(initial, s.log, m, i);
  }

  /** The outcomes an evaluation can have, seen from the history. */
  ghost predicate Steps(initial: seq<JobSpec>, s: State, s': State) {
    Valid(initial, s') && s.log <= s'.log && Keeps(s.plan.generated, s'.plan.generated)
  }

  lemma {:induction false} GeneratorIsNamed(h: Heap, r: Ref, generator: string)
    requires AllWellFormed(h) && r < |h| && generator in h[r].generators
    ensures generator != ""
  {
    var k :| 0 <= k < |h[r].generators| && h[r].generators[k] == generator;
    assert WellFormed(h[r]) && generator == ClosureID(h[r].id, "generate", k);
  }

  lemma {:induction false} ExpandSteps(initial: seq<JobSpec>, s: State, source: Ref, generator: string, a: Attempt)
    requires Valid(initial, s) && source < |s.heap|
    requires InHeap(s.heap, PlanMembers(s.plan, s.heap)) && Holds(s.heap, PlanMembers(s.plan, s.heap), source, s.heap[source].id)
    requires generator in s.heap[source].generators
    ensures Steps(initial, s, Expanding(s, source, generator, a))
  {
    GeneratorIsNamed(s.heap, source, generator);
    ExpandIsAtomic(s.plan, s.heap, source, generator, a);
    var r, added := Expand(s.plan, s.heap, source, generator, a), AddedBy(s.plan, s.heap, source, generator, a);
    if Accepted(s.plan, s.heap, source, generator, a, r, added) {
      AcceptedKeepsValid(initial, s, source, generator, a, r, added);
    }
  }

  /** The request names a generator of the plan. */
  ghost predicate NamesGenerator(s: State, q: Request)
    requires Sound(s.plan, s.heap)
  {
    var source := ClosureJob(s.plan, s.heap, q.closure);
    source.Some? && source.value < |s.heap| && q.closure in s.heap[source.value].generators
  }

  ghost predicate Replays(s: State, q: Request)
    requires Sound(s.plan, s.heap)
  {
    NamesGenerator(s, q) && q.closure in s.plan.generated
  }

  ghost predicate Merges(s: State, q: Request)
    requires Sound(s.plan, s.heap)
  {
    && NamesGenerator(s, q) && q.closure !in s.plan.generated
    && Passes(s.plan, s.heap, ClosureJob(s.plan, s.heap, q.closure).value, q.closure, q.attempt)
  }

  ghost function AddedFor(s: State, q: Request): seq<JobSpec>
    requires Sound(s.plan, s.heap) && NamesGenerator(s, q)
  {
    AddedBy(s.plan, s.heap, ClosureJob(s.plan, s.heap, q.closure).value, q.closure, q.attempt)
  }

  /** What an evaluation leaves and answers, decided by the state it found. */
  ghost predicate Decided(s: State, q: Request, answer: Option<seq<JobSpec>>, s': State) {
    && Sound(s.plan, s.heap) && Sound(s'.plan, s'.heap)
    && if Merges(s, q) then
         && s'.log == s.log + [Merge(q.closure, AddedFor(s, q))]
         && PlanJobs(s'.plan, s'.heap) == PlanJobs(s.plan, s.heap) + AddedFor(s, q)
         && answer == Some(ForHost(q.attempt.coresAccepted, AddedFor(s, q)))
       else
         && s'.plan == s.plan && s'.log == s.log && PlanJobs(s'.plan, s'.heap) == PlanJobs(s.plan, s.heap)
         && answer == if Replays(s, q) then Some(s.plan.generated[q.closure]) else None
  }

  lemma {:induction false} ExpandDecides(s: State, q: Request, source: Ref)
    requires Sound(s.plan, s.heap) && ClosureJob(s.plan, s.heap, q.closure) == Some(source)
    requires source < |s.heap| && q.closure in s.heap[source].generators
    ensures Decided(s, q, Expand(s.plan, s.heap, source, q.closure, q.attempt).jobs, Expanding(s, source, q.closure, q.attempt))
  {
    GeneratorIsNamed(s.heap, source, q.closure);
    ExpandIsAtomic(s.plan, s.heap, source, q.closure, q.attempt);
  }

  lemma {:induction false} OthersDecide(s: State, q: Request)
    requires Sound(s.plan, s.heap) && !NamesGenerator(s, q)
    ensures Decided(s, q, None, s)
  {
  }

  lemma {:induction false} EvalIsExpansion(s: State, q: Request, source: Ref)
    requires Sound(s.plan, s.heap) && ClosureJob(s.plan, s.heap, q.closure) == Some(source)
    requires source < |s.heap| && q.closure in s.heap[source].generators
    ensures Eval(s, q) == Expanding(s, source, q.closure, q.attempt)
    ensures Answer(s, q) == Expand(s.plan, s.heap, source, q.closure, q.attempt).jobs
  {
  }

  lemma {:induction false} EvalChangesNothing(s: State, q: Request)
    requires Sound(s.plan, s.heap) && !NamesGenerator(s, q)
    ensures Eval(s, q) == s && Answer(s, q) == None
  {
    if ClosureJob(s.plan, s.heap, q.closure).Some? { FoundInHeap(s.plan, s.heap, q.closure); }
  }

  /** A panic, a callback's error, a validation refusal, an unknown closure: none changes the plan, and none answers jobs. */
  lemma {:induction false} EvalDecides(s: State, q: Request)
    requires Sound(s.plan, s.heap)
    ensures Decided(s, q, Answer(s, q), Eval(s, q))
  {
    if NamesGenerator(s, q) {
      var source := ClosureJob(s.plan, s.heap, q.closure).value;
      EvalIsExpansion(s, q, source);
      ExpandDecides(s, q, source);
    } else {
      EvalChangesNothing(s, q);
      OthersDecide(s, q);
    }
  }

  /** Every evaluation, whatever its callback does, keeps the plan and its history valid. */
  lemma {:induction false} EvalKeepsValid(initial: seq<JobSpec>, s: State, q: Request)
    requires Valid(initial, s)
    ensures Steps(initial, s, Eval(s, q))
  {
    if NamesGenerator(s, q) {
      var source := ClosureJob(s.plan, s.heap, q.closure).value;
      FoundInHeap(s.plan, s.heap, q.closure);
      EvalIsExpansion(s, q, source);
      ExpandSteps(initial, s, source, q.closure, q.attempt);
    } else {
      EvalChangesNothing(s, q);
    }
  }

  // ---------------------------------------------------------------- every run

  /** The requests in order, first to last. */
  ghost function Exec(initial: seq<JobSpec>, s: State, requests: seq<Request>): (r: State)
    requires Valid(initial, s)
    ensures Valid(initial, r)
    decreases |requests|
  {
    if requests == [] then s else
      var n := |requests| - 1;
      var earlier := Exec(initial, s, requests[..n]);
      EvalKeepsValid(initial, earlier, requests[n]);
      Eval(earlier, requests[n])
  }

  /** The plan a pipeline declares, as planning accepts it. */
  ghost predicate Planned(p: Plan, h: Heap, calls: seq<Call>, otherRules: bool) {
    var built := Build([], calls);
    && built.ok && h == built.world.heap
    && p == WithRecoveryArgs(built.world.plan, h)
    && Accepts([], PlanJobs(p, h), otherRules)
  }

  lemma {:induction false} BuildingGeneratesNothing(base: nat, w: World, calls: seq<Call>)
    ensures Run(base, w, calls).world.plan.generated == w.plan.generated
    decreases |calls|
  {
    if calls != [] && Apply(base, w, calls[0]).Some? {
      BuildingGeneratesNothing(base, Apply(base, w, calls[0]).value, calls[1..]);
    }
  }

  lemma {:induction false} PlannedIsSound(p: Plan, h: Heap, calls: seq<Call>, otherRules: bool)
    requires Planned(p, h, calls, otherRules)
    ensures Sound(p, h) && p.generated == map[]
  {
    var built := Build([], calls);
    FinishedDeclsShown(built.world.plan, h);
    BuildingGeneratesNothing(0, World(EMPTY_PLAN, []), calls);
    assert [] + PlanJobs(p, h) == PlanJobs(p, h);
  }

  lemma {:induction false} SoundStartsValid(p: Plan, h: Heap)
    requires Sound(p, h) && p.generated == map[]
    ensures Valid(PlanJobs(p, h), State(p, h, []))
  {
  }

  /** What planning accepts is where every run starts: no history yet, and all of the invariant. */
  lemma {:induction false} PlannedIsValid(p: Plan, h: Heap, calls: seq<Call>, otherRules: bool)
    requires Planned(p, h, calls, otherRules)
    ensures Sound(p, h) && Valid(PlanJobs(p, h), State(p, h, []))
  {
    PlannedIsSound(p, h, calls, otherRules);
    SoundStartsValid(p, h);
  }

  lemma {:induction false} StepsCompose(initial: seq<JobSpec>, s: State, s': State, s'': State)
    requires Steps(initial, s, s') && Steps(initial, s', s'')
    ensures Steps(initial, s, s'')
  {
    var a, b := s.plan.generated, s'.plan.generated;
    assert Keeps(a, b) && Keeps(b, s''.plan.generated);
    forall g | g in a ensures g in s''.plan.generated && s''.plan.generated[g] == a[g] {
      assert g in b && b[g] == a[g];
    }
  }

  /**
   Over every run: the plan stays sound, its document is the declared jobs followed by the merged
   expansions, each generator merged at most once, and what is stored never changes.
   */
  lemma {:induction false} RunKeepsValid(initial: seq<JobSpec>, s: State, requests: seq<Request>)
    requires Valid(initial, s)
    ensures Steps(initial, s, Exec(initial, s, requests))
    decreases |requests|
  {
    if requests != [] {
      var n := |requests| - 1;
      var earlier := Exec(initial, s, requests[..n]);
      RunKeepsValid(initial, s, requests[..n]);
      EvalKeepsValid(initial, earlier, requests[n]);
      StepsCompose(initial, s, earlier, Exec(initial, s, requests));
    }
  }
}
