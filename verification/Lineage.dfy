/** Where generated jobs come from, over any depth of nested generation. */
module Lineage {
  import opened Results
  import opened ClosureIds
  import opened PlanModel
  import opened ClosureDispatch
  import opened Expansion
  import opened ExpansionLaws
  import opened ExpansionRuns

  /** Every listed generator id is its job's own. */
  ghost predicate OwnGenerators(docs: seq<JobSpec>) {
    forall i, g :: 0 <= i < |docs| && g in docs[i].closures.generate ==> GeneratorOf(docs[i].id, g)
  }

  ghost predicate GeneratorOf(job: Bytes, g: string) {
    exists k :: g == ClosureID(job, "generate", k)
  }

  lemma {:induction false} SoundOwnGenerators(p: Plan, h: Heap)
    requires Sound(p, h)
    ensures OwnGenerators(PlanJobs(p, h))
  {
    var docs, members := PlanJobs(p, h), PlanMembers(p, h);
    RootDocsRender(p.groups, p.jobArgs, h, p.nodes);
    forall i, g | 0 <= i < |docs| && g in docs[i].closures.generate ensures GeneratorOf(docs[i].id, g) {
      var n := h[members[i]];
      assert WellFormed(n);
      var k :| 0 <= k < |n.generators| && n.generators[k] == g;
      assert g == ClosureID(n.id, "generate", k);
    }
  }

  /** One job declares a generator. */
  lemma {:induction false} OneSource(docs: seq<JobSpec>, s: nat, s': nat, g: string)
    requires OwnGenerators(docs) && UniqueIDs(docs) && DeclaredAt(docs, s, g) && DeclaredAt(docs, s', g)
    ensures s == s'
  {
    assert GeneratorOf(docs[s].id, g) && GeneratorOf(docs[s'].id, g);
    var k :| g == ClosureID(docs[s].id, "generate", k);
    var k' :| g == ClosureID(docs[s'].id, "generate", k');
    ClosureIDInjective(docs[s].id, "generate", k, docs[s'].id, "generate", k');
  }

  /** Job t is one of those that merge k added. */
  ghost predicate InMerge(initial: seq<JobSpec>, log: seq<Merge>, k: nat, t: nat) {
    k < |log| && |AllDocs(initial, log[..k])| <= t < |AllDocs(initial, log[..k])| + |log[k].docs|
  }

  /** Job s declares the generator whose merge added job t. */
  ghost predicate Generates(initial: seq<JobSpec>, log: seq<Merge>, s: nat, g: string, t: nat) {
    && DeclaredAt(AllDocs(initial, log), s, g)
    && exists k :: 0 <= k < |log| && log[k].generator == g && InMerge(initial, log, k, t)
  }

  lemma {:induction false} EarlierDocs(initial: seq<JobSpec>, log: seq<Merge>, k: nat)
    requires k <= |log|
    ensures AllDocs(initial, log[..k]) <= AllDocs(initial, log)
    decreases |log|
  {
    if k == |log| {
      assert log[..k] == log;
    } else {
      EarlierDocs(initial, log[..|log| - 1], k);
      assert log[..|log| - 1][..k] == log[..k];
    }
  }

  lemma {:induction false} EarlierLogGood(initial: seq<JobSpec>, log: seq<Merge>, k: nat)
    requires k <= |log| && GoodLog(initial, log)
    ensures GoodLog(initial, log[..k])
    decreases |log|
  {
    if k == |log| {
      assert log[..k] == log;
    } else {
      EarlierLogGood(initial, log[..|log| - 1], k);
      assert log[..|log| - 1][..k] == log[..k];
    }
  }

  /** Merge k: its source stands before it, and its documents stand in the plan's document. */
  lemma {:induction false} MergeAt(initial: seq<JobSpec>, log: seq<Merge>, k: nat) returns (s: nat)
    requires k < |log| && GoodLog(initial, log)
    ensures s < |AllDocs(initial, log[..k])| && ComesFrom(AllDocs(initial, log), s, log[k])
    ensures AllDocs(initial, log[..k]) + log[k].docs <= AllDocs(initial, log)
  {
    var upTo := log[..k + 1];
    EarlierLogGood(initial, log, k + 1);
    EarlierDocs(initial, log, k);
    EarlierDocs(initial, log, k + 1);
    assert upTo[..k] == log[..k] && upTo[|upTo| - 1] == log[k];
    s :| ComesFrom(AllDocs(initial, log[..k]), s, log[k]);
  }

  /** A generated job stands behind its source, needs it, and its groups end with the generator and the source's groups. */
  lemma {:induction false} GeneratedIsTagged(initial: seq<JobSpec>, log: seq<Merge>, s: nat, g: string, t: nat)
    requires GoodLog(initial, log) && OwnGenerators(AllDocs(initial, log)) && UniqueIDs(AllDocs(initial, log))
    requires Generates(initial, log, s, g, t)
    ensures s < t < |AllDocs(initial, log)|
    ensures var docs := AllDocs(initial, log); Tags(docs[t], docs[s].id, g, docs[s].groups)
  {
    var docs := AllDocs(initial, log);
    var k :| 0 <= k < |log| && log[k].generator == g && InMerge(initial, log, k, t);
    var source := MergeAt(initial, log, k);
    OneSource(docs, s, source, g);
    var before := AllDocs(initial, log[..k]);
    assert docs[t] == (before + log[k].docs)[t] == log[k].docs[t - |before|];
  }

  /** Job 0 generates job 1, which generates job 2, and so on. */
  ghost predicate GenerationPath(initial: seq<JobSpec>, log: seq<Merge>, path: seq<nat>, gens: seq<string>) {
    && |path| == |gens| + 1
    && path[0] < |AllDocs(initial, log)|
    && forall i :: 0 <= i < |gens| ==> Generates(initial, log, path[i], gens[i], path[i + 1])
  }

  /** Job to shows every generator on the way, and its groups end with all those of job from. */
  ghost predicate Inherits(docs: seq<JobSpec>, from: nat, to: nat, gens: seq<string>) {
    && from < |docs| && to < |docs|
    && (forall name :: name in docs[from].groups ==> name in docs[to].groups)
    && (forall i :: 0 <= i < |gens| ==> gens[i] in docs[to].groups)
    && EndsWith(docs[to].groups, docs[from].groups)
  }

  lemma {:induction false} InheritStep(docs: seq<JobSpec>, from: nat, mid: nat, to: nat, gens: seq<string>, g: string)
    requires Inherits(docs, from, mid, gens) && to < |docs| && Tags(docs[to], docs[mid].id, g, docs[mid].groups)
    ensures Inherits(docs, from, to, gens + [g])
  {
    var first, middle, last := docs[from].groups, docs[mid].groups, docs[to].groups;
    assert last == last[..|last| - |middle| - 1] + ([g] + middle);
    assert middle == middle[..|middle| - |first|] + first;
    assert last[|last| - |first|..] == first;
    assert forall name :: name in middle ==> name in last;
  }

  /** Each job on the path needs the one before it, and stands behind it. */
  ghost predicate LinkedAt(docs: seq<JobSpec>, path: seq<nat>, i: nat) {
    i + 1 < |path| && path[i] < path[i + 1] < |docs| && docs[path[i]].id in docs[path[i + 1]].needs
  }

  ghost predicate Descends(docs: seq<JobSpec>, path: seq<nat>, gens: seq<string>) {
    && |path| == |gens| + 1
    && Inherits(docs, path[0], path[|gens|], gens)
    && forall i :: 0 <= i < |gens| ==> LinkedAt(docs, path, i)
  }

  lemma {:induction false} DescendStep(docs: seq<JobSpec>, path: seq<nat>, gens: seq<string>, g: string, t: nat)
    requires Descends(docs, path, gens) && path[|gens|] < t < |docs|
    requires Tags(docs[t], docs[path[|gens|]].id, g, docs[path[|gens|]].groups)
    ensures Descends(docs, path + [t], gens + [g])
  {
    InheritStep(docs, path[0], path[|gens|], t, gens, g);
    forall i | 0 <= i < |gens| + 1 ensures LinkedAt(docs, path + [t], i) {
      if i < |gens| { assert LinkedAt(docs, path, i); }
    }
  }

  lemma {:induction false} ShorterPath(initial: seq<JobSpec>, log: seq<Merge>, path: seq<nat>, gens: seq<string>)
    requires GenerationPath(initial, log, path, gens) && gens != []
    ensures GenerationPath(initial, log, path[..|gens|], gens[..|gens| - 1])
    ensures Generates(initial, log, path[|gens| - 1], gens[|gens| - 1], path[|gens|])
  {
    var n := |gens| - 1;
    assert Generates(initial, log, path[n], gens[n], path[n + 1]);
    forall i | 0 <= i < n ensures Generates(initial, log, path[..|gens|][i], gens[..n][i], path[..|gens|][i + 1]) {
      assert Generates(initial, log, path[i], gens[i], path[i + 1]);
    }
  }

  /**
   Along any path of nested generation the jobs stand in order, each needs the one before, and the last
   is in every generator's group on the way and in all the groups of the first.
   */
  lemma {:induction false} NestedGenerationInherits(initial: seq<JobSpec>, log: seq<Merge>, path: seq<nat>, gens: seq<string>)
    requires GoodLog(initial, log) && OwnGenerators(AllDocs(initial, log)) && UniqueIDs(AllDocs(initial, log))
    requires GenerationPath(initial, log, path, gens)
    ensures Descends(AllDocs(initial, log), path, gens)
    decreases |gens|
  {
    if gens != [] {
      var n := |gens| - 1;
      ShorterPath(initial, log, path, gens);
      NestedGenerationInherits(initial, log, path[..|gens|], gens[..n]);
      GeneratedIsTagged(initial, log, path[n], gens[n], path[n + 1]);
      DescendStep(AllDocs(initial, log), path[..|gens|], gens[..n], gens[n], path[n + 1]);
      assert gens == gens[..n] + [gens[n]] && path == path[..|gens|] + [path[n + 1]];
    }
  }

  lemma {:induction false} ValidInherits(initial: seq<JobSpec>, s: State, path: seq<nat>, gens: seq<string>)
    requires Valid(initial, s) && GenerationPath(initial, s.log, path, gens)
    ensures Descends(PlanJobs(s.plan, s.heap), path, gens)
  {
    SoundOwnGenerators(s.plan, s.heap);
    NestedGenerationInherits(initial, s.log, path, gens);
  }

  /** The same for the plan's own document, at any point of any run. */
  lemma {:induction false} EveryPlanInherits(
    initial: seq<JobSpec>, s: State, requests: seq<Request>, s': State, path: seq<nat>, gens: seq<string>)
    requires Valid(initial, s) && s' == Exec(initial, s, requests) && GenerationPath(initial, s'.log, path, gens)
    ensures Sound(s'.plan, s'.heap) && Descends(PlanJobs(s'.plan, s'.heap), path, gens)
  {
    RunKeepsValid(initial, s, requests);
    ValidInherits(initial, s', path, gens);
  }

  lemma {:induction false} MergedDocAt(initial: seq<JobSpec>, log: seq<Merge>, k: nat, j: nat)
    requires GoodLog(initial, log) && k < |log| && j < |log[k].docs|
    ensures |AllDocs(initial, log[..k])| + j < |AllDocs(initial, log)|
    ensures AllDocs(initial, log)[|AllDocs(initial, log[..k])| + j] == log[k].docs[j]
  {
    var source := MergeAt(initial, log, k);
    var before := AllDocs(initial, log[..k]);
    assert AllDocs(initial, log)[|before| + j] == (before + log[k].docs)[|before| + j];
  }

  ghost predicate CurrentUpToCores(docs: seq<JobSpec>, job: JobSpec) {
    exists t :: 0 <= t < |docs| && docs[t].(cores := None) == job.(cores := None)
  }

  lemma {:induction false} StoredMerge(generated: map<string, seq<JobSpec>>, log: seq<Merge>, g: string) returns (k: nat)
    requires Stored(generated, log) && g in generated
    ensures k < |log| && log[k].generator == g && StoredAs(generated, log[k])
  {
    assert InLog(log, g);
    k :| 0 <= k < |log| && log[k].generator == g;
  }

  /** Stored answers stay true: each job of a replay is the plan's current job, up to the core request. */
  lemma {:induction false} ReplayIsCurrent(initial: seq<JobSpec>, s: State, g: string, j: nat)
    requires Valid(initial, s) && g in s.plan.generated && j < |s.plan.generated[g]|
    ensures CurrentUpToCores(PlanJobs(s.plan, s.heap), s.plan.generated[g][j])
  {
    var k := StoredMerge(s.plan.generated, s.log, g);
    MergedDocAt(initial, s.log, k, j);
    var docs, t := PlanJobs(s.plan, s.heap), |AllDocs(initial, s.log[..k])| + j;
    assert docs[t] == s.log[k].docs[j];
  }

  lemma {:induction false} LogIsDistinct(initial: seq<JobSpec>, log: seq<Merge>, i: nat, j: nat)
    requires GoodLog(initial, log) && i < j < |log|
    ensures log[i].generator != log[j].generator
    decreases |log|
  {
    if j < |log| - 1 { LogIsDistinct(initial, log[..|log| - 1], i, j); }
  }
}
