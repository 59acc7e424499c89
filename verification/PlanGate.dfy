/** The gate around plan evaluations: what concurrent evaluations leave behind and answer. */
module PlanGate {
  import opened Results
  import opened PlanModel
  import opened ClosureDispatch
  import opened Expansion
  import opened ExpansionLaws
  import opened ExpansionRuns
  import opened Lineage
  import Gates = EvalGate

  type PlanAnswer = Option<seq<JobSpec>>

  /** One evaluation: the state it leaves and what it answers. */
  ghost function Evaluate(s: State, q: Request): (State, PlanAnswer) {
    if Sound(s.plan, s.heap) then (Eval(s, q), Answer(s, q)) else (s, None)
  }

  /** An answer's jobs are what the plan stores under the generator. */
  ghost predicate Remembered(s: State, q: Request, answer: PlanAnswer) {
    answer.Some? ==> q.closure in s.plan.generated && s.plan.generated[q.closure] == answer.value
  }

  lemma {:induction false} EvaluateRemembers(s: State, q: Request)
    ensures Remembered(Evaluate(s, q).0, q, Evaluate(s, q).1)
  {
    if Sound(s.plan, s.heap) && Answer(s, q).Some? {
      var source := ClosureJob(s.plan, s.heap, q.closure).value;
      FoundInHeap(s.plan, s.heap, q.closure);
      GeneratorIsNamed(s.heap, source, q.closure);
      ExpandIsAtomic(s.plan, s.heap, source, q.closure, q.attempt);
    }
  }

  /** One evaluation, from a plan reached by a run, reaches another such plan and forgets no answer. */
  lemma {:induction false} EvaluateSteps(initial: seq<JobSpec>, start: State, s: State, q: Request)
    ensures Steps(initial, start, s) ==> Steps(initial, start, Evaluate(s, q).0)
    ensures Steps(initial, start, s) ==> Keeps(s.plan.generated, Evaluate(s, q).0.plan.generated)
  {
    if Steps(initial, start, s) {
      EvalKeepsValid(initial, s, q);
      StepsCompose(initial, start, s, Eval(s, q));
    }
  }

  lemma {:induction false} KeepsRemembered(initial: seq<JobSpec>, start: State, s: State, q: Request, q': Request, answer: PlanAnswer)
    ensures Steps(initial, start, s) && Remembered(s, q', answer) ==> Remembered(Evaluate(s, q).0, q', answer)
  {
    EvaluateSteps(initial, start, s, q);
  }

  lemma {:induction false} StepsToItself(initial: seq<JobSpec>, s: State)
    requires Valid(initial, s)
    ensures Steps(initial, s, s)
  {
  }

  lemma {:induction false} SequentialIsReached(initial: seq<JobSpec>, start: State, requests: seq<Request>)
    requires Valid(initial, start)
    ensures Steps(initial, start, Gates.Sequentially(Evaluate, start, requests))
  {
    var keeps := (s: State) => Steps(initial, start, s);
    forall s, q | keeps(s) ensures keeps(Evaluate(s, q).0) {
      EvaluateSteps(initial, start, s, q);
    }
    StepsToItself(initial, start);
    Gates.SequentiallyKeeps(Evaluate, keeps, start, requests);
  }

  /** The plan stays sound, its document is the declared jobs and the merges, and nothing merged or stored is lost. */
  lemma {:induction false} InterleavedPlanIsValid(
    initial: seq<JobSpec>, start: State, requests: seq<Request>, events: seq<Gates.Event>, g: Gates.Gate<State, PlanAnswer>)
    requires Valid(initial, start) && Gates.Reaches(Evaluate, start, requests, events, g)
    ensures Steps(initial, start, g.state)
  {
    Gates.InterleavingIsSequential(Evaluate, start, requests, events, g);
    SequentialIsReached(initial, start, Gates.Written(requests, g.order));
  }

  /** No generator's expansion is merged twice, in any interleaving. */
  lemma {:induction false} MergedAtMostOnce(
    initial: seq<JobSpec>, start: State, requests: seq<Request>, events: seq<Gates.Event>, g: Gates.Gate<State, PlanAnswer>, i: nat, j: nat)
    requires Valid(initial, start) && Gates.Reaches(Evaluate, start, requests, events, g)
    requires i < j < |g.state.log|
    ensures g.state.log[i].generator != g.state.log[j].generator
  {
    InterleavedPlanIsValid(initial, start, requests, events, g);
    LogIsDistinct(initial, g.state.log, i, j);
  }

  /** Every evaluation that answered jobs finds them stored, whatever came after it. */
  lemma {:induction false} AnsweredIsStored(
    initial: seq<JobSpec>, start: State, requests: seq<Request>, events: seq<Gates.Event>, g: Gates.Gate<State, PlanAnswer>, i: nat)
    requires Valid(initial, start) && Gates.Reaches(Evaluate, start, requests, events, g)
    requires Gates.At(g, i) && i < |requests| && g.phases[i].Answered?
    ensures Remembered(g.state, requests[i], g.phases[i].answer)
  {
    var answer := g.phases[i].answer;
    Gates.InterleavingIsSequential(Evaluate, start, requests, events, g);
    assert Gates.HasTurn(Evaluate, start, requests, g.order, i, answer);
    var k: nat :| Gates.AnsweredAt(Evaluate, start, requests, g.order, k, i, answer);
    var keeps := (s: State) => Steps(initial, start, s);
    forall s, q | keeps(s) ensures keeps(Evaluate(s, q).0) {
      EvaluateSteps(initial, start, s, q);
    }
    forall s, q ensures Remembered(Evaluate(s, q).0, q, Evaluate(s, q).1) {
      EvaluateRemembers(s, q);
    }
    forall s, q, q' | keeps(s) && Remembered(s, q', answer) ensures Remembered(Evaluate(s, q).0, q', answer) {
      KeepsRemembered(initial, start, s, q, q', answer);
    }
    Gates.AnswerSurvives(Evaluate, keeps, Remembered, start, Gates.Written(requests, g.order), k, answer);
  }

  /** Two evaluations of one generator that both answer give the same jobs, in every interleaving. */
  lemma {:induction false} AnswersAgree(
    initial: seq<JobSpec>, start: State, requests: seq<Request>, events: seq<Gates.Event>, g: Gates.Gate<State, PlanAnswer>, i: nat, j: nat)
    requires Valid(initial, start) && Gates.Reaches(Evaluate, start, requests, events, g)
    requires Gates.At(g, i) && i < |requests| && g.phases[i].Answered? && g.phases[i].answer.Some?
    requires Gates.At(g, j) && j < |requests| && g.phases[j].Answered? && g.phases[j].answer.Some?
    requires requests[i].closure == requests[j].closure
    ensures g.phases[i].answer == g.phases[j].answer
  {
    AnsweredIsStored(initial, start, requests, events, g, i);
    AnsweredIsStored(initial, start, requests, events, g, j);
  }

  /** The answer of evaluation i is the one its turn decides: merged, replayed, or refused without a trace. */
  ghost predicate DecidedAt(start: State, requests: seq<Request>, g: Gates.Gate<State, PlanAnswer>, i: nat, k: nat)
    requires i < |requests| && Gates.At(g, i) && g.phases[i].Answered? && Gates.Ordered(requests, g.order) && k < |g.order|
  {
    var turns := Gates.Written(requests, g.order);
    && g.order[k] == i
    && Decided(Gates.Sequentially(Evaluate, start, turns[..k]), requests[i], g.phases[i].answer, Gates.Sequentially(Evaluate, start, turns[..k + 1]))
  }

  lemma {:induction false} EvaluateDecides(s: State, q: Request)
    requires Sound(s.plan, s.heap)
    ensures Decided(s, q, Evaluate(s, q).1, Evaluate(s, q).0)
  {
    EvalDecides(s, q);
  }

  lemma {:induction false} SequentialNext(start: State, turns: seq<Request>, k: nat)
    requires k < |turns|
    ensures Gates.Sequentially(Evaluate, start, turns[..k + 1]) == Evaluate(Gates.Sequentially(Evaluate, start, turns[..k]), turns[k]).0
  {
    assert turns[..k + 1][..k] == turns[..k];
  }

  lemma {:induction false} TurnDecides(initial: seq<JobSpec>, start: State, turns: seq<Request>, k: nat)
    requires Valid(initial, start) && k < |turns|
    ensures var s := Gates.Sequentially(Evaluate, start, turns[..k]);
            Decided(s, turns[k], Evaluate(s, turns[k]).1, Gates.Sequentially(Evaluate, start, turns[..k + 1]))
  {
    var s := Gates.Sequentially(Evaluate, start, turns[..k]);
    SequentialIsReached(initial, start, turns[..k]);
    SequentialNext(start, turns, k);
    EvaluateDecides(s, turns[k]);
  }

  /** In every interleaving, what an evaluation did and answered is decided by the plan at its turn. */
  lemma {:induction false} EveryAnswerIsDecided(
    initial: seq<JobSpec>, start: State, requests: seq<Request>, events: seq<Gates.Event>, g: Gates.Gate<State, PlanAnswer>, i: nat)
    returns (k: nat)
    requires Valid(initial, start) && Gates.Reaches(Evaluate, start, requests, events, g)
    requires Gates.At(g, i) && i < |requests| && g.phases[i].Answered?
    ensures Gates.Ordered(requests, g.order) && k < |g.order| && DecidedAt(start, requests, g, i, k)
  {
    Gates.InterleavingIsSequential(Evaluate, start, requests, events, g);
    assert Gates.HasTurn(Evaluate, start, requests, g.order, i, g.phases[i].answer);
    k :| Gates.AnsweredAt(Evaluate, start, requests, g.order, k, i, g.phases[i].answer);
    TurnDecides(initial, start, Gates.Written(requests, g.order), k);
  }

  /** Groups and needs pass down nested generation in the plan of every interleaving. */
  lemma {:induction false} InterleavedPlanInherits(
    initial: seq<JobSpec>, start: State, requests: seq<Request>, events: seq<Gates.Event>, g: Gates.Gate<State, PlanAnswer>,
    path: seq<nat>, gens: seq<string>)
    requires Valid(initial, start) && Gates.Reaches(Evaluate, start, requests, events, g)
    requires GenerationPath(initial, g.state.log, path, gens)
    ensures Sound(g.state.plan, g.state.heap) && Descends(PlanJobs(g.state.plan, g.state.heap), path, gens)
  {
    InterleavedPlanIsValid(initial, start, requests, events, g);
    ValidInherits(initial, g.state, path, gens);
  }
}
