/**
 The step protocol as a transition system: a host sends arbitrary run_step and step-condition eval
 requests while step bodies and predicates run, wait for each other's outputs and return.
 */
module StepProtocol {
  import opened Results
  import opened Reachability
  import opened Settlement

  /** How far an admitted request has come: RunStep's deferred calls settle, then finish. */
  datatype Phase = Predicate | Body | Returned | Settled

  /** Requests are told apart by number, so nothing but the protocol keeps two of one step from running at once. */
  type Request = nat

  datatype Activity = Activity(step: StepId, phase: Phase, attempt: int)

  /** A goroutine of a running request blocked in StepGet on the channel it took from the target. */
  datatype Waiter = Waiter(host: Request, target: StepId, chan: Chan)

  datatype Event =
    | BodyStarted(step: StepId, attempt: int)
    | PredicateStarted(step: StepId, attempt: int)
    | BodyReturned(step: StepId, attempt: int, out: Option<Output>)
    | Finished(step: StepId, attempt: int)

  datatype Run = Run(w: WorkState, running: map<Request, Activity>, next: Request, waiting: set<Waiter>, log: seq<Event>)

  datatype Action =
    | RunStep(attempt: int, step: StepId, settled: Option<seq<StepId>>)
    | EvalSkip(attempt: int, step: StepId, settled: Option<seq<StepId>>)
    | BodyReturns(request: Request, out: Option<Output>)
    | DeferredSettle(request: Request)
    | Finish(request: Request)
    | Await(request: Request, target: StepId)
    | Wake(waiter: Waiter)
    | GiveUp(waiter: Waiter)

  predicate In(r: Run, q: Request, phases: set<Phase>) {
    q in r.running && r.running[q].phase in phases && r.running[q].step in r.w.cells
  }

  predicate Enabled(r: Run, a: Action) {
    match a
    case RunStep(_, step, _) => step in r.w.cells
    case EvalSkip(_, step, _) => step in r.w.cells
    case BodyReturns(q, _) => In(r, q, {Body})
    case DeferredSettle(q) => In(r, q, {Body, Returned})
    case Finish(q) => In(r, q, {Predicate, Settled})
    case Await(q, target) => In(r, q, {Predicate, Body}) && target in r.w.cells
    case Wake(waiter) => waiter in r.waiting && waiter.chan in r.w.closed
    case GiveUp(waiter) => waiter in r.waiting
  }

  function Started(phase: Phase, step: StepId, attempt: int): Event {
    if phase == Predicate then PredicateStarted(step, attempt) else BodyStarted(step, attempt)
  }

  ghost function Admit(r: Run, phase: Phase, attempt: int, step: StepId, settled: Option<seq<StepId>>): Run
    requires step in r.w.cells
  {
    match Begin(r.w, attempt, step, settled)
    case Err(_) => r
    case Ok(w) =>
      Run(w, r.running[r.next := Activity(step, phase, attempt)], r.next + 1, r.waiting, r.log + [Started(phase, step, attempt)])
  }

  /** The request's step is marked done and the request moves on. */
  function Resolve(r: Run, q: Request, out: Option<Output>, phase: Phase): Run
    requires q in r.running && r.running[q].step in r.w.cells
  {
    r.(w := MarkDone(r.w, r.running[q].step, out), running := r.running[q := r.running[q].(phase := phase)])
  }

  ghost function Step(r: Run, a: Action): Run
    requires Enabled(r, a)
  {
    match a
    case RunStep(attempt, step, settled) => Admit(r, Body, attempt, step, settled)
    case EvalSkip(attempt, step, settled) => Admit(r, Predicate, attempt, step, settled)
    case BodyReturns(q, out) =>
      Resolve(r, q, out, Returned).(log := r.log + [BodyReturned(r.running[q].step, r.running[q].attempt, out)])
    case DeferredSettle(q) => Resolve(r, q, None, Settled)
    case Finish(q) =>
      Run(FinishStep(r.w, r.running[q].step), r.running - {q}, r.next, (set x | x in r.waiting && x.host != q),
          r.log + [Finished(r.running[q].step, r.running[q].attempt)])
    case Await(q, target) =>
      var (w, c) := AwaitDone(r.w, target);
      if c == None then r else r.(w := w, waiting := r.waiting + {Waiter(q, target, c.value)})
    case Wake(waiter) => r.(waiting := r.waiting - {waiter})
    case GiveUp(waiter) => r.(waiting := r.waiting - {waiter})
  }

  predicate Initial(r: Run) {
    && r.w == WorkState(r.w.needs, map id | id in r.w.needs :: Cell(false, None, None), 0, {}, {}, [])
    && r.running == map[] && r.next == 0 && r.waiting == {} && r.log == []
  }

  // ---------------------------------------------------------------- invariant of every state

  ghost predicate Runs(r: Run, s: StepId) {
    exists q :: q in r.running && r.running[q].step == s
  }

  /** The phase says whether the request's step is resolved. */
  ghost predicate RequestOk(r: Run, q: Request)
    requires q in r.running
  {
    var x := r.running[q];
    && q < r.next && x.step in r.w.cells && x.step in r.w.active && x.attempt == r.w.attempt
    && (r.w.cells[x.step].resolved <==> x.phase in {Returned, Settled})
  }

  /** The active set is exactly the steps of the running requests, each step with one request only. */
  ghost predicate RunningOk(r: Run) {
    && (forall q :: q in r.running ==> RequestOk(r, q))
    && (forall s :: s in r.w.active ==> Runs(r, s))
    && forall p, q :: p in r.running && q in r.running && r.running[p].step == r.running[q].step ==> p == q
  }

  /** A waiter of a running request holds the channel its target will close, never a dropped one. */
  ghost predicate WaitersOk(r: Run) {
    forall x :: x in r.waiting ==>
      x.host in r.running && x.target in r.w.cells && r.w.cells[x.target].done == Some(x.chan)
  }

  /** Every stored output was returned by a body that started in the current attempt. */
  ghost predicate OutputsOk(r: Run) {
    forall s :: s in r.w.cells && r.w.cells[s].out.Some? ==>
      && BodyReturned(s, r.w.attempt, r.w.cells[s].out) in r.log
      && BodyStarted(s, r.w.attempt) in r.log
  }

  ghost predicate RunsBody(r: Run, s: StepId) {
    exists q :: q in r.running && r.running[q].step == s && r.running[q].phase != Predicate
  }

  ghost predicate StartsOk(r: Run) {
    && (forall e :: e in r.log ==> e.attempt <= r.w.attempt)
    && (forall q :: q in r.running && r.running[q].phase != Predicate ==> BodyStarted(r.running[q].step, r.w.attempt) in r.log)
    && (forall s :: BodyStarted(s, r.w.attempt) in r.log ==> s in r.w.cells && (r.w.cells[s].resolved || RunsBody(r, s)))
  }

  predicate Starts(e: Event, s: StepId, attempt: int) {
    e == BodyStarted(s, attempt) || e == PredicateStarted(s, attempt)
  }

  /** After a body start nothing of that step starts again in that attempt. */
  ghost predicate OnceOnly(log: seq<Event>) {
    forall i, j :: 0 <= i < j < |log| && log[i].BodyStarted? ==> !Starts(log[j], log[i].step, log[i].attempt)
  }

  predicate IsStart(e: Event) {
    e.BodyStarted? || e.PredicateStarted?
  }

  /** What started at i finished before j. */
  ghost predicate FinishedWithin(log: seq<Event>, i: nat, j: nat)
    requires i < |log| && j <= |log|
  {
    exists k :: i < k < j && log[k] == Finished(log[i].step, log[i].attempt)
  }

  ghost predicate Apart(log: seq<Event>, i: nat, j: nat)
    requires i < |log| && j < |log|
  {
    IsStart(log[i]) && IsStart(log[j]) && log[i].step == log[j].step ==> FinishedWithin(log, i, j)
  }

  /** Of two starts of one step, bodies or predicates, in any attempts, the first finished before the second. */
  ghost predicate NeverOverlap(log: seq<Event>) {
    forall i, j :: 0 <= i < j < |log| ==> Apart(log, i, j)
  }

  /** What started and did not finish is running. */
  ghost predicate OpenAt(r: Run, i: nat)
    requires i < |r.log|
  {
    IsStart(r.log[i]) ==> FinishedWithin(r.log, i, |r.log|) || Continues(r, r.log[i].step, r.log[i].attempt)
  }

  ghost predicate Continues(r: Run, s: StepId, attempt: int) {
    exists q :: q in r.running && r.running[q].step == s && r.running[q].attempt == attempt
  }

  ghost predicate OpenOk(r: Run) {
    forall i :: 0 <= i < |r.log| ==> OpenAt(r, i)
  }

  ghost predicate LogOk(r: Run) {
    StartsOk(r) && OnceOnly(r.log) && NeverOverlap(r.log) && OpenOk(r)
  }

  ghost predicate RunInv(r: Run) {
    Inv(r.w) && RunningOk(r) && WaitersOk(r) && OutputsOk(r) && LogOk(r)
  }

  lemma {:induction false} InitialInv(r: Run)
    requires Initial(r)
    ensures RunInv(r)
  {
  }

  // ---------------------------------------------------------------- logs that grow by one event

  lemma {:induction false} FinishedWithinLonger(log: seq<Event>, e: Event, i: nat, j: nat)
    requires i < |log| && j <= |log| && FinishedWithin(log, i, j)
    ensures FinishedWithin(log + [e], i, j) && FinishedWithin(log + [e], i, |log + [e]|)
  {
    var k :| i < k < j && log[k] == Finished(log[i].step, log[i].attempt);
    assert (log + [e])[k] == Finished((log + [e])[i].step, (log + [e])[i].attempt);
  }

  lemma {:induction false} ApartLonger(log: seq<Event>, e: Event)
    requires NeverOverlap(log)
    requires IsStart(e) ==> forall i :: 0 <= i < |log| && IsStart(log[i]) && log[i].step == e.step ==> FinishedWithin(log, i, |log|)
    ensures NeverOverlap(log + [e])
  {
    forall i, j | 0 <= i < j < |log + [e]| ensures Apart(log + [e], i, j) {
      var longer := log + [e];
      if IsStart(longer[i]) && IsStart(longer[j]) && longer[i].step == longer[j].step {
        assert longer[i] == log[i];
        if j < |log| { assert Apart(log, i, j); }
        FinishedWithinLonger(log, e, i, j);
      }
    }
  }

  lemma {:induction false} OnceOnlyLonger(log: seq<Event>, e: Event)
    requires OnceOnly(log) && (IsStart(e) ==> BodyStarted(e.step, e.attempt) !in log)
    ensures OnceOnly(log + [e])
  {
    forall i, j | 0 <= i < j < |log + [e]| && (log + [e])[i].BodyStarted?
      ensures !Starts((log + [e])[j], (log + [e])[i].step, (log + [e])[i].attempt)
    {
      if j == |log| { assert log[i] in log; }
    }
  }

  /** The requests that ran go on, up to their phase, and the log grew by one event that finished none. */
  ghost predicate GoesOn(r: Run, e: Event, r': Run) {
    && r'.log == r.log + [e]
    && forall q :: q in r.running ==> q in r'.running && r'.running[q].step == r.running[q].step && r'.running[q].attempt == r.running[q].attempt
  }

  lemma {:induction false} ContinuesOn(r: Run, e: Event, r': Run, s: StepId, attempt: int)
    requires GoesOn(r, e, r') && Continues(r, s, attempt)
    ensures Continues(r', s, attempt)
  {
    var q :| q in r.running && r.running[q].step == s && r.running[q].attempt == attempt;
    assert q in r'.running && r'.running[q].step == s;
  }

  lemma {:induction false} OpenGoesOn(r: Run, e: Event, r': Run)
    requires OpenOk(r) && GoesOn(r, e, r') && (IsStart(e) ==> Continues(r', e.step, e.attempt))
    ensures OpenOk(r')
  {
    forall i | 0 <= i < |r'.log| ensures OpenAt(r', i) {
      if i < |r.log| {
        assert OpenAt(r, i) && r'.log[i] == r.log[i];
        if IsStart(r.log[i]) && FinishedWithin(r.log, i, |r.log|) {
          FinishedWithinLonger(r.log, e, i, |r.log|);
        } else if IsStart(r.log[i]) {
          ContinuesOn(r, e, r', r.log[i].step, r.log[i].attempt);
        }
      }
    }
  }

  // ---------------------------------------------------------------- admission

  /** What an accepted request changes, in terms of the effect of its begin. */
  ghost predicate Admission(r: Run, phase: Phase, attempt: int, step: StepId, settled: seq<StepId>, r': Run) {
    && step in r.w.cells && Begun(r.w, attempt, step, settled, r'.w)
    && (attempt == r.w.attempt ==> !r.w.cells[step].resolved)
    && r.w.attempt <= attempt && (r.w.active != {} ==> attempt == r.w.attempt)
    && step !in r.w.active && step !in settled
    && (forall s :: s in settled ==> s !in r.w.active)
    && phase in {Predicate, Body}
    && r' == Run(r'.w, r.running[r.next := Activity(step, phase, attempt)], r.next + 1, r.waiting, r.log + [Started(phase, step, attempt)])
  }

  lemma {:induction false} AdmitDescribed(r: Run, phase: Phase, attempt: int, step: StepId, settled: Option<seq<StepId>>)
    requires Inv(r.w) && step in r.w.cells && Begin(r.w, attempt, step, settled).Ok? && phase in {Predicate, Body}
    ensures Admission(r, phase, attempt, step, settled.value, Admit(r, phase, attempt, step, settled))
    ensures Inv(Admit(r, phase, attempt, step, settled).w)
  {
    BeginEffect(r.w, attempt, step, settled);
    BeginKeepsInv(r.w, attempt, step, settled);
  }

  lemma {:induction false} RunningFacts(r: Run)
    requires RunningOk(r)
    ensures forall q :: q in r.running ==> q < r.next && r.running[q].step in r.w.active && r.running[q].attempt == r.w.attempt
  {
    forall q | q in r.running ensures q < r.next && r.running[q].step in r.w.active && r.running[q].attempt == r.w.attempt {
      assert RequestOk(r, q);
    }
  }

  /** Nothing runs while nothing is active. */
  lemma {:induction false} IdleRunsNothing(r: Run)
    requires RunningOk(r) && r.w.active == {}
    ensures r.running == map[]
  {
    RunningFacts(r);
    assert forall q :: q !in r.running;
  }

  lemma {:induction false} AdmitKeepsRunning(r: Run, phase: Phase, attempt: int, step: StepId, settled: seq<StepId>, r': Run)
    requires Admission(r, phase, attempt, step, settled, r') && RunningOk(r)
    ensures RunningOk(r')
  {
    if r.w.active == {} { IdleRunsNothing(r); }
    forall q | q in r'.running ensures RequestOk(r', q) {
      if q != r.next { assert RequestOk(r, q); }
    }
    forall s | s in r'.w.active ensures Runs(r', s) {
      if s == step {
        assert r'.running[r.next].step == s;
      } else {
        assert Runs(r, s);
        var q :| q in r.running && r.running[q].step == s;
        assert RequestOk(r, q) && r'.running[q].step == s;
      }
    }
    forall p, q | p in r'.running && q in r'.running && r'.running[p].step == r'.running[q].step ensures p == q {
      if p != r.next { assert RequestOk(r, p); }
      if q != r.next { assert RequestOk(r, q); }
    }
  }

  lemma {:induction false} AdmitKeepsWaiters(r: Run, phase: Phase, attempt: int, step: StepId, settled: seq<StepId>, r': Run)
    requires Admission(r, phase, attempt, step, settled, r') && RunningOk(r) && WaitersOk(r)
    ensures WaitersOk(r')
  {
    if r.w.active == {} {
      IdleRunsNothing(r);
      assert r.waiting == {};
    }
  }

  lemma {:induction false} AdmitKeepsOutputs(r: Run, phase: Phase, attempt: int, step: StepId, settled: seq<StepId>, r': Run)
    requires Admission(r, phase, attempt, step, settled, r') && OutputsOk(r)
    ensures OutputsOk(r')
  {
    forall s | s in r'.w.cells && r'.w.cells[s].out.Some?
      ensures BodyReturned(s, r'.w.attempt, r'.w.cells[s].out) in r'.log && BodyStarted(s, r'.w.attempt) in r'.log
    {
      assert attempt == r.w.attempt && r.w.cells[s].out == r'.w.cells[s].out;
    }
  }

  /** A step that can be admitted has no body start in the attempt yet. */
  lemma {:induction false} AdmittedIsNew(r: Run, phase: Phase, attempt: int, step: StepId, settled: seq<StepId>, r': Run)
    requires Admission(r, phase, attempt, step, settled, r') && RunningOk(r) && StartsOk(r)
    ensures BodyStarted(step, attempt) !in r.log
  {
    RunningFacts(r);
  }

  lemma {:induction false} AdmitKeepsStarts(r: Run, phase: Phase, attempt: int, step: StepId, settled: seq<StepId>, r': Run)
    requires Admission(r, phase, attempt, step, settled, r') && RunningOk(r) && StartsOk(r)
    ensures StartsOk(r')
  {
    var e := Started(phase, step, attempt);
    AdmittedIsNew(r, phase, attempt, step, settled, r');
    assert r'.log[|r.log|] == e;
    assert forall x :: x in r'.log <==> x in r.log || x == e;
    forall q | q in r'.running && r'.running[q].phase != Predicate
      ensures BodyStarted(r'.running[q].step, r'.w.attempt) in r'.log
    {
      if q != r.next { assert RequestOk(r, q); }
    }
    forall s | BodyStarted(s, r'.w.attempt) in r'.log
      ensures s in r'.w.cells && (r'.w.cells[s].resolved || RunsBody(r', s))
    {
      if BodyStarted(s, attempt) in r.log {
        assert s != step && s in r.w.cells;
        if !r.w.cells[s].resolved {
          var q :| q in r.running && r.running[q].step == s && r.running[q].phase != Predicate;
          assert RequestOk(r, q) && r'.running[q].phase != Predicate;
        }
      } else {
        assert r'.running[r.next].step == s;
      }
    }
  }

  lemma {:induction false} AdmitKeepsApart(r: Run, phase: Phase, attempt: int, step: StepId, settled: seq<StepId>, r': Run)
    requires Admission(r, phase, attempt, step, settled, r') && RunningOk(r) && NeverOverlap(r.log) && OpenOk(r)
    ensures NeverOverlap(r'.log) && OpenOk(r')
  {
    var e := Started(phase, step, attempt);
    RunningFacts(r);
    forall i | 0 <= i < |r.log| && IsStart(r.log[i]) && r.log[i].step == e.step ensures FinishedWithin(r.log, i, |r.log|) {
      assert OpenAt(r, i) && !Continues(r, step, r.log[i].attempt);
    }
    ApartLonger(r.log, e);
    assert r.next !in r.running;
    assert r'.running[r.next].step == step && r'.running[r.next].attempt == attempt;
    OpenGoesOn(r, e, r');
  }

  lemma {:induction false} AdmitKeepsLog(r: Run, phase: Phase, attempt: int, step: StepId, settled: seq<StepId>, r': Run)
    requires Admission(r, phase, attempt, step, settled, r') && RunningOk(r) && LogOk(r)
    ensures LogOk(r')
  {
    AdmittedIsNew(r, phase, attempt, step, settled, r');
    AdmitKeepsStarts(r, phase, attempt, step, settled, r');
    OnceOnlyLonger(r.log, Started(phase, step, attempt));
    AdmitKeepsApart(r, phase, attempt, step, settled, r');
  }

  lemma {:induction false} AdmitKeeps(r: Run, phase: Phase, attempt: int, step: StepId, settled: Option<seq<StepId>>)
    requires RunInv(r) && step in r.w.cells && phase in {Predicate, Body}
    ensures RunInv(Admit(r, phase, attempt, step, settled))
  {
    if Begin(r.w, attempt, step, settled).Ok? {
      AdmitDescribed(r, phase, attempt, step, settled);
      var r' := Admit(r, phase, attempt, step, settled);
      AdmitKeepsRunning(r, phase, attempt, step, settled.value, r');
      AdmitKeepsWaiters(r, phase, attempt, step, settled.value, r');
      AdmitKeepsOutputs(r, phase, attempt, step, settled.value, r');
      AdmitKeepsLog(r, phase, attempt, step, settled.value, r');
    }
  }

  // ---------------------------------------------------------------- resolution

  /** A cell after its step was resolved: the first output and a channel handed out stay. */
  predicate CellResolved(c: Cell, out: Option<Output>, c': Cell) {
    && c'.resolved && (c.done.Some? ==> c'.done == c.done)
    && c'.out == if c.resolved then c.out else out
  }

  /** What resolving the step of a running request changes: at most its own cell, and the request's phase. */
  ghost predicate Resolves(r: Run, q: Request, out: Option<Output>, p: Phase, r': Run) {
    && q in r.running && r.running[q].step in r.w.cells && p in {Returned, Settled}
    && r'.w.cells.Keys == r.w.cells.Keys && r'.w.attempt == r.w.attempt && r'.w.active == r.w.active
    && (forall i :: i in r.w.cells && i != r.running[q].step ==> r'.w.cells[i] == r.w.cells[i])
    && CellResolved(r.w.cells[r.running[q].step], out, r'.w.cells[r.running[q].step])
    && r'.running == r.running[q := r.running[q].(phase := p)] && r'.next == r.next && r'.waiting == r.waiting
  }

  lemma {:induction false} ResolveDescribed(r: Run, q: Request, out: Option<Output>, p: Phase)
    requires Inv(r.w) && q in r.running && r.running[q].step in r.w.cells && p in {Returned, Settled}
    ensures Resolves(r, q, out, p, Resolve(r, q, out, p)) && Inv(Resolve(r, q, out, p).w)
  {
    MarkDoneKeeps(r.w, r.running[q].step, out);
    MarkDoneKeepsInv(r.w, r.running[q].step, out);
  }

  lemma {:induction false} ResolveKeepsRunning(r: Run, q: Request, out: Option<Output>, p: Phase, r': Run)
    requires Resolves(r, q, out, p, r') && RunningOk(r)
    ensures RunningOk(r')
  {
    forall x | x in r'.running ensures RequestOk(r', x) {
      assert RequestOk(r, x) && RequestOk(r, q);
    }
    forall s | s in r'.w.active ensures Runs(r', s) {
      assert Runs(r, s);
      var x :| x in r.running && r.running[x].step == s;
      assert r'.running[x].step == s;
    }
  }

  lemma {:induction false} ResolveKeepsWaiters(r: Run, q: Request, out: Option<Output>, p: Phase, r': Run)
    requires Resolves(r, q, out, p, r') && WaitersOk(r)
    ensures WaitersOk(r')
  {
  }

  lemma {:induction false} ResolveKeepsOutputs(r: Run, q: Request, out: Option<Output>, p: Phase, r': Run, log: seq<Event>)
    requires Resolves(r, q, out, p, r') && OutputsOk(r) && BodyStarted(r.running[q].step, r.w.attempt) in r.log
    requires forall e :: e in r.log ==> e in log
    requires out.Some? ==> BodyReturned(r.running[q].step, r.w.attempt, out) in log
    ensures OutputsOk(r'.(log := log))
  {
  }

  lemma {:induction false} ResolveKeepsStarts(r: Run, q: Request, out: Option<Output>, p: Phase, r': Run, log: seq<Event>)
    requires Resolves(r, q, out, p, r') && StartsOk(r) && BodyStarted(r.running[q].step, r.w.attempt) in r.log
    requires forall e :: e in r.log ==> e in log
    requires forall e :: e in log ==> e in r.log || (e.BodyReturned? && e.attempt == r.w.attempt)
    ensures StartsOk(r'.(log := log))
  {
    var after := r'.(log := log);
    forall s | BodyStarted(s, r.w.attempt) in log
      ensures s in after.w.cells && (after.w.cells[s].resolved || RunsBody(after, s))
    {
      assert BodyStarted(s, r.w.attempt) in r.log;
      if !after.w.cells[s].resolved {
        assert s != r.running[q].step && RunsBody(r, s);
        var x :| x in r.running && r.running[x].step == s && r.running[x].phase != Predicate;
        assert after.running[x] == r.running[x];
      }
    }
  }

  lemma {:induction false} BodyReturnsKeepsLog(r: Run, q: Request, out: Option<Output>, r': Run)
    requires Resolves(r, q, out, Returned, r') && LogOk(r) && BodyStarted(r.running[q].step, r.w.attempt) in r.log
    requires r'.log == r.log + [BodyReturned(r.running[q].step, r.w.attempt, out)]
    ensures LogOk(r')
  {
    var e := BodyReturned(r.running[q].step, r.w.attempt, out);
    assert forall x :: x in r'.log <==> x in r.log || x == e;
    ResolveKeepsStarts(r, q, out, Returned, r', r'.log);
    OnceOnlyLonger(r.log, e);
    ApartLonger(r.log, e);
    OpenGoesOn(r, e, r');
  }

  /** A phase change alone leaves every open start running. */
  lemma {:induction false} SettleKeepsOpen(r: Run, q: Request, r': Run)
    requires OpenOk(r) && q in r.running && r'.log == r.log && r'.running == r.running[q := r.running[q].(phase := Settled)]
    ensures OpenOk(r')
  {
    forall i | 0 <= i < |r'.log| ensures OpenAt(r', i) {
      assert OpenAt(r, i);
      if IsStart(r.log[i]) && Continues(r, r.log[i].step, r.log[i].attempt) {
        var x :| x in r.running && r.running[x].step == r.log[i].step && r.running[x].attempt == r.log[i].attempt;
        assert x in r'.running && r'.running[x].step == r.log[i].step;
      }
    }
  }

  lemma {:induction false} RequestFacts(r: Run, q: Request)
    requires RunningOk(r) && StartsOk(r) && q in r.running && r.running[q].phase != Predicate
    ensures BodyStarted(r.running[q].step, r.w.attempt) in r.log && r.running[q].attempt == r.w.attempt
  {
    assert RequestOk(r, q);
  }

  lemma {:induction false} BodyReturnsKeeps(r: Run, q: Request, out: Option<Output>)
    requires RunInv(r) && Enabled(r, BodyReturns(q, out))
    ensures RunInv(Step(r, BodyReturns(q, out)))
  {
    var m, r' := Resolve(r, q, out, Returned), Step(r, BodyReturns(q, out));
    RequestFacts(r, q);
    ResolveDescribed(r, q, out, Returned);
    assert Resolves(r, q, out, Returned, r');
    ResolveKeepsRunning(r, q, out, Returned, r');
    ResolveKeepsWaiters(r, q, out, Returned, r');
    assert r'.log[|r.log|] == BodyReturned(r.running[q].step, r.w.attempt, out);
    assert forall e :: e in r.log ==> e in r'.log;
    ResolveKeepsOutputs(r, q, out, Returned, m, r'.log);
    BodyReturnsKeepsLog(r, q, out, r');
  }

  lemma {:induction false} DeferredSettleKeeps(r: Run, q: Request)
    requires RunInv(r) && Enabled(r, DeferredSettle(q))
    ensures RunInv(Step(r, DeferredSettle(q)))
  {
    var r' := Step(r, DeferredSettle(q));
    RequestFacts(r, q);
    ResolveDescribed(r, q, None, Settled);
    ResolveKeepsRunning(r, q, None, Settled, r');
    ResolveKeepsWaiters(r, q, None, Settled, r');
    ResolveKeepsOutputs(r, q, None, Settled, r', r.log);
    ResolveKeepsStarts(r, q, None, Settled, r', r.log);
    SettleKeepsOpen(r, q, r');
  }

  // ---------------------------------------------------------------- finishing and waiting

  lemma {:induction false} FinishKeepsRunning(r: Run, q: Request)
    requires RunningOk(r) && WaitersOk(r) && OutputsOk(r) && Enabled(r, Finish(q))
    ensures var r' := Step(r, Finish(q)); RunningOk(r') && WaitersOk(r') && OutputsOk(r')
  {
    var r' := Step(r, Finish(q));
    forall x | x in r'.running ensures RequestOk(r', x) {
      assert RequestOk(r, x);
    }
    forall s | s in r'.w.active ensures Runs(r', s) {
      assert Runs(r, s);
      var x :| x in r.running && r.running[x].step == s;
      assert x in r'.running && r'.running[x].step == s;
    }
    assert forall e :: e in r.log ==> e in r'.log;
  }

  lemma {:induction false} FinishKeepsOpen(r: Run, q: Request)
    requires RunningOk(r) && OpenOk(r) && Enabled(r, Finish(q))
    ensures OpenOk(Step(r, Finish(q)))
  {
    var r' := Step(r, Finish(q));
    var e := Finished(r.running[q].step, r.running[q].attempt);
    forall i | 0 <= i < |r'.log| ensures OpenAt(r', i) {
      if i < |r.log| && IsStart(r.log[i]) {
        assert OpenAt(r, i) && r'.log[i] == r.log[i];
        if FinishedWithin(r.log, i, |r.log|) {
          FinishedWithinLonger(r.log, e, i, |r.log|);
        } else {
          var x :| x in r.running && r.running[x].step == r.log[i].step && r.running[x].attempt == r.log[i].attempt;
          if x == q {
            assert r'.log[|r.log|] == e;
          } else {
            assert x in r'.running && r'.running[x].step == r.log[i].step;
          }
        }
      }
    }
  }

  lemma {:induction false} FinishKeepsStarts(r: Run, q: Request)
    requires RunningOk(r) && StartsOk(r) && Enabled(r, Finish(q))
    ensures StartsOk(Step(r, Finish(q)))
  {
    var r' := Step(r, Finish(q));
    assert RequestOk(r, q);
    assert forall x :: x in r'.log <==> x in r.log || x == Finished(r.running[q].step, r.running[q].attempt);
    forall s | BodyStarted(s, r'.w.attempt) in r'.log
      ensures s in r'.w.cells && (r'.w.cells[s].resolved || RunsBody(r', s))
    {
      assert BodyStarted(s, r.w.attempt) in r.log;
      if !r.w.cells[s].resolved {
        var x :| x in r.running && r.running[x].step == s && r.running[x].phase != Predicate;
        assert RequestOk(r, x) && x in r'.running && r'.running[x] == r.running[x];
      }
    }
  }

  lemma {:induction false} FinishKeeps(r: Run, q: Request)
    requires RunInv(r) && Enabled(r, Finish(q))
    ensures RunInv(Step(r, Finish(q)))
  {
    var e := Finished(r.running[q].step, r.running[q].attempt);
    FinishKeepsInv(r.w, r.running[q].step);
    FinishKeepsRunning(r, q);
    FinishKeepsStarts(r, q);
    OnceOnlyLonger(r.log, e);
    ApartLonger(r.log, e);
    FinishKeepsOpen(r, q);
  }

  /** Nothing but channels of unresolved steps, and waiters, changed. */
  ghost predicate OnlyWaits(r: Run, r': Run) {
    && r'.running == r.running && r'.next == r.next && r'.log == r.log
    && r'.w.active == r.w.active && r'.w.attempt == r.w.attempt && r'.w.cells.Keys == r.w.cells.Keys
    && forall i :: i in r.w.cells ==>
         && r'.w.cells[i].resolved == r.w.cells[i].resolved && r'.w.cells[i].out == r.w.cells[i].out
         && (r.w.cells[i].done.Some? ==> r'.w.cells[i].done == r.w.cells[i].done)
  }

  lemma {:induction false} WaitKeepsRunning(r: Run, r': Run)
    requires OnlyWaits(r, r') && RunningOk(r) && OutputsOk(r)
    ensures RunningOk(r') && OutputsOk(r')
  {
    forall x | x in r'.running ensures RequestOk(r', x) {
      assert RequestOk(r, x);
    }
    forall s | s in r'.w.active ensures Runs(r', s) {
      assert Runs(r, s);
    }
  }

  lemma {:induction false} WaitKeepsLog(r: Run, r': Run)
    requires OnlyWaits(r, r') && LogOk(r)
    ensures LogOk(r')
  {
    forall s | BodyStarted(s, r'.w.attempt) in r'.log
      ensures s in r'.w.cells && (r'.w.cells[s].resolved || RunsBody(r', s))
    {
      if !r.w.cells[s].resolved { assert RunsBody(r, s); }
    }
    forall i | 0 <= i < |r'.log| ensures OpenAt(r', i) {
      assert OpenAt(r, i);
      if IsStart(r.log[i]) && Continues(r, r.log[i].step, r.log[i].attempt) {
        assert Continues(r', r.log[i].step, r.log[i].attempt);
      }
    }
  }

  lemma {:induction false} NewWaiterOk(r: Run, q: Request, target: StepId, w: WorkState, c: Chan)
    requires WaitersOk(r) && q in r.running && target in r.w.cells && w.cells.Keys == r.w.cells.Keys
    requires forall i :: i in r.w.cells && r.w.cells[i].done.Some? ==> w.cells[i].done == r.w.cells[i].done
    requires w.cells[target].done == Some(c)
    ensures WaitersOk(r.(w := w, waiting := r.waiting + {Waiter(q, target, c)}))
  {
  }

  lemma {:induction false} AwaitDescribed(r: Run, q: Request, target: StepId)
    requires Inv(r.w) && WaitersOk(r) && Enabled(r, Await(q, target))
    ensures var r' := Step(r, Await(q, target)); Inv(r'.w) && OnlyWaits(r, r') && WaitersOk(r')
  {
    AwaitKeepsInv(r.w, target);
    var (w, c) := AwaitDone(r.w, target);
    if c.Some? { NewWaiterOk(r, q, target, w, c.value); }
  }

  lemma {:induction false} AwaitKeeps(r: Run, q: Request, target: StepId)
    requires RunInv(r) && Enabled(r, Await(q, target))
    ensures RunInv(Step(r, Await(q, target)))
  {
    var r' := Step(r, Await(q, target));
    AwaitDescribed(r, q, target);
    WaitKeepsRunning(r, r');
    WaitKeepsLog(r, r');
  }

  lemma {:induction false} WakeKeeps(r: Run, waiter: Waiter)
    requires RunInv(r)
    ensures RunInv(r.(waiting := r.waiting - {waiter}))
  {
    var r' := r.(waiting := r.waiting - {waiter});
    WaitKeepsRunning(r, r');
    WaitKeepsLog(r, r');
  }

  lemma {:induction false} StepKeepsInv(r: Run, a: Action)
    requires RunInv(r) && Enabled(r, a)
    ensures RunInv(Step(r, a))
  {
    match a
    case RunStep(attempt, step, settled) => AdmitKeeps(r, Body, attempt, step, settled);
    case EvalSkip(attempt, step, settled) => AdmitKeeps(r, Predicate, attempt, step, settled);
    case BodyReturns(q, out) => BodyReturnsKeeps(r, q, out);
    case DeferredSettle(q) => DeferredSettleKeeps(r, q);
    case Finish(q) => FinishKeeps(r, q);
    case Await(q, target) => AwaitKeeps(r, q, target);
    case Wake(waiter) => WakeKeeps(r, waiter);
    case GiveUp(waiter) => WakeKeeps(r, waiter);
  }

  // ---------------------------------------------------------------- runs

  ghost predicate Leads(r: Run, a: Action, r': Run) {
    Enabled(r, a) && r' == Step(r, a)
  }

  ghost predicate IsRun(states: seq<Run>, actions: seq<Action>) {
    && |states| == |actions| + 1
    && Initial(states[0])
    && forall i :: 0 <= i < |actions| ==> LeadsAt(states, actions, i)
  }

  ghost predicate LeadsAt(states: seq<Run>, actions: seq<Action>, i: nat)
    requires |states| == |actions| + 1 && i < |actions|
  {
    Leads(states[i], actions[i], states[i + 1])
  }

  /** Safety over whole runs: every reachable state satisfies the invariant. */
  lemma {:induction false} EveryStateSafe(states: seq<Run>, actions: seq<Action>, i: nat)
    requires IsRun(states, actions) && i < |states|
    ensures RunInv(states[i])
  {
    if i == 0 {
      InitialInv(states[0]);
    } else {
      EveryStateSafe(states, actions, i - 1);
      assert LeadsAt(states, actions, i - 1);
      StepKeepsInv(states[i - 1], actions[i - 1]);
    }
  }

  /** The attempt did not fall, and within one attempt nothing terminal was forgotten. */
  ghost predicate Later(r: Run, r': Run) {
    && r.w.attempt <= r'.w.attempt
    && (r'.w.attempt == r.w.attempt ==> Extends(r.w, r'.w))
    && r.log <= r'.log
  }

  lemma {:induction false} LaterTransitive(a: Run, b: Run, c: Run)
    requires Later(a, b) && Later(b, c)
    ensures Later(a, c)
  {
    if a.w.attempt == c.w.attempt { ExtendsTransitive(a.w, b.w, c.w); }
  }

  lemma {:induction false} AdmitMonotone(r: Run, phase: Phase, attempt: int, step: StepId, settled: Option<seq<StepId>>)
    requires Inv(r.w) && step in r.w.cells
    ensures var r' := Admit(r, phase, attempt, step, settled);
            Later(r, r') && (r.w.active != {} ==> r'.w.attempt == r.w.attempt)
  {
    if Begin(r.w, attempt, step, settled).Ok? { BeginEffect(r.w, attempt, step, settled); }
  }

  /** One transition: the attempt never falls, and it rises only while nothing is active. */
  lemma {:induction false} StepMonotone(r: Run, a: Action)
    requires Inv(r.w) && Enabled(r, a)
    ensures Later(r, Step(r, a)) && (r.w.active != {} ==> Step(r, a).w.attempt == r.w.attempt)
  {
    match a
    case RunStep(attempt, step, settled) => AdmitMonotone(r, Body, attempt, step, settled);
    case EvalSkip(attempt, step, settled) => AdmitMonotone(r, Predicate, attempt, step, settled);
    case BodyReturns(q, out) => MarkDoneKeepsInv(r.w, r.running[q].step, out);
    case DeferredSettle(q) => MarkDoneKeepsInv(r.w, r.running[q].step, None);
    case Finish(q) => FinishKeepsInv(r.w, r.running[q].step);
    case Await(_, target) => AwaitKeepsInv(r.w, target);
    case Wake(_) =>
    case GiveUp(_) =>
  }

  lemma {:induction false} NextIsLater(states: seq<Run>, actions: seq<Action>, i: nat)
    requires IsRun(states, actions) && i < |actions|
    ensures Later(states[i], states[i + 1])
    ensures states[i].w.active != {} ==> states[i + 1].w.attempt == states[i].w.attempt
  {
    EveryStateSafe(states, actions, i);
    assert LeadsAt(states, actions, i);
    StepMonotone(states[i], actions[i]);
  }

  /**
   Along any run the attempt never decreases, and within one attempt terminal steps, their outputs
   and every handed-out channel stay as they are: the first write wins.
   */
  lemma {:induction false} TerminalStateIsMonotone(states: seq<Run>, actions: seq<Action>, i: nat, j: nat)
    requires IsRun(states, actions) && i <= j < |states|
    ensures Later(states[i], states[j])
    decreases j
  {
    if i < j {
      TerminalStateIsMonotone(states, actions, i, j - 1);
      NextIsLater(states, actions, j - 1);
      LaterTransitive(states[i], states[j - 1], states[j]);
    }
  }

  /** While a step stays active the job is never reset, so a waiter inside it keeps a live channel. */
  lemma {:induction false} NoResetWhileActive(states: seq<Run>, actions: seq<Action>, i: nat, j: nat, host: StepId)
    requires IsRun(states, actions) && i <= j < |states|
    requires forall k :: i <= k <= j ==> host in states[k].w.active
    ensures states[j].w.attempt == states[i].w.attempt && Extends(states[i].w, states[j].w)
    decreases j
  {
    TerminalStateIsMonotone(states, actions, i, j);
    if i < j {
      NoResetWhileActive(states, actions, i, j - 1, host);
      assert host in states[j - 1].w.active;
      NextIsLater(states, actions, j - 1);
    }
  }

  /** A blocked waiter wakes exactly when its target is resolved, never on a stale channel. */
  lemma {:induction false} WaiterWakesExactlyOnResolution(states: seq<Run>, actions: seq<Action>, i: nat, x: Waiter)
    requires IsRun(states, actions) && i < |states| && x in states[i].waiting
    ensures x.target in states[i].w.cells
    ensures Enabled(states[i], Wake(x)) <==> states[i].w.cells[x.target].resolved
  {
    EveryStateSafe(states, actions, i);
  }

  /** In every state the active steps rest on resolved needs and are pairwise independent. */
  lemma {:induction false} ActiveStepsFormAnAntichain(states: seq<Run>, actions: seq<Action>, i: nat, a: StepId, b: StepId)
    requires IsRun(states, actions) && i < |states| && a in states[i].w.active && ReachesBeyond(states[i].w.needs, a, b)
    ensures b in states[i].w.cells && states[i].w.cells[b].resolved && b !in states[i].w.active
  {
    EveryStateSafe(states, actions, i);
    assert NeedsResolved(states[i].w, a);
  }

  /** No two requests of one step run at once, whether bodies or predicates. */
  lemma {:induction false} OneRequestPerStep(states: seq<Run>, actions: seq<Action>, i: nat, p: Request, q: Request)
    requires IsRun(states, actions) && i < |states| && p in states[i].running && q in states[i].running
    requires states[i].running[p].step == states[i].running[q].step
    ensures p == q
  {
    EveryStateSafe(states, actions, i);
  }

  /** A request for a step that is still running, as body or as predicate, changes nothing. */
  lemma {:induction false} RunningStepIsRefused(states: seq<Run>, actions: seq<Action>, j: nat, q: Request)
    requires IsRun(states, actions) && j < |actions| && q in states[j].running
    requires actions[j].RunStep? || actions[j].EvalSkip?
    requires actions[j].step == states[j].running[q].step
    ensures states[j + 1] == states[j]
  {
    EveryStateSafe(states, actions, j);
    assert RequestOk(states[j], q);
    assert LeadsAt(states, actions, j);
  }

  /** Between two starts of one step, bodies or predicates, the first one finished: they never overlap. */
  lemma {:induction false} StartsNeverOverlap(states: seq<Run>, actions: seq<Action>, n: nat, i: nat, j: nat)
    requires IsRun(states, actions) && n < |states| && i < j < |states[n].log|
    requires IsStart(states[n].log[i]) && IsStart(states[n].log[j]) && states[n].log[i].step == states[n].log[j].step
    ensures FinishedWithin(states[n].log, i, j)
  {
    EveryStateSafe(states, actions, n);
    assert Apart(states[n].log, i, j);
  }

  /** Within one attempt a body starts at most once and no predicate of its step starts after it. */
  lemma {:induction false} BodyStartsAtMostOnce(states: seq<Run>, actions: seq<Action>, n: nat, i: nat, j: nat, step: StepId, attempt: int)
    requires IsRun(states, actions) && n < |states| && i < j < |states[n].log|
    requires states[n].log[i] == BodyStarted(step, attempt)
    ensures !Starts(states[n].log[j], step, attempt)
  {
    EveryStateSafe(states, actions, n);
  }

  lemma {:induction false} RefusedChangesNothing(r: Run, a: Action, r': Run)
    requires Leads(r, a, r') && (a.RunStep? || a.EvalSkip?) && a.step in r.w.cells && Begin(r.w, a.attempt, a.step, a.settled).Err?
    ensures r' == r
  {
  }

  /** A step resolved once in an attempt is refused for the rest of it, as body and as predicate. */
  lemma {:induction false} ResolvedStepNeverStartsAgain(states: seq<Run>, actions: seq<Action>, i: nat, j: nat, step: StepId)
    requires IsRun(states, actions) && i <= j < |actions|
    requires step in states[i].w.cells && states[i].w.cells[step].resolved
    requires actions[j].RunStep? || actions[j].EvalSkip?
    requires actions[j].step == step && actions[j].attempt == states[i].w.attempt
    ensures states[j + 1] == states[j]
  {
    TerminalStateIsMonotone(states, actions, i, j);
    assert LeadsAt(states, actions, j);
    RefusedChangesNothing(states[j], actions[j], states[j + 1]);
  }

  /** Once a body has started in an attempt, no later request for that step and attempt is admitted. */
  lemma {:induction false} StartedBodyExcludesRequests(states: seq<Run>, actions: seq<Action>, i: nat, j: nat, step: StepId, attempt: int)
    requires IsRun(states, actions) && i <= j < |actions| && BodyStarted(step, attempt) in states[i].log
    requires actions[j].RunStep? || actions[j].EvalSkip?
    requires actions[j].step == step && actions[j].attempt == attempt
    ensures states[j + 1] == states[j]
  {
    TerminalStateIsMonotone(states, actions, i, j);
    EveryStateSafe(states, actions, j);
    assert BodyStarted(step, attempt) in states[j].log;
    if attempt == states[j].w.attempt && RunsBody(states[j], step) {
      var q :| q in states[j].running && states[j].running[q].step == step;
      RunningStepIsRefused(states, actions, j, q);
    } else {
      assert LeadsAt(states, actions, j);
      RefusedChangesNothing(states[j], actions[j], states[j + 1]);
    }
  }

  /** The output a waiter reads comes from a body that started and returned in the current attempt. */
  lemma {:induction false} OutputComesFromThisAttempt(states: seq<Run>, actions: seq<Action>, i: nat, step: StepId)
    requires IsRun(states, actions) && i < |states|
    requires step in states[i].w.cells && states[i].w.cells[step].out.Some?
    ensures BodyStarted(step, states[i].w.attempt) in states[i].log
    ensures BodyReturned(step, states[i].w.attempt, states[i].w.cells[step].out) in states[i].log
  {
    EveryStateSafe(states, actions, i);
  }

  // ---------------------------------------------------------------- what a request does

  /** The step request, as an event of the host. */
  predicate Asks(a: Action, phase: Phase, attempt: int, step: StepId, settled: Option<seq<StepId>>) {
    || (phase == Body && a == RunStep(attempt, step, settled))
    || (phase == Predicate && a == EvalSkip(attempt, step, settled))
  }

  /**
   A request is admitted exactly when its begin is accepted. It then runs under a number of its own,
   as body or as predicate, and its start is recorded; a refused one changes nothing.
   */
  lemma {:induction false} RequestAdmittedExactly(r: Run, a: Action, phase: Phase, attempt: int, step: StepId, settled: Option<seq<StepId>>, r': Run)
    requires RunInv(r) && Leads(r, a, r') && Asks(a, phase, attempt, step, settled)
    ensures step in r.w.cells
    ensures Begin(r.w, attempt, step, settled).Err? ==> r' == r
    ensures Begin(r.w, attempt, step, settled).Ok? ==>
              && r.next !in r.running && r'.running == r.running[r.next := Activity(step, phase, attempt)]
              && r'.w == Begin(r.w, attempt, step, settled).value && r'.waiting == r.waiting
              && r'.log == r.log + [if phase == Body then BodyStarted(step, attempt) else PredicateStarted(step, attempt)]
  {
    RunningFacts(r);
  }

  /** A step a predicate is evaluated for can be resolved or run only later; evaluating it leaves every cell alone. */
  lemma {:induction false} PredicateEnds(r: Run, q: Request)
    requires RunInv(r) && q in r.running && r.running[q].phase == Predicate
    ensures Enabled(r, Finish(q))
    ensures var r' := Step(r, Finish(q));
            && q !in r'.running && r'.w.cells == r.w.cells && r'.w.active == r.w.active - {r.running[q].step}
            && r'.log == r.log + [Finished(r.running[q].step, r.running[q].attempt)]
  {
    assert RequestOk(r, q);
  }

  /**
   A body may return anything at any time, and its output is stored. If it does not return, the
   deferred call resolves its step without an output; either way the request then ends.
   */
  lemma {:induction false} BodyEnds(r: Run, q: Request, out: Option<Output>)
    requires RunInv(r) && q in r.running && r.running[q].phase == Body
    ensures Enabled(r, BodyReturns(q, out)) && Enabled(r, DeferredSettle(q))
    ensures var r' := Step(r, BodyReturns(q, out));
            && q in r'.running && r'.running[q].phase == Returned && r'.running[q].step == r.running[q].step
            && r.running[q].step in r'.w.cells && r'.w.cells[r.running[q].step].resolved && r'.w.cells[r.running[q].step].out == out
    ensures var r' := Step(r, DeferredSettle(q));
            && q in r'.running && r'.running[q].phase == Settled && r'.running[q].step == r.running[q].step
            && r.running[q].step in r'.w.cells && r'.w.cells[r.running[q].step].resolved && r'.w.cells[r.running[q].step].out == None
  {
    assert RequestOk(r, q);
    ResolveDescribed(r, q, out, Returned);
    ResolveDescribed(r, q, None, Settled);
  }

  lemma {:induction false} ReturnedEnds(r: Run, q: Request)
    requires RunInv(r) && q in r.running && r.running[q].phase in {Returned, Settled}
    ensures r.running[q].phase == Returned ==> Enabled(r, DeferredSettle(q))
    ensures r.running[q].phase == Returned ==>
              var r' := Step(r, DeferredSettle(q));
              && q in r'.running && r'.running[q].phase == Settled && r'.running[q].step == r.running[q].step
              && r.running[q].step in r.w.cells && r.running[q].step in r'.w.cells
              && r'.w.cells[r.running[q].step].out == r.w.cells[r.running[q].step].out
    ensures r.running[q].phase == Settled ==> Enabled(r, Finish(q))
    ensures r.running[q].phase == Settled ==>
              var r' := Step(r, Finish(q));
              && q !in r'.running && r'.w.cells == r.w.cells && r'.w.active == r.w.active - {r.running[q].step}
              && r'.log == r.log + [Finished(r.running[q].step, r.running[q].attempt)]
  {
    assert RequestOk(r, q);
    if r.running[q].phase == Returned { ResolveDescribed(r, q, None, Settled); }
  }

  /** Reading an output: a resolved step is read at once, an unresolved one leaves the reader waiting for it. */
  lemma {:induction false} AwaitBlocksExactly(r: Run, q: Request, target: StepId)
    requires RunInv(r) && q in r.running && r.running[q].phase in {Predicate, Body} && target in r.w.cells
    ensures Enabled(r, Await(q, target))
    ensures r.w.cells[target].resolved ==> Step(r, Await(q, target)) == r
    ensures !r.w.cells[target].resolved ==> exists c :: Step(r, Await(q, target)).waiting == r.waiting + {Waiter(q, target, c)}
  {
    assert RequestOk(r, q);
    AwaitKeepsInv(r.w, target);
    if !r.w.cells[target].resolved {
      var c := AwaitDone(r.w, target).1.value;
      assert Step(r, Await(q, target)).waiting == r.waiting + {Waiter(q, target, c)};
    }
  }

  /** Being woken, or giving up, ends the wait and nothing else. */
  lemma {:induction false} WaitEnds(r: Run, x: Waiter, r': Run)
    requires Leads(r, Wake(x), r') || Leads(r, GiveUp(x), r')
    ensures x in r.waiting && x !in r'.waiting && r' == r.(waiting := r'.waiting)
    ensures forall y :: y in r.waiting && y != x ==> y in r'.waiting
  {
  }

  /** The k-th action is the return of a body of this step with this output. */
  ghost predicate Returns(states: seq<Run>, actions: seq<Action>, k: nat, step: StepId, out: Option<Output>) {
    && k < |actions| && k < |states| && actions[k].BodyReturns? && actions[k].out == out
    && actions[k].request in states[k].running && states[k].running[actions[k].request].step == step
  }

  /** What a body returned is what its step shows for the rest of the attempt. */
  lemma {:induction false} ReturnedOutputStays(states: seq<Run>, actions: seq<Action>, k: nat, n: nat, step: StepId, out: Option<Output>)
    requires IsRun(states, actions) && k < n < |states| && Returns(states, actions, k, step, out)
    requires states[n].w.attempt == states[k].w.attempt
    ensures step in states[n].w.cells && states[n].w.cells[step].resolved && states[n].w.cells[step].out == out
  {
    ReturnStores(states, actions, k, step, out);
    TerminalStateIsMonotone(states, actions, k, k + 1);
    TerminalStateIsMonotone(states, actions, k + 1, n);
    OutputStays(states[k + 1], states[n], step);
  }

  lemma {:induction false} ReturnStores(states: seq<Run>, actions: seq<Action>, k: nat, step: StepId, out: Option<Output>)
    requires IsRun(states, actions) && k < |actions| && Returns(states, actions, k, step, out)
    ensures step in states[k + 1].w.cells && states[k + 1].w.cells[step].resolved && states[k + 1].w.cells[step].out == out
  {
    EveryStateSafe(states, actions, k);
    assert LeadsAt(states, actions, k);
    BodyEnds(states[k], actions[k].request, out);
  }

  lemma {:induction false} OutputStays(r: Run, r': Run, step: StepId)
    requires Later(r, r') && r'.w.attempt == r.w.attempt && step in r.w.cells && r.w.cells[step].resolved
    ensures step in r'.w.cells && r'.w.cells[step] == r.w.cells[step]
  {
  }

  /** Where an output can come from, one transition back. */
  lemma {:induction false} OutputBefore(r: Run, a: Action, r': Run, step: StepId)
    requires RunInv(r) && Leads(r, a, r') && step in r'.w.cells && r'.w.cells[step].out.Some?
    ensures || (a.BodyReturns? && a.request in r.running && r.running[a.request].step == step && a.out == r'.w.cells[step].out)
            || (step in r.w.cells && r.w.cells[step].out == r'.w.cells[step].out)
    ensures r'.w.attempt == r.w.attempt
  {
    match a
    case RunStep(attempt, id, settled) => AdmittedOutput(r, Body, attempt, id, settled, step);
    case EvalSkip(attempt, id, settled) => AdmittedOutput(r, Predicate, attempt, id, settled, step);
    case BodyReturns(q, out) => ResolveDescribed(r, q, out, Returned);
    case DeferredSettle(q) => ResolveDescribed(r, q, None, Settled);
    case Finish(q) =>
    case Await(q, target) => AwaitDescribed(r, q, target);
    case Wake(_) =>
    case GiveUp(_) =>
  }

  lemma {:induction false} AdmittedOutput(r: Run, phase: Phase, attempt: int, id: StepId, settled: Option<seq<StepId>>, step: StepId)
    requires RunInv(r) && id in r.w.cells && phase in {Predicate, Body}
    requires var r' := Admit(r, phase, attempt, id, settled); step in r'.w.cells && r'.w.cells[step].out.Some?
    ensures var r' := Admit(r, phase, attempt, id, settled);
            step in r.w.cells && r.w.cells[step].out == r'.w.cells[step].out && r'.w.attempt == r.w.attempt
  {
    if Begin(r.w, attempt, id, settled).Ok? { AdmitDescribed(r, phase, attempt, id, settled); }
  }

  /** The last transition either was the return, or found the output there. */
  lemma {:induction false} OutputEarlier(states: seq<Run>, actions: seq<Action>, n: nat, step: StepId)
    requires IsRun(states, actions) && n < |actions| && step in states[n + 1].w.cells && states[n + 1].w.cells[step].out.Some?
    ensures states[n].w.attempt == states[n + 1].w.attempt
    ensures || Returns(states, actions, n, step, states[n + 1].w.cells[step].out)
            || (step in states[n].w.cells && states[n].w.cells[step].out == states[n + 1].w.cells[step].out)
  {
    EveryStateSafe(states, actions, n);
    assert LeadsAt(states, actions, n);
    OutputBefore(states[n], actions[n], states[n + 1], step);
  }

  lemma {:induction false} OutputWasReturned(states: seq<Run>, actions: seq<Action>, n: nat, step: StepId) returns (k: nat)
    requires IsRun(states, actions) && n < |states| && step in states[n].w.cells && states[n].w.cells[step].out.Some?
    ensures k < n && Returns(states, actions, k, step, states[n].w.cells[step].out) && states[k].w.attempt == states[n].w.attempt
    decreases n
  {
    if n == 0 {
      assert false;
    } else {
      OutputEarlier(states, actions, n - 1, step);
      k := n - 1;
      if !Returns(states, actions, n - 1, step, states[n].w.cells[step].out) {
        k := OutputWasReturned(states, actions, n - 1, step);
      }
    }
  }

  ghost predicate ReturnedInAttempt(states: seq<Run>, actions: seq<Action>, n: nat, step: StepId, out: Option<Output>)
    requires n < |states|
  {
    exists k :: 0 <= k < n && Returns(states, actions, k, step, out) && states[k].w.attempt == states[n].w.attempt
  }

  /** A step shows an output exactly when a body of it returned that output in the current attempt. */
  lemma {:induction false} OutputExactly(states: seq<Run>, actions: seq<Action>, n: nat, step: StepId, v: Output)
    requires IsRun(states, actions) && n < |states| && step in states[n].w.cells
    ensures states[n].w.cells[step].out == Some(v) <==> ReturnedInAttempt(states, actions, n, step, Some(v))
  {
    if states[n].w.cells[step].out == Some(v) {
      var k := OutputWasReturned(states, actions, n, step);
    }
    if ReturnedInAttempt(states, actions, n, step, Some(v)) {
      var k :| 0 <= k < n && Returns(states, actions, k, step, Some(v)) && states[k].w.attempt == states[n].w.attempt;
      ReturnedOutputStays(states, actions, k, n, step, Some(v));
    }
  }
}
