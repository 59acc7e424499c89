/**
 The loop that attaches to a hosted run: it waits for the host, the log follower and at most one
 cancellation request, while interrupts and the context may end them early. A run is any schedule of
 the atomic actions below.
 */
module HereObserver {
  import opened Results

  type Error = string

  const CONTEXT_CANCELED: Error := "context canceled"
  const NO_CLIENT: Error := "here attachment has no cancellation client"
  const NO_HOST: Error := "here attachment requires a host and log reader"

  /** A goroutine with a one-slot result channel: its result is buffered before the loop takes it. */
  datatype Task = Working | Ready(err: Option<Error>) | Joined(err: Option<Error>)

  /** The cancellation goroutine launched i-th, and where the host was when it was launched. */
  datatype Canceller = Canceller(task: Task, hostAtLaunch: Task)

  datatype Source = FromHost | FromFollower | FromCanceller(i: nat)

  /**
   The loop listens to one canceller at a time, named by its place among those launched. While it is
   `requesting` it is inside requestCancellation, before its go statement, and takes no arm. The list
   of cancellers and the results taken so far are history.
   */
  datatype Observer = Observer(
    hasCancel: bool,
    host: Task,
    follow: Task,
    cancelling: Option<nat>,
    cancellers: seq<Canceller>,
    queued: nat,
    closed: bool,
    listening: bool,
    ctxDone: bool,
    watching: bool,
    requesting: bool,
    requested: bool,
    failures: seq<Error>,
    taken: seq<Source>)

  /** requestCancellation: through the client when there is one. A new channel replaces the old one. */
  function Request(o: Observer): Observer {
    if !o.hasCancel then o.(requested := true, failures := o.failures + [NO_CLIENT], ctxDone := true)
    else o.(requested := true, cancelling := Some(|o.cancellers|), cancellers := o.cancellers + [Canceller(Working, o.host)])
  }

  /** Host and follower have been started; an earlier interrupt leads to a request before the first loop head. */
  function Start(hasCancel: bool, interrupted: bool): Observer {
    Observer(hasCancel, Working, Working, None, [], 0, false, true, false, true, interrupted, false, [], [])
  }

  /** The loop's guard is false: nothing is left to wait for. */
  predicate Left(o: Observer) {
    o.host.Joined? && o.follow.Joined? && o.cancelling == None && !o.requesting
  }

  /** The loop is at its select statement. */
  predicate Selecting(o: Observer) {
    !o.requesting && !Left(o)
  }

  datatype Action =
    | HostReturns(err: Option<Error>)
    | FollowReturns(err: Option<Error>)
    | CancelReturns(i: nat, err: Option<Error>)
    | ParentCancels
    | SignalArrives
    | SignalsClose
    | TakeHost
    | TakeFollow
    | TakeCancel
    | TakeSignal
    | Launch
    | SeeClosed
    | SeeDone

  /** What the surroundings do; everything else is the loop or one of its goroutines. */
  predicate External(a: Action) {
    a.ParentCancels? || a.SignalArrives? || a.SignalsClose?
  }

  predicate Enabled(o: Observer, a: Action) {
    match a
    case HostReturns(_) => o.host.Working?
    case FollowReturns(_) => o.follow.Working?
    case CancelReturns(i, _) => i < |o.cancellers| && o.cancellers[i].task.Working?
    case ParentCancels => !o.ctxDone
    case SignalArrives => !o.closed
    case SignalsClose => !o.closed
    case TakeHost => Selecting(o) && o.host.Ready?
    case TakeFollow => Selecting(o) && o.follow.Ready?
    case TakeCancel => Selecting(o) && o.cancelling.Some? && o.cancelling.value < |o.cancellers| && o.cancellers[o.cancelling.value].task.Ready?
    case TakeSignal => Selecting(o) && o.listening && o.queued > 0
    case Launch => o.requesting
    case SeeClosed => Selecting(o) && o.listening && o.queued == 0 && o.closed
    case SeeDone => Selecting(o) && o.watching && o.ctxDone
  }

  function Note(o: Observer, err: Option<Error>): seq<Error> {
    if err.Some? then o.failures + [err.value] else o.failures
  }

  function CancellerAt(o: Observer, i: nat, t: Task): Observer
    requires i < |o.cancellers|
  {
    o.(cancellers := o.cancellers[i := o.cancellers[i].(task := t)])
  }

  function Step(o: Observer, a: Action): Observer
    requires Enabled(o, a)
  {
    match a
    case HostReturns(err) => o.(host := Ready(err))
    case FollowReturns(err) => o.(follow := Ready(err))
    case CancelReturns(i, err) => CancellerAt(o, i, Ready(err))
    case ParentCancels => o.(ctxDone := true)
    case SignalArrives => o.(queued := o.queued + 1)
    case SignalsClose => o.(closed := true)
    case TakeHost =>
      o.(host := Joined(o.host.err), failures := Note(o, o.host.err),
         ctxDone := o.ctxDone || o.host.err.Some?, taken := o.taken + [FromHost])
    case TakeFollow => o.(follow := Joined(o.follow.err), failures := Note(o, o.follow.err), taken := o.taken + [FromFollower])
    case TakeCancel =>
      var i := o.cancelling.value;
      var err := o.cancellers[i].task.err;
      CancellerAt(o, i, Joined(err)).(cancelling := None, failures := Note(o, err), taken := o.taken + [FromCanceller(i)])
    case TakeSignal =>
      var o1 := o.(queued := o.queued - 1);
      if o.requested || o.host.Joined? then o1.(failures := o.failures + [CONTEXT_CANCELED], ctxDone := true)
      else o1.(requesting := true)
    case Launch => Request(o).(requesting := false)
    case SeeClosed => o.(listening := false)
    case SeeDone => o.(failures := o.failures + [CONTEXT_CANCELED], watching := false)
  }

  /** A schedule may name an action that is not enabled; it then changes nothing. */
  function Exec(o: Observer, schedule: seq<Action>): Observer
    decreases |schedule|
  {
    if schedule == [] then o
    else
      var p := Exec(o, schedule[..|schedule| - 1]);
      var a := schedule[|schedule| - 1];
      if Enabled(p, a) then Step(p, a) else p
  }

  lemma {:induction false} ExecNext(o: Observer, init: seq<Action>, a: Action)
    ensures Exec(o, init + [a]) == if Enabled(Exec(o, init), a) then Step(Exec(o, init), a) else Exec(o, init)
  {
    assert (init + [a])[..|init|] == init && (init + [a])[|init|] == a;
  }

  /** What errors.Join is given when the loop is over; the empty list is the nil error. */
  function ReturnedErrors(o: Observer): seq<Error> {
    o.failures + if o.ctxDone then [CONTEXT_CANCELED] else []
  }

  // ---------------------------------------------------------------- the loop itself

  /** The local variables of the Go function and the goroutines it starts. */
  class Attachment {
    const hasCancel: bool
    var host: Task
    var follow: Task
    var cancelling: Option<nat>
    var cancellers: seq<Canceller>
    var queued: nat
    var closed: bool
    var listening: bool
    var ctxDone: bool
    var watching: bool
    var requesting: bool
    var requested: bool
    var failures: seq<Error>
    ghost var taken: seq<Source>

    ghost function State(): Observer
      reads this
    {
      Observer(hasCancel, host, follow, cancelling, cancellers, queued, closed, listening, ctxDone, watching, requesting,
               requested, failures, taken)
    }

    constructor (hasCancel: bool, interrupted: bool)
      ensures State() == Start(hasCancel, interrupted)
    {
      this.hasCancel := hasCancel;
      host, follow, cancelling, cancellers := Working, Working, None, [];
      queued, closed, listening, ctxDone, watching, requested := 0, false, true, false, true, false;
      failures, taken := [], [];
      requesting := interrupted;
    }

    /** requestCancellation from its first line to its go statement. */
    method RequestCancellation()
      requires Enabled(State(), Launch)
      modifies this
      ensures State() == Step(old(State()), Launch)
    {
      requesting, requested := false, true;
      if !hasCancel {
        failures := failures + [NO_CLIENT];
        ctxDone := true;
        return;
      }
      cancelling := Some(|cancellers|);
      cancellers := cancellers + [Canceller(Working, host)];
    }

    /** The arms of the select statement that take the host's and the follower's result. */
    method ResultArm(a: Action)
      requires Enabled(State(), a) && (a.TakeHost? || a.TakeFollow?)
      modifies this
      ensures State() == Step(old(State()), a)
    {
      var err := if a.TakeHost? then host.err else follow.err;
      if a.TakeHost? {
        host, taken := Joined(err), taken + [FromHost];
        ctxDone := ctxDone || err.Some?;
      } else {
        follow, taken := Joined(err), taken + [FromFollower];
      }
      if err.Some? { failures := failures + [err.value]; }
    }

    /** The arm of the canceller the loop listens to. */
    method CancelArm()
      requires Enabled(State(), TakeCancel)
      modifies this
      ensures State() == Step(old(State()), TakeCancel)
    {
      var i := cancelling.value;
      var err := cancellers[i].task.err;
      cancellers := cancellers[i := cancellers[i].(task := Joined(err))];
      cancelling, taken := None, taken + [FromCanceller(i)];
      if err.Some? { failures := failures + [err.value]; }
    }

    /** The arm for a signal: a repeated one, or one after the host's end was taken, stops the context. */
    method SignalArm()
      requires Enabled(State(), TakeSignal)
      modifies this
      ensures State() == Step(old(State()), TakeSignal)
    {
      queued := queued - 1;
      if requested || host.Joined? {
        failures := failures + [CONTEXT_CANCELED];
        ctxDone := true;
      } else {
        requesting := true;
      }
    }

    /** The arms for the closed signal channel and for the context. */
    method ClosingArm(a: Action)
      requires Enabled(State(), a) && (a.SeeClosed? || a.SeeDone?)
      modifies this
      ensures State() == Step(old(State()), a)
    {
      if a.SeeClosed? {
        listening := false;
      } else {
        failures := failures + [CONTEXT_CANCELED];
        watching := false;
      }
    }

    /** A goroutine sends its result into its buffered channel. */
    method Report(a: Action)
      requires Enabled(State(), a) && (a.HostReturns? || a.FollowReturns? || a.CancelReturns?)
      modifies this
      ensures State() == Step(old(State()), a)
    {
      match a {
        case HostReturns(err) => host := Ready(err);
        case FollowReturns(err) => follow := Ready(err);
        case CancelReturns(i, err) => cancellers := cancellers[i := cancellers[i].(task := Ready(err))];
      }
    }

    /** The context and the signal channel. */
    method Surroundings(a: Action)
      requires Enabled(State(), a) && External(a)
      modifies this
      ensures State() == Step(old(State()), a)
    {
      match a {
        case ParentCancels => ctxDone := true;
        case SignalArrives => queued := queued + 1;
        case SignalsClose => closed := true;
      }
    }

    predicate Possible(a: Action)
      reads this
      ensures Possible(a) <==> Enabled(State(), a)
    {
      Enabled(Observer(hasCancel, host, follow, cancelling, cancellers, queued, closed, listening, ctxDone, watching,
                       requesting, requested, failures, []), a)
    }

    /** One move that is possible, whoever makes it. */
    method Move(a: Action)
      requires Enabled(State(), a)
      modifies this
      ensures State() == Step(old(State()), a)
    {
      if External(a) {
        Surroundings(a);
      } else if a.HostReturns? || a.FollowReturns? || a.CancelReturns? {
        Report(a);
      } else if a.TakeHost? || a.TakeFollow? {
        ResultArm(a);
      } else if a.TakeCancel? {
        CancelArm();
      } else if a.TakeSignal? {
        SignalArm();
      } else if a.Launch? {
        RequestCancellation();
      } else {
        ClosingArm(a);
      }
    }

    /** The scheduler's next choice, when it is possible. */
    method Turn(a: Action)
      modifies this
      ensures State() == if Enabled(old(State()), a) then Step(old(State()), a) else old(State())
    {
      if Possible(a) {
        Move(a);
      }
    }

    /** A whole observation under a schedule, with the errors it would return at that point. */
    method Run(schedule: seq<Action>) returns (errors: seq<Error>)
      modifies this
      ensures State() == Exec(old(State()), schedule)
      ensures errors == ReturnedErrors(State())
    {
      var k := 0;
      while k < |schedule|
        invariant 0 <= k <= |schedule|
        invariant State() == Exec(old(State()), schedule[..k])
      {
        ExecNext(old(State()), schedule[..k], schedule[k]);
        assert schedule[..k] + [schedule[k]] == schedule[..k + 1];
        Turn(schedule[k]);
        k := k + 1;
      }
      assert schedule[..k] == schedule;
      errors := failures + if ctxDone then [CONTEXT_CANCELED] else [];
    }
  }

  /** Refused before anything starts: the context has ended, or a host or a log reader is missing. */
  datatype Outcome = NotStarted(err: Error) | Observed(errors: seq<Error>)

  /** observeHereRun from its checks to the errors joined, for a schedule that may end anywhere. */
  method Observe(ctxErr: Option<Error>, hasHost: bool, hasFollow: bool, hasCancel: bool, interrupted: bool, schedule: seq<Action>)
    returns (outcome: Outcome)
    ensures ctxErr.Some? ==> outcome == NotStarted(ctxErr.value)
    ensures ctxErr.None? && !(hasHost && hasFollow) ==> outcome == NotStarted(NO_HOST)
    ensures ctxErr.None? && hasHost && hasFollow ==> outcome == Observed(ReturnedErrors(Exec(Start(hasCancel, interrupted), schedule)))
  {
    if ctxErr.Some? { return NotStarted(ctxErr.value); }
    if !hasHost || !hasFollow { return NotStarted(NO_HOST); }
    var attachment := new Attachment(hasCancel, interrupted);
    var errors := attachment.Run(schedule);
    return Observed(errors);
  }

  // ---------------------------------------------------------------- invariant

  predicate Failed(t: Task) { t.Joined? && t.err.Some? }

  /** At most one canceller, launched before the host's result was taken; the loop listens until its result is taken. */
  predicate LaunchOk(o: Observer) {
    && |o.cancellers| <= 1
    && (o.requesting ==> !o.requested && !o.host.Joined?)
    && (o.cancellers != [] ==> o.requested && o.hasCancel && !o.cancellers[0].hostAtLaunch.Joined?)
    && (o.cancelling.Some? <==> o.cancellers != [] && !o.cancellers[0].task.Joined?)
    && (o.cancelling.Some? ==> o.cancelling.value == 0)
  }

  predicate CancelFailed(o: Observer) { o.cancellers != [] && Failed(o.cancellers[0].task) }

  predicate SomeoneFailed(o: Observer) { Failed(o.host) || Failed(o.follow) || CancelFailed(o) }

  predicate ContextOk(o: Observer) {
    && (o.requested && !o.hasCancel ==> o.ctxDone)
    && (Failed(o.host) ==> o.ctxDone)
  }

  /** Every failure is accounted for, and none is invented. */
  predicate FailuresOk(o: Observer) {
    && (SomeoneFailed(o) ==> o.failures != [])
    && (o.failures != [] ==> o.ctxDone || SomeoneFailed(o))
  }

  predicate IsTaken(o: Observer, s: Source) {
    match s
    case FromHost => o.host.Joined?
    case FromFollower => o.follow.Joined?
    case FromCanceller(i) => i < |o.cancellers| && o.cancellers[i].task.Joined?
  }

  /** Exactly the joined results were taken, each once. */
  ghost predicate TakenOk(o: Observer) {
    && (forall s :: s in o.taken <==> IsTaken(o, s))
    && NoDuplicates(o.taken)
  }

  predicate NoDuplicates(taken: seq<Source>) {
    forall i, j :: 0 <= i < j < |taken| ==> taken[i] != taken[j]
  }

  ghost predicate Inv(o: Observer) {
    LaunchOk(o) && ContextOk(o) && FailuresOk(o) && TakenOk(o)
  }

  lemma {:induction false} TakeOnce(o: Observer, s: Source, o': Observer)
    requires TakenOk(o) && !IsTaken(o, s) && o'.taken == o.taken + [s]
    requires forall x :: IsTaken(o', x) <==> IsTaken(o, x) || x == s
    ensures TakenOk(o')
  {
    var t := o'.taken;
    assert t[|o.taken|] == s;
    assert forall x :: x in t <==> x in o.taken || x == s;
  }

  lemma {:induction false} TakeNothing(o: Observer, o': Observer)
    requires TakenOk(o) && o'.taken == o.taken
    requires forall x :: IsTaken(o', x) <==> IsTaken(o, x)
    ensures TakenOk(o')
  {
  }

  // ---------------------------------------------------------------- one step

  /** What every step keeps, whoever makes it. */
  ghost predicate Advances(o: Observer, a: Action, o': Observer) {
    && Inv(o') && o'.hasCancel == o.hasCancel && (o.ctxDone ==> o'.ctxDone)
    && (o'.host.Working? <==> o.host.Working? && !a.HostReturns?)
    && (LaunchedLate(o') <==> LaunchedLate(o) || (a.Launch? && o.hasCancel && !o.host.Working?))
    && Measure(o') + (if External(a) then 0 else 1) <= Measure(o) + (if a.SignalArrives? then 1 else 0)
  }

  /** A result from the moment it is sent: whether there is one, and its error. */
  function Sent(t: Task): Option<Option<Error>> {
    match t case Working => None case Ready(err) => Some(err) case Joined(err) => Some(err)
  }

  function SentBy(o: Observer, s: Source): Option<Option<Error>> {
    match s
    case FromHost => Sent(o.host)
    case FromFollower => Sent(o.follow)
    case FromCanceller(i) => if i < |o.cancellers| then Sent(o.cancellers[i].task) else None
  }

  function ErrorOf(result: Option<Option<Error>>): seq<Error> {
    if result.Some? && result.value.Some? then [result.value.value] else []
  }

  predicate CancelTaken(o: Observer) {
    o.cancellers != [] && o.cancellers[0].task.Joined?
  }

  /** How results, signals, requests and what was taken go through one step. */
  ghost predicate Carries(o: Observer, a: Action, o': Observer) {
    && (forall s :: SentBy(o', s) == if ReportsFor(a, s) then Some(a.err) else SentBy(o, s))
    && (o'.host.Joined? <==> o.host.Joined? || a.TakeHost?) && (o'.follow.Joined? <==> o.follow.Joined? || a.TakeFollow?)
    && (CancelTaken(o') <==> CancelTaken(o) || a.TakeCancel?)
    && (o'.cancellers != [] <==> o.cancellers != [] || (a.Launch? && o.hasCancel))
    && (o'.requested <==> o.requested || a.Launch?)
    && (o'.requesting <==> (o.requesting && !a.Launch?) || (a.TakeSignal? && !o.requested && !o.host.Joined?))
    && o'.queued + (if a.TakeSignal? then 1 else 0) == o.queued + (if a.SignalArrives? then 1 else 0)
    && (o'.closed <==> o.closed || a.SignalsClose?)
    && (o'.listening <==> o.listening && !a.SeeClosed?) && (o'.watching <==> o.watching && !a.SeeDone?)
  }

  predicate ReportsFor(a: Action, s: Source) {
    match s
    case FromHost => a.HostReturns?
    case FromFollower => a.FollowReturns?
    case FromCanceller(i) => a.CancelReturns? && a.i == i
  }

  /** The errors one move adds, told by the state before it. */
  function AddsNow(o: Observer, a: Action): seq<Error> {
    match a
    case TakeHost => ErrorOf(SentBy(o, FromHost))
    case TakeFollow => ErrorOf(SentBy(o, FromFollower))
    case TakeCancel => ErrorOf(SentBy(o, FromCanceller(0)))
    case TakeSignal => if o.requested || o.host.Joined? then [CONTEXT_CANCELED] else []
    case Launch => if o.hasCancel then [] else [NO_CLIENT]
    case SeeDone => [CONTEXT_CANCELED]
    case _ => []
  }

  predicate StopsNow(o: Observer, a: Action) {
    match a
    case ParentCancels => true
    case TakeHost => ErrorOf(SentBy(o, FromHost)) != []
    case TakeSignal => o.requested || o.host.Joined?
    case Launch => !o.hasCancel
    case _ => false
  }

  predicate Tells(o: Observer, a: Action, o': Observer) {
    o'.failures == o.failures + AddsNow(o, a) && (o'.ctxDone <==> o.ctxDone || StopsNow(o, a))
  }

  lemma {:induction false} HostReturnsAdvances(o: Observer, err: Option<Error>)
    requires Inv(o) && Enabled(o, HostReturns(err))
    ensures Advances(o, HostReturns(err), Step(o, HostReturns(err)))
    ensures Carries(o, HostReturns(err), Step(o, HostReturns(err))) && Tells(o, HostReturns(err), Step(o, HostReturns(err)))
  {
    TakeNothing(o, Step(o, HostReturns(err)));
  }

  lemma {:induction false} FollowReturnsAdvances(o: Observer, err: Option<Error>)
    requires Inv(o) && Enabled(o, FollowReturns(err))
    ensures Advances(o, FollowReturns(err), Step(o, FollowReturns(err)))
    ensures Carries(o, FollowReturns(err), Step(o, FollowReturns(err))) && Tells(o, FollowReturns(err), Step(o, FollowReturns(err)))
  {
    TakeNothing(o, Step(o, FollowReturns(err)));
  }

  lemma {:induction false} CancelReturnsAdvances(o: Observer, i: nat, err: Option<Error>)
    requires Inv(o) && Enabled(o, CancelReturns(i, err))
    ensures Advances(o, CancelReturns(i, err), Step(o, CancelReturns(i, err)))
    ensures Carries(o, CancelReturns(i, err), Step(o, CancelReturns(i, err))) && Tells(o, CancelReturns(i, err), Step(o, CancelReturns(i, err)))
  {
    TakeNothing(o, Step(o, CancelReturns(i, err)));
  }

  /** The context and the signal channel. */
  lemma {:induction false} SurroundingsAdvance(o: Observer, a: Action)
    requires Inv(o) && External(a) && Enabled(o, a)
    ensures Advances(o, a, Step(o, a))
    ensures Carries(o, a, Step(o, a)) && Tells(o, a, Step(o, a))
  {
    TakeNothing(o, Step(o, a));
  }

  lemma {:induction false} TakeHostAdvances(o: Observer)
    requires Inv(o) && Enabled(o, TakeHost)
    ensures Advances(o, TakeHost, Step(o, TakeHost))
    ensures Carries(o, TakeHost, Step(o, TakeHost)) && Tells(o, TakeHost, Step(o, TakeHost))
  {
    TakeOnce(o, FromHost, Step(o, TakeHost));
  }

  lemma {:induction false} TakeFollowAdvances(o: Observer)
    requires Inv(o) && Enabled(o, TakeFollow)
    ensures Advances(o, TakeFollow, Step(o, TakeFollow))
    ensures Carries(o, TakeFollow, Step(o, TakeFollow)) && Tells(o, TakeFollow, Step(o, TakeFollow))
  {
    TakeOnce(o, FromFollower, Step(o, TakeFollow));
  }

  lemma {:induction false} TakeCancelAdvances(o: Observer)
    requires Inv(o) && Enabled(o, TakeCancel)
    ensures Advances(o, TakeCancel, Step(o, TakeCancel))
    ensures Carries(o, TakeCancel, Step(o, TakeCancel)) && Tells(o, TakeCancel, Step(o, TakeCancel))
  {
    TakeOnce(o, FromCanceller(0), Step(o, TakeCancel));
  }

  lemma {:induction false} TakeSignalAdvances(o: Observer)
    requires Inv(o) && Enabled(o, TakeSignal)
    ensures Advances(o, TakeSignal, Step(o, TakeSignal))
    ensures Carries(o, TakeSignal, Step(o, TakeSignal)) && Tells(o, TakeSignal, Step(o, TakeSignal))
  {
    TakeNothing(o, Step(o, TakeSignal));
  }

  lemma {:induction false} LaunchAdvances(o: Observer)
    requires Inv(o) && Enabled(o, Launch)
    ensures Advances(o, Launch, Step(o, Launch))
    ensures Carries(o, Launch, Step(o, Launch)) && Tells(o, Launch, Step(o, Launch))
  {
    TakeNothing(o, Step(o, Launch));
  }

  lemma {:induction false} SeeClosedAdvances(o: Observer)
    requires Inv(o) && Enabled(o, SeeClosed)
    ensures Advances(o, SeeClosed, Step(o, SeeClosed))
    ensures Carries(o, SeeClosed, Step(o, SeeClosed)) && Tells(o, SeeClosed, Step(o, SeeClosed))
  {
    TakeNothing(o, Step(o, SeeClosed));
  }

  lemma {:induction false} SeeDoneAdvances(o: Observer)
    requires Inv(o) && Enabled(o, SeeDone)
    ensures Advances(o, SeeDone, Step(o, SeeDone))
    ensures Carries(o, SeeDone, Step(o, SeeDone)) && Tells(o, SeeDone, Step(o, SeeDone))
  {
    TakeNothing(o, Step(o, SeeDone));
  }

  lemma {:induction false} StepAdvances(o: Observer, a: Action)
    requires Inv(o) && Enabled(o, a)
    ensures Advances(o, a, Step(o, a))
    ensures Carries(o, a, Step(o, a)) && Tells(o, a, Step(o, a))
  {
    match a
    case HostReturns(err) => HostReturnsAdvances(o, err);
    case FollowReturns(err) => FollowReturnsAdvances(o, err);
    case CancelReturns(i, err) => CancelReturnsAdvances(o, i, err);
    case TakeHost => TakeHostAdvances(o);
    case TakeFollow => TakeFollowAdvances(o);
    case TakeCancel => TakeCancelAdvances(o);
    case TakeSignal => TakeSignalAdvances(o);
    case Launch => LaunchAdvances(o);
    case SeeClosed => SeeClosedAdvances(o);
    case SeeDone => SeeDoneAdvances(o);
    case _ => SurroundingsAdvance(o, a);
  }

  lemma {:induction false} StartInv(hasCancel: bool, interrupted: bool)
    ensures Inv(Start(hasCancel, interrupted))
  {
  }

  lemma {:induction false} Safe(hasCancel: bool, interrupted: bool, schedule: seq<Action>)
    ensures Inv(Exec(Start(hasCancel, interrupted), schedule))
    ensures Exec(Start(hasCancel, interrupted), schedule).hasCancel == hasCancel
    decreases |schedule|
  {
    if schedule == [] {
      StartInv(hasCancel, interrupted);
    } else {
      var init, a := schedule[..|schedule| - 1], schedule[|schedule| - 1];
      Safe(hasCancel, interrupted, init);
      var p := Exec(Start(hasCancel, interrupted), init);
      if Enabled(p, a) { StepAdvances(p, a); }
    }
  }

  // ---------------------------------------------------------------- statements about every schedule

  /** It returns only after every goroutine it started delivered, and each result was taken once. */
  lemma {:induction false} ReturnsAfterEveryoneDelivered(hasCancel: bool, interrupted: bool, schedule: seq<Action>, o: Observer)
    requires o == Exec(Start(hasCancel, interrupted), schedule) && Left(o)
    ensures o.host.Joined? && o.follow.Joined? && forall i :: 0 <= i < |o.cancellers| ==> o.cancellers[i].task.Joined?
    ensures forall s :: s in o.taken <==> s == FromHost || s == FromFollower || (s.FromCanceller? && s.i < |o.cancellers|)
    ensures NoDuplicates(o.taken)
  {
    Safe(hasCancel, interrupted, schedule);
  }

  /** A context once cancelled stays so. */
  lemma {:induction false} CancellationSticks(hasCancel: bool, interrupted: bool, schedule: seq<Action>, k: nat)
    requires k <= |schedule| && Exec(Start(hasCancel, interrupted), schedule[..k]).ctxDone
    ensures Exec(Start(hasCancel, interrupted), schedule).ctxDone
    decreases |schedule|
  {
    if k == |schedule| {
      assert schedule[..k] == schedule;
    } else {
      var init, a := schedule[..|schedule| - 1], schedule[|schedule| - 1];
      assert init[..k] == schedule[..k];
      CancellationSticks(hasCancel, interrupted, init, k);
      Safe(hasCancel, interrupted, init);
      var p := Exec(Start(hasCancel, interrupted), init);
      if Enabled(p, a) { StepAdvances(p, a); }
    }
  }

  ghost predicate NeverCancelled(hasCancel: bool, interrupted: bool, schedule: seq<Action>) {
    forall k :: 0 <= k <= |schedule| ==> !Exec(Start(hasCancel, interrupted), schedule[..k]).ctxDone
  }

  lemma {:induction false} NeverCancelledExactly(hasCancel: bool, interrupted: bool, schedule: seq<Action>)
    ensures NeverCancelled(hasCancel, interrupted, schedule) <==> !Exec(Start(hasCancel, interrupted), schedule).ctxDone
  {
    assert schedule[..|schedule|] == schedule;
    forall k | 0 <= k <= |schedule| && Exec(Start(hasCancel, interrupted), schedule[..k]).ctxDone
      ensures Exec(Start(hasCancel, interrupted), schedule).ctxDone
    {
      CancellationSticks(hasCancel, interrupted, schedule, k);
    }
  }

  /** The nil error means exactly that all of them succeeded and the context was never cancelled on the way. */
  lemma {:induction false} NilErrorExactly(hasCancel: bool, interrupted: bool, schedule: seq<Action>, o: Observer)
    requires o == Exec(Start(hasCancel, interrupted), schedule) && Left(o)
    ensures ReturnedErrors(o) == [] <==>
            && o.host == Joined(None) && o.follow == Joined(None)
            && (forall i :: 0 <= i < |o.cancellers| ==> o.cancellers[i].task == Joined(None))
            && NeverCancelled(hasCancel, interrupted, schedule)
  {
    Safe(hasCancel, interrupted, schedule);
    NeverCancelledExactly(hasCancel, interrupted, schedule);
  }

  /** Cancellation is launched at most once, whatever happens, and only when asked for and possible. */
  lemma {:induction false} RequestsAtMostOnce(hasCancel: bool, interrupted: bool, schedule: seq<Action>)
    ensures var o := Exec(Start(hasCancel, interrupted), schedule);
            |o.cancellers| <= 1 && (o.cancellers != [] ==> o.requested && o.hasCancel) && o.hasCancel == hasCancel
  {
    Safe(hasCancel, interrupted, schedule);
  }

  /** Cancellation is never launched after the loop has taken the host's result. */
  lemma {:induction false} NeverRequestsAfterJoin(hasCancel: bool, interrupted: bool, schedule: seq<Action>, i: nat)
    requires i < |Exec(Start(hasCancel, interrupted), schedule).cancellers|
    ensures !Exec(Start(hasCancel, interrupted), schedule).cancellers[i].hostAtLaunch.Joined?
  {
    Safe(hasCancel, interrupted, schedule);
  }

  // ---------------------------------------------------------------- which errors, and when the context stops

  /** The result a goroutine sent, among the moves of a schedule that took effect. */
  function Result(o: Observer, schedule: seq<Action>, s: Source): Option<Option<Error>>
    decreases |schedule|
  {
    if schedule == [] then None
    else
      var init, a := schedule[..|schedule| - 1], schedule[|schedule| - 1];
      if ReportsFor(a, s) && Enabled(Exec(o, init), a) then Some(a.err) else Result(o, init, s)
  }

  /** The move is among those that took effect. */
  predicate Took(o: Observer, schedule: seq<Action>, move: Action)
    decreases |schedule|
  {
    && schedule != []
    && var init, a := schedule[..|schedule| - 1], schedule[|schedule| - 1];
       Took(o, init, move) || (a == move && Enabled(Exec(o, init), a))
  }

  /** A signal means the end of waiting once a request was launched or the host's end was taken. */
  predicate Insists(o: Observer, schedule: seq<Action>) {
    Took(o, schedule, Launch) || Took(o, schedule, TakeHost)
  }

  /** The errors a move adds, told by the moves before it. */
  function Adds(o: Observer, before: seq<Action>, a: Action): seq<Error> {
    match a
    case TakeHost => ErrorOf(Result(o, before, FromHost))
    case TakeFollow => ErrorOf(Result(o, before, FromFollower))
    case TakeCancel => ErrorOf(Result(o, before, FromCanceller(0)))
    case TakeSignal => if Insists(o, before) then [CONTEXT_CANCELED] else []
    case Launch => if o.hasCancel then [] else [NO_CLIENT]
    case SeeDone => [CONTEXT_CANCELED]
    case _ => []
  }

  /** Whether a move stops the context, told by the moves before it. */
  predicate Stops(o: Observer, before: seq<Action>, a: Action) {
    match a
    case ParentCancels => true
    case TakeHost => ErrorOf(Result(o, before, FromHost)) != []
    case TakeSignal => Insists(o, before)
    case Launch => !o.hasCancel
    case _ => false
  }

  /** The errors of all moves that took effect, in their order. */
  function AllAdded(o: Observer, schedule: seq<Action>): seq<Error>
    decreases |schedule|
  {
    if schedule == [] then []
    else
      var init, a := schedule[..|schedule| - 1], schedule[|schedule| - 1];
      AllAdded(o, init) + if Enabled(Exec(o, init), a) then Adds(o, init, a) else []
  }

  /** Some move that took effect stopped the context. */
  predicate Stopped(o: Observer, schedule: seq<Action>)
    decreases |schedule|
  {
    && schedule != []
    && var init, a := schedule[..|schedule| - 1], schedule[|schedule| - 1];
       Stopped(o, init) || (Enabled(Exec(o, init), a) && Stops(o, init, a))
  }

  lemma {:induction false} ResultsAreSent(hasCancel: bool, interrupted: bool, schedule: seq<Action>, src: Source)
    ensures var s := Start(hasCancel, interrupted); SentBy(Exec(s, schedule), src) == Result(s, schedule, src)
    decreases |schedule|
  {
    if schedule != [] {
      var s, init, a := Start(hasCancel, interrupted), schedule[..|schedule| - 1], schedule[|schedule| - 1];
      ResultsAreSent(hasCancel, interrupted, init, src);
      Safe(hasCancel, interrupted, init);
      if Enabled(Exec(s, init), a) { StepAdvances(Exec(s, init), a); }
    }
  }

  /** How often the move took effect. */
  function Times(o: Observer, schedule: seq<Action>, move: Action): nat
    decreases |schedule|
  {
    if schedule == [] then 0
    else
      var init, a := schedule[..|schedule| - 1], schedule[|schedule| - 1];
      Times(o, init, move) + if a == move && Enabled(Exec(o, init), a) then 1 else 0
  }

  /** A signal was taken that asked for cancellation. */
  predicate AskedBySignal(o: Observer, schedule: seq<Action>)
    decreases |schedule|
  {
    && schedule != []
    && var init, a := schedule[..|schedule| - 1], schedule[|schedule| - 1];
       AskedBySignal(o, init) || (a.TakeSignal? && Enabled(Exec(o, init), a) && !Insists(o, init))
  }

  /** The state says which moves took effect. */
  ghost predicate Tallies(s: Observer, schedule: seq<Action>, o: Observer) {
    && (o.requested <==> Took(s, schedule, Launch))
    && (o.host.Joined? <==> Took(s, schedule, TakeHost)) && (o.follow.Joined? <==> Took(s, schedule, TakeFollow))
    && (CancelTaken(o) <==> Took(s, schedule, TakeCancel))
    && (o.cancellers != [] <==> s.hasCancel && Took(s, schedule, Launch))
    && (o.requesting || o.requested <==> s.requesting || AskedBySignal(s, schedule))
    && (o.requesting ==> !o.requested)
    && o.queued + Times(s, schedule, TakeSignal) == Times(s, schedule, SignalArrives)
    && (o.closed <==> Took(s, schedule, SignalsClose))
    && (o.listening <==> !Took(s, schedule, SeeClosed)) && (o.watching <==> !Took(s, schedule, SeeDone))
  }

  lemma {:induction false} TookNext(s: Observer, init: seq<Action>, a: Action, move: Action)
    ensures Took(s, init + [a], move) <==> Took(s, init, move) || (a == move && Enabled(Exec(s, init), a))
    ensures Times(s, init + [a], move) == Times(s, init, move) + if a == move && Enabled(Exec(s, init), a) then 1 else 0
  {
    assert (init + [a])[..|init|] == init && (init + [a])[|init|] == a;
  }

  lemma {:induction false} AskedNext(s: Observer, init: seq<Action>, a: Action)
    ensures AskedBySignal(s, init + [a]) <==> AskedBySignal(s, init) || (a.TakeSignal? && Enabled(Exec(s, init), a) && !Insists(s, init))
  {
    assert (init + [a])[..|init|] == init && (init + [a])[|init|] == a;
  }

  /** The tallies after one more move, told by those before it. */
  lemma {:induction false} TallyNext(s: Observer, init: seq<Action>, a: Action, all: seq<Action>, p: Observer, p': Observer)
    requires all == init + [a] && Tallies(s, init, p) && p.hasCancel == s.hasCancel && LaunchOk(p')
    requires if Enabled(Exec(s, init), a) then Carries(p, a, p') else p' == p
    requires a.Launch? && Enabled(Exec(s, init), a) ==> p.requesting
    ensures Tallies(s, all, p')
  {
    TookNext(s, init, a, Launch);
    TookNext(s, init, a, TakeHost);
    TookNext(s, init, a, TakeFollow);
    TookNext(s, init, a, TakeCancel);
    TookNext(s, init, a, TakeSignal);
    TookNext(s, init, a, SignalArrives);
    TookNext(s, init, a, SignalsClose);
    TookNext(s, init, a, SeeClosed);
    TookNext(s, init, a, SeeDone);
    AskedNext(s, init, a);
  }

  lemma {:induction false} StateTallies(hasCancel: bool, interrupted: bool, schedule: seq<Action>)
    ensures Tallies(Start(hasCancel, interrupted), schedule, Exec(Start(hasCancel, interrupted), schedule))
    decreases |schedule|
  {
    var s := Start(hasCancel, interrupted);
    if schedule != [] {
      var init, a := schedule[..|schedule| - 1], schedule[|schedule| - 1];
      assert schedule == init + [a];
      var p := Exec(s, init);
      StateTallies(hasCancel, interrupted, init);
      Safe(hasCancel, interrupted, init);
      if Enabled(p, a) { StepAdvances(p, a); }
      TallyNext(s, init, a, schedule, p, Exec(s, schedule));
    }
  }

  lemma {:induction false} ToldNext(o: Observer, p: Observer, init: seq<Action>, a: Action, p': Observer)
    requires Tells(p, a, p') && p.hasCancel == o.hasCancel
    requires forall s :: SentBy(p, s) == Result(o, init, s)
    requires (p.requested <==> Took(o, init, Launch)) && (p.host.Joined? <==> Took(o, init, TakeHost))
    ensures p'.failures == p.failures + Adds(o, init, a)
    ensures p'.ctxDone <==> p.ctxDone || Stops(o, init, a)
  {
  }

  lemma {:induction false} ErrorsAndStop(hasCancel: bool, interrupted: bool, schedule: seq<Action>)
    ensures var s, o := Start(hasCancel, interrupted), Exec(Start(hasCancel, interrupted), schedule);
            o.failures == AllAdded(s, schedule) && (o.ctxDone <==> Stopped(s, schedule))
    decreases |schedule|
  {
    if schedule != [] {
      var s, init, a := Start(hasCancel, interrupted), schedule[..|schedule| - 1], schedule[|schedule| - 1];
      ErrorsAndStop(hasCancel, interrupted, init);
      Safe(hasCancel, interrupted, init);
      StateTallies(hasCancel, interrupted, init);
      forall src ensures SentBy(Exec(s, init), src) == Result(s, init, src) {
        ResultsAreSent(hasCancel, interrupted, init, src);
      }
      if Enabled(Exec(s, init), a) {
        StepAdvances(Exec(s, init), a);
        ToldNext(s, Exec(s, init), init, a, Step(Exec(s, init), a));
      }
    }
  }

  /**
   The context is cancelled exactly when the surroundings cancelled it, the host's error was taken, a
   request found no client, or a signal was taken after a request or after the host's end.
   */
  lemma {:induction false} ContextStopsExactly(hasCancel: bool, interrupted: bool, schedule: seq<Action>)
    ensures var s := Start(hasCancel, interrupted); Exec(s, schedule).ctxDone <==> Stopped(s, schedule)
  {
    ErrorsAndStop(hasCancel, interrupted, schedule);
  }

  /**
   The errors joined are those of the results taken, of a request without a client, one for each
   insisting signal and one when the loop saw the end of the context, in the order of these moves,
   and last the context's own error.
   */
  lemma {:induction false} ErrorsExactly(hasCancel: bool, interrupted: bool, schedule: seq<Action>)
    ensures var s := Start(hasCancel, interrupted);
            ReturnedErrors(Exec(s, schedule)) == AllAdded(s, schedule) + if Stopped(s, schedule) then [CONTEXT_CANCELED] else []
  {
    ErrorsAndStop(hasCancel, interrupted, schedule);
  }

  /** While a request was asked for and not launched, the loop launches it and does nothing else. */
  lemma {:induction false} RequestComesFirst(hasCancel: bool, interrupted: bool, schedule: seq<Action>, s: Observer, o: Observer)
    requires s == Start(hasCancel, interrupted) && o == Exec(s, schedule)
    ensures Enabled(o, Launch) <==> (interrupted || AskedBySignal(s, schedule)) && !Took(s, schedule, Launch)
    ensures Enabled(o, Launch) ==>
              !Enabled(o, TakeHost) && !Enabled(o, TakeFollow) && !Enabled(o, TakeCancel) && !Enabled(o, TakeSignal)
              && !Enabled(o, SeeClosed) && !Enabled(o, SeeDone)
  {
    StateTallies(hasCancel, interrupted, schedule);
  }

  /** At its select the loop can take exactly the results that were sent and not taken. */
  lemma {:induction false} ResultArmsExactly(hasCancel: bool, interrupted: bool, schedule: seq<Action>, s: Observer, o: Observer)
    requires s == Start(hasCancel, interrupted) && o == Exec(s, schedule) && Selecting(o)
    ensures Enabled(o, TakeHost) <==> Result(s, schedule, FromHost).Some? && !Took(s, schedule, TakeHost)
    ensures Enabled(o, TakeFollow) <==> Result(s, schedule, FromFollower).Some? && !Took(s, schedule, TakeFollow)
    ensures Enabled(o, TakeCancel) <==> Result(s, schedule, FromCanceller(0)).Some? && !Took(s, schedule, TakeCancel)
  {
    Safe(hasCancel, interrupted, schedule);
    StateTallies(hasCancel, interrupted, schedule);
    ResultsAreSent(hasCancel, interrupted, schedule, FromHost);
    ResultsAreSent(hasCancel, interrupted, schedule, FromFollower);
    ResultsAreSent(hasCancel, interrupted, schedule, FromCanceller(0));
  }

  /**
   At its select the loop can take a signal that arrived and was not taken, the closed channel once no
   signal is left in it, and the end of the context once.
   */
  lemma {:induction false} SignalArmsExactly(hasCancel: bool, interrupted: bool, schedule: seq<Action>, s: Observer, o: Observer)
    requires s == Start(hasCancel, interrupted) && o == Exec(s, schedule) && Selecting(o)
    ensures Enabled(o, TakeSignal) <==>
              !Took(s, schedule, SeeClosed) && Times(s, schedule, TakeSignal) < Times(s, schedule, SignalArrives)
    ensures Enabled(o, SeeClosed) <==>
              && !Took(s, schedule, SeeClosed) && Took(s, schedule, SignalsClose)
              && Times(s, schedule, TakeSignal) == Times(s, schedule, SignalArrives)
    ensures Enabled(o, SeeDone) <==> !Took(s, schedule, SeeDone) && Stopped(s, schedule)
  {
    StateTallies(hasCancel, interrupted, schedule);
    ContextStopsExactly(hasCancel, interrupted, schedule);
  }

  /** It leaves exactly when the results of host, follower and the canceller, if one was launched, were taken. */
  lemma {:induction false} LeavesExactly(hasCancel: bool, interrupted: bool, schedule: seq<Action>, s: Observer)
    requires s == Start(hasCancel, interrupted)
    ensures Left(Exec(s, schedule)) <==>
              && Took(s, schedule, TakeHost) && Took(s, schedule, TakeFollow)
              && (hasCancel && Took(s, schedule, Launch) ==> Took(s, schedule, TakeCancel))
  {
    Safe(hasCancel, interrupted, schedule);
    StateTallies(hasCancel, interrupted, schedule);
  }

  // ---------------------------------------------------------------- a request after the host finished

  /** The host had finished, its result still buffered, when a cancellation was launched. */
  predicate LateRequest(o: Observer) {
    exists i :: 0 <= i < |o.cancellers| && o.cancellers[i].hostAtLaunch.Ready?
  }

  /** The same where there is one canceller at most. */
  predicate LaunchedLate(o: Observer) {
    o.cancellers != [] && o.cancellers[0].hostAtLaunch.Ready?
  }

  lemma {:induction false} OneLaunch(o: Observer)
    requires LaunchOk(o)
    ensures LateRequest(o) <==> LaunchedLate(o)
  {
  }

  /** The k-th action of a schedule takes effect. */
  predicate Happens(o: Observer, schedule: seq<Action>, k: nat)
    requires k < |schedule|
  {
    Enabled(Exec(o, schedule[..k]), schedule[k])
  }

  predicate HostReports(o: Observer, schedule: seq<Action>, k: nat) {
    k < |schedule| && schedule[k].HostReturns? && Happens(o, schedule, k)
  }

  predicate Launches(o: Observer, schedule: seq<Action>, k: nat) {
    k < |schedule| && schedule[k].Launch? && Happens(o, schedule, k)
  }

  /** The host's end comes before the go statement of the request. */
  ghost predicate HostOvertaken(o: Observer, schedule: seq<Action>) {
    exists i: nat, j: nat :: i < j && HostReports(o, schedule, i) && Launches(o, schedule, j)
  }

  lemma {:induction false} HappensBefore(o: Observer, init: seq<Action>, a: Action, k: nat)
    requires k < |init|
    ensures HostReports(o, init + [a], k) == HostReports(o, init, k)
    ensures Launches(o, init + [a], k) == Launches(o, init, k)
  {
    assert (init + [a])[..k] == init[..k] && (init + [a])[k] == init[k];
  }

  ghost predicate HasReported(o: Observer, schedule: seq<Action>) {
    exists i: nat :: HostReports(o, schedule, i)
  }

  /** The host is at work until its end is among the actions that took effect. */
  lemma {:induction false} WorkingUntilReported(hasCancel: bool, interrupted: bool, schedule: seq<Action>)
    ensures var s := Start(hasCancel, interrupted); Exec(s, schedule).host.Working? <==> !HasReported(s, schedule)
    decreases |schedule|
  {
    var s := Start(hasCancel, interrupted);
    if schedule != [] {
      var init, a := schedule[..|schedule| - 1], schedule[|schedule| - 1];
      assert schedule == init + [a];
      WorkingUntilReported(hasCancel, interrupted, init);
      ExecNext(s, init, a);
      ReportedNext(s, init, a);
      Safe(hasCancel, interrupted, init);
      if Enabled(Exec(s, init), a) { StepAdvances(Exec(s, init), a); }
    }
  }

  lemma {:induction false} ReportedNext(o: Observer, init: seq<Action>, a: Action)
    ensures HasReported(o, init + [a]) <==> HasReported(o, init) || (a.HostReturns? && Enabled(Exec(o, init), a))
  {
    var n := |init|;
    assert (init + [a])[..n] == init && (init + [a])[n] == a;
    assert HostReports(o, init + [a], n) <==> a.HostReturns? && Enabled(Exec(o, init), a);
    forall k: nat | k < n ensures HostReports(o, init + [a], k) == HostReports(o, init, k) {
      HappensBefore(o, init, a, k);
    }
  }

  lemma {:induction false} OvertakenNext(o: Observer, init: seq<Action>, a: Action)
    ensures HostOvertaken(o, init + [a]) <==>
              HostOvertaken(o, init) || (HasReported(o, init) && a.Launch? && Enabled(Exec(o, init), a))
  {
    var n, all := |init|, init + [a];
    assert all[..n] == init && all[n] == a;
    forall k: nat | k < n ensures HostReports(o, all, k) == HostReports(o, init, k) && Launches(o, all, k) == Launches(o, init, k) {
      HappensBefore(o, init, a, k);
    }
    assert Launches(o, all, n) <==> a.Launch? && Enabled(Exec(o, init), a);
    if HostOvertaken(o, init) {
      var i: nat, j: nat :| i < j && HostReports(o, init, i) && Launches(o, init, j);
      assert HostReports(o, all, i) && Launches(o, all, j);
    } else if HasReported(o, init) && Launches(o, all, n) {
      var i: nat :| HostReports(o, init, i);
      assert HostReports(o, all, i);
    }
  }

  lemma {:induction false} LaunchedLateExactly(hasCancel: bool, interrupted: bool, schedule: seq<Action>)
    ensures var s := Start(hasCancel, interrupted);
            LaunchedLate(Exec(s, schedule)) <==> hasCancel && HostOvertaken(s, schedule)
    decreases |schedule|
  {
    var s := Start(hasCancel, interrupted);
    if schedule != [] {
      var init, a := schedule[..|schedule| - 1], schedule[|schedule| - 1];
      assert schedule == init + [a];
      LaunchedLateExactly(hasCancel, interrupted, init);
      Safe(hasCancel, interrupted, init);
      ExecNext(s, init, a);
      OvertakenNext(s, init, a);
      WorkingUntilReported(hasCancel, interrupted, init);
      if Enabled(Exec(s, init), a) { StepAdvances(Exec(s, init), a); }
    }
  }

  /**
   Which schedules do it, in either direction: those of a call with a client in which the host's end
   comes before the request's go statement, wherever the request was decided.
   */
  lemma {:induction false} LateRequestExactly(hasCancel: bool, interrupted: bool, schedule: seq<Action>)
    ensures var s := Start(hasCancel, interrupted);
            LateRequest(Exec(s, schedule)) <==> hasCancel && HostOvertaken(s, schedule)
  {
    Safe(hasCancel, interrupted, schedule);
    OneLaunch(Exec(Start(hasCancel, interrupted), schedule));
    LaunchedLateExactly(hasCancel, interrupted, schedule);
  }

  /** The host ends between the interrupt and the go statement of the request it leads to. */
  function LateSchedule(interrupted: bool): seq<Action> {
    if interrupted then [HostReturns(None), Launch] else [SignalArrives, TakeSignal, HostReturns(None), Launch]
  }

  /** The host has ended before the signal is taken: the select may prefer the signal. */
  const OVERTAKING: seq<Action> := [HostReturns(None), SignalArrives, TakeSignal, Launch]

  lemma {:induction false} ExecTwo(o: Observer, a: Action, b: Action)
    requires Enabled(o, a) && Enabled(Step(o, a), b)
    ensures Exec(o, [a, b]) == Step(Step(o, a), b)
  {
    assert [a, b] == [a] + [b] && [a] == [] + [a];
    ExecNext(o, [], a);
    ExecNext(o, [a], b);
  }

  lemma {:induction false} ExecFour(o: Observer, a: Action, b: Action, c: Action, d: Action)
    requires Enabled(o, a) && Enabled(Step(o, a), b) && Enabled(Step(Step(o, a), b), c)
    requires Enabled(Step(Step(Step(o, a), b), c), d)
    ensures Exec(o, [a, b, c, d]) == Step(Step(Step(Step(o, a), b), c), d)
  {
    ExecTwo(o, a, b);
    assert [a, b, c] == [a, b] + [c] && [a, b, c, d] == [a, b, c] + [d];
    ExecNext(o, [a, b], c);
    ExecNext(o, [a, b, c], d);
  }

  /** The host's end, then the request of a call interrupted before. */
  lemma {:induction false} InterruptedOvertaken()
    ensures LaunchedLate(Exec(Start(true, true), LateSchedule(true)))
  {
    ExecTwo(Start(true, true), HostReturns(None), Launch);
  }

  /** The host ends between the signal and the go statement. */
  lemma {:induction false} DecidedThenOvertaken()
    ensures LaunchedLate(Exec(Start(true, false), LateSchedule(false)))
  {
    ExecFour(Start(true, false), SignalArrives, TakeSignal, HostReturns(None), Launch);
  }

  lemma {:induction false} OvertakenThenDecided()
    ensures LaunchedLate(Exec(Start(true, false), OVERTAKING))
  {
    ExecFour(Start(true, false), HostReturns(None), SignalArrives, TakeSignal, Launch);
  }

  lemma {:induction false} LateIsLate(o: Observer)
    requires LaunchedLate(o)
    ensures LateRequest(o)
  {
    assert o.cancellers[0].hostAtLaunch.Ready?;
  }

  /** A request can follow the host's end, for calls interrupted before they began and for others. */
  lemma {:induction false} LateRequestHappens(interrupted: bool)
    ensures LateRequest(Exec(Start(true, interrupted), LateSchedule(interrupted)))
    ensures LateRequest(Exec(Start(true, false), OVERTAKING))
  {
    if interrupted { InterruptedOvertaken(); } else { DecidedThenOvertaken(); }
    OvertakenThenDecided();
    LateIsLate(Exec(Start(true, interrupted), LateSchedule(interrupted)));
    LateIsLate(Exec(Start(true, false), OVERTAKING));
  }

  ghost predicate CanBeLate(hasCancel: bool, interrupted: bool) {
    exists schedule :: LateRequest(Exec(Start(hasCancel, interrupted), schedule))
  }

  /** Which calls can run into it: all those with a cancellation client, interrupted before or not. */
  lemma {:induction false} LateRequestPossibleExactly(hasCancel: bool, interrupted: bool)
    ensures CanBeLate(hasCancel, interrupted) <==> hasCancel
  {
    LateRequestHappens(interrupted);
    forall schedule | LateRequest(Exec(Start(hasCancel, interrupted), schedule)) ensures hasCancel {
      RequestsAtMostOnce(hasCancel, interrupted, schedule);
    }
  }

  // ---------------------------------------------------------------- progress

  /** Until it has left, the loop has an arm to take or a goroutine that will report. */
  lemma {:induction false} NeverStuck(hasCancel: bool, interrupted: bool, schedule: seq<Action>, o: Observer) returns (a: Action)
    requires o == Exec(Start(hasCancel, interrupted), schedule) && !Left(o)
    ensures Enabled(o, a) && !External(a)
  {
    Safe(hasCancel, interrupted, schedule);
    if o.requesting { a := Launch; }
    else if o.host.Working? { a := HostReturns(None); }
    else if o.host.Ready? { a := TakeHost; }
    else if o.follow.Working? { a := FollowReturns(None); }
    else if o.follow.Ready? { a := TakeFollow; }
    else if o.cancellers[0].task.Working? { a := CancelReturns(0, None); }
    else { a := TakeCancel; }
  }

  function Work(t: Task): nat {
    match t case Working => 2 case Ready(_) => 1 case Joined(_) => 0
  }

  function CancelWork(o: Observer): nat {
    if o.cancellers == [] then 0 else Work(o.cancellers[0].task)
  }

  function Measure(o: Observer): nat {
    Work(o.host) + Work(o.follow) + CancelWork(o)
    + (if o.requested then 0 else 3) + o.queued + (if o.listening then 1 else 0) + (if o.watching then 1 else 0)
  }

  /** Steps of the loop and its goroutines that really happen. */
  function Own(o: Observer, schedule: seq<Action>): nat
    decreases |schedule|
  {
    if schedule == [] then 0
    else
      var a := schedule[|schedule| - 1];
      Own(o, schedule[..|schedule| - 1])
      + if Enabled(Exec(o, schedule[..|schedule| - 1]), a) && !External(a) then 1 else 0
  }

  function Signals(schedule: seq<Action>): nat
    decreases |schedule|
  {
    if schedule == [] then 0
    else Signals(schedule[..|schedule| - 1]) + if schedule[|schedule| - 1].SignalArrives? then 1 else 0
  }

  /**
   Termination: with finitely many signals only finitely many steps happen, so together with
   NeverStuck an observation whose goroutines report comes to its end.
   */
  lemma {:induction false} FinitelyManySteps(hasCancel: bool, interrupted: bool, schedule: seq<Action>)
    ensures var o := Start(hasCancel, interrupted);
            Own(o, schedule) + Measure(Exec(o, schedule)) <= Measure(o) + Signals(schedule)
    decreases |schedule|
  {
    if schedule != [] {
      var o, init, a := Start(hasCancel, interrupted), schedule[..|schedule| - 1], schedule[|schedule| - 1];
      FinitelyManySteps(hasCancel, interrupted, init);
      Safe(hasCancel, interrupted, init);
      if Enabled(Exec(o, init), a) {
        StepAdvances(Exec(o, init), a);
      }
    }
  }
}
