/**
 The rolling local queue: one loop that starts queue instances, each of which hands a launch token to
 its successor once. Goroutines interleave freely, so a run is any schedule of the atomic actions
 below, and a statement about every schedule is a statement about every interleaving.
 */
module RollingQueue {
  import opened Results

  type Error = string

  /**
   An instance runs start, then calls successor, then offers its result to the loop. The slot of a
   received result is its place among the deliveries.
   */
  datatype Phase = Running | Returned(err: Option<Error>) | Sending(err: Option<Error>) | Received(err: Option<Error>, slot: nat)

  /** `fired` is the instance's sync.Once. */
  datatype Instance = Instance(phase: Phase, fired: bool)

  /** Cleared: the loop has read a context without an error and not reached its go statement yet. */
  datatype LoopAt = Select | GotToken | Cleared | Check | Left

  datatype Queue = Queue(
    at: LoopAt,
    launch: nat,
    running: int,
    cancelled: bool,
    result: seq<Error>,
    instances: seq<Instance>,
    deliveries: seq<Delivery>,
    discarded: bool,
    dropped: bool)

  /** One value received from the results channel, and the errors joined with it. */
  datatype Delivery = Delivery(i: nat, err: Option<Error>, joined: seq<Error>)

  function Join(result: seq<Error>, err: Option<Error>): seq<Error> {
    if err.Some? then result + [err.value] else result
  }

  /**
   The last three parts are history: what came over the results channel, whether the loop took a
   token after cancellation, and whether a send ever hit the default arm.
   */
  const START := Queue(Select, 1, 0, false, [], [], [], false, false)

  datatype Action =
    | Cancel
    | TakeToken
    | ReadContext
    | Launch
    | Receive(i: nat)
    | LeaveOrLoop
    | CallSuccessor(i: nat)
    | StartReturns(i: nat, err: Option<Error>)
    | FinalSuccessor(i: nat)

  predicate Enabled(q: Queue, a: Action) {
    match a
    case Cancel => !q.cancelled
    case TakeToken => q.at == Select && q.launch > 0
    case ReadContext => q.at == GotToken
    case Launch => q.at == Cleared
    case Receive(i) => q.at == Select && i < |q.instances| && q.instances[i].phase.Sending?
    case LeaveOrLoop => q.at == Check
    case CallSuccessor(i) => i < |q.instances| && q.instances[i].phase.Running? && !q.instances[i].fired
    case StartReturns(i, _) => i < |q.instances| && q.instances[i].phase.Running?
    case FinalSuccessor(i) => i < |q.instances| && q.instances[i].phase.Returned?
  }

  /** once.Do around a non-blocking send on the one-slot channel. */
  function Fire(q: Queue, i: nat): Queue
    requires i < |q.instances|
  {
    if q.instances[i].fired then q
    else
      var q1 := q.(instances := q.instances[i := q.instances[i].(fired := true)]);
      if q.launch < 1 then q1.(launch := q.launch + 1) else q1.(dropped := true)
  }

  function SetPhase(q: Queue, i: nat, p: Phase): Queue
    requires i < |q.instances|
  {
    q.(instances := q.instances[i := q.instances[i].(phase := p)])
  }

  function Step(q: Queue, a: Action): Queue
    requires Enabled(q, a)
  {
    match a
    case Cancel => q.(cancelled := true)
    case TakeToken => q.(launch := q.launch - 1, at := GotToken)
    case ReadContext => if q.cancelled then q.(at := Check, discarded := true) else q.(at := Cleared)
    case Launch => q.(at := Check, running := q.running + 1, instances := q.instances + [Instance(Running, false)])
    case Receive(i) =>
      var err := q.instances[i].phase.err;
      var q1 := SetPhase(q, i, Received(err, |q.deliveries|)).(running := q.running - 1, at := Check, deliveries := q.deliveries + [Delivery(i, err, Join(q.result, err))]);
      if err.Some? then q1.(result := Join(q.result, err), cancelled := true) else q1
    case LeaveOrLoop => q.(at := if q.running == 0 && q.cancelled then Left else Select)
    case CallSuccessor(i) => Fire(q, i)
    case StartReturns(i, err) => SetPhase(q, i, Returned(err))
    case FinalSuccessor(i) => SetPhase(Fire(q, i), i, Sending(q.instances[i].phase.err))
  }

  /** A schedule may name an action that is not enabled; it then changes nothing. */
  function Exec(q: Queue, schedule: seq<Action>): Queue
    decreases |schedule|
  {
    if schedule == [] then q
    else
      var p := Exec(q, schedule[..|schedule| - 1]);
      var a := schedule[|schedule| - 1];
      if Enabled(p, a) then Step(p, a) else p
  }

  // ---------------------------------------------------------------- the loop itself

  /** The local variables, channels and goroutines of the Go function. */
  class LocalQueue {
    var at: LoopAt
    var launch: nat
    var running: int
    var cancelled: bool
    var result: seq<Error>
    var instances: seq<Instance>
    var deliveries: seq<Delivery>
    ghost var discarded: bool
    ghost var dropped: bool

    ghost function State(): Queue
      reads this
    {
      Queue(at, launch, running, cancelled, result, instances, deliveries, discarded, dropped)
    }

    constructor ()
      ensures State() == START
    {
      at, launch, running, cancelled, result, instances := Select, 1, 0, false, [], [];
      deliveries, discarded, dropped := [], false, false;
    }

    method TakeArm()
      requires Enabled(State(), TakeToken)
      modifies this
      ensures State() == Step(old(State()), TakeToken)
    {
      launch, at := launch - 1, GotToken;
    }

    /** The test of the context's error; a token taken after cancellation goes nowhere. */
    method TestContext()
      requires Enabled(State(), ReadContext)
      modifies this
      ensures State() == Step(old(State()), ReadContext)
    {
      if !cancelled {
        at := Cleared;
      } else {
        discarded := true;
        at := Check;
      }
    }

    /** The branch behind the test, up to its go statement. */
    method StartInstance()
      requires Enabled(State(), Launch)
      modifies this
      ensures State() == Step(old(State()), Launch)
    {
      running := running + 1;
      instances := instances + [Instance(Running, false)];
      at := Check;
    }

    method ResultArm(i: nat)
      requires Enabled(State(), Receive(i))
      modifies this
      ensures State() == Step(old(State()), Receive(i))
    {
      var err := instances[i].phase.err;
      instances := instances[i := instances[i].(phase := Received(err, |deliveries|))];
      deliveries := deliveries + [Delivery(i, err, Join(result, err))];
      running := running - 1;
      if err.Some? {
        result := Join(result, err);
        cancelled := true;
      }
      at := Check;
    }

    method Tail()
      requires Enabled(State(), LeaveOrLoop)
      modifies this
      ensures State() == Step(old(State()), LeaveOrLoop)
    {
      at := if running == 0 && cancelled then Left else Select;
    }

    /** The successor closure of instance i. */
    method Successor(i: nat)
      requires i < |instances|
      modifies this
      ensures State() == Fire(old(State()), i)
    {
      if !instances[i].fired {
        instances := instances[i := instances[i].(fired := true)];
        if launch < 1 {
          launch := launch + 1;
        } else {
          dropped := true;
        }
      }
    }

    method MoveTo(i: nat, p: Phase)
      requires i < |instances|
      modifies this
      ensures State() == SetPhase(old(State()), i, p)
    {
      instances := instances[i := instances[i].(phase := p)];
    }

    /** Whichever goroutine the scheduler picks makes its next atomic move, if it can. */
    method Move(a: Action)
      modifies this
      ensures State() == if Enabled(old(State()), a) then Step(old(State()), a) else old(State())
    {
      match a {
        case Cancel => cancelled := true;
        case TakeToken => if at == Select && launch > 0 { TakeArm(); }
        case ReadContext => if at == GotToken { TestContext(); }
        case Launch => if at == Cleared { StartInstance(); }
        case Receive(i) => if at == Select && i < |instances| && instances[i].phase.Sending? { ResultArm(i); }
        case LeaveOrLoop => if at == Check { Tail(); }
        case CallSuccessor(i) => if i < |instances| && instances[i].phase.Running? { Successor(i); }
        case StartReturns(i, err) => if i < |instances| && instances[i].phase.Running? { MoveTo(i, Returned(err)); }
        case FinalSuccessor(i) =>
          if i < |instances| && instances[i].phase.Returned? {
            var err := instances[i].phase.err;
            Successor(i);
            MoveTo(i, Sending(err));
          }
      }
    }

    /** A whole run of the function under a schedule. */
    method Run(schedule: seq<Action>)
      modifies this
      ensures State() == Exec(old(State()), schedule)
    {
      var k := 0;
      while k < |schedule|
        invariant 0 <= k <= |schedule|
        invariant State() == Exec(old(State()), schedule[..k])
      {
        Move(schedule[k]);
        assert schedule[..k + 1][..k] == schedule[..k];
        k := k + 1;
      }
      assert schedule[..k] == schedule;
    }
  }

  // ---------------------------------------------------------------- counting

  /** Instances that may still claim work: they have not started their successor. */
  function Claiming(s: seq<Instance>): nat {
    if s == [] then 0 else Claiming(s[..|s| - 1]) + Claims(s[|s| - 1])
  }

  function Live(s: seq<Instance>): nat {
    if s == [] then 0 else Live(s[..|s| - 1]) + Lives(s[|s| - 1])
  }

  /** The errors among the first n deliveries, in the order they came. */
  function Failures(d: seq<Delivery>, n: nat): seq<Error>
    requires n <= |d|
  {
    if n == 0 then [] else Join(Failures(d, n - 1), d[n - 1].err)
  }

  /** What had been joined when the deliveries so far were in. */
  function JoinedSoFar(d: seq<Delivery>): seq<Error> {
    if d == [] then [] else d[|d| - 1].joined
  }

  ghost predicate JoinedAt(d: seq<Delivery>, k: nat)
    requires k < |d|
  {
    d[k].joined == Join(if k == 0 then [] else d[k - 1].joined, d[k].err)
  }

  /** Each delivery joined its own error to what was joined before. */
  ghost predicate JoinsOk(d: seq<Delivery>) {
    forall k :: 0 <= k < |d| ==> JoinedAt(d, k)
  }

  lemma {:induction false} JoinsNext(d: seq<Delivery>, x: Delivery)
    requires JoinsOk(d) && x.joined == Join(JoinedSoFar(d), x.err)
    ensures JoinsOk(d + [x])
  {
    forall k | 0 <= k < |d + [x]|
      ensures JoinedAt(d + [x], k)
    {
      if k < |d| { assert JoinedAt(d, k); }
    }
  }

  lemma {:induction false} JoinsAreFailures(d: seq<Delivery>, n: nat)
    requires n <= |d| && JoinsOk(d)
    ensures Failures(d, n) == if n == 0 then [] else d[n - 1].joined
    decreases n
  {
    if n > 0 {
      JoinsAreFailures(d, n - 1);
      assert JoinedAt(d, n - 1);
    }
  }

  /** Upper bound of the steps an instance can still cause. */
  function Weight(x: Instance): nat {
    (match x.phase case Running => 4 case Returned(_) => 3 case Sending(_) => 2 case Received(_, _) => 0)
    + if x.fired then 0 else 4
  }

  function Weights(s: seq<Instance>): nat {
    if s == [] then 0 else Weights(s[..|s| - 1]) + Weight(s[|s| - 1])
  }

  function Claims(x: Instance): nat { if x.fired then 0 else 1 }

  function Lives(x: Instance): nat { if x.phase.Received? then 0 else 1 }

  lemma {:induction false} ClaimingUpdate(s: seq<Instance>, i: nat, x: Instance)
    requires i < |s|
    ensures Claiming(s[i := x]) == Claiming(s) - Claims(s[i]) + Claims(x)
    decreases |s|
  {
    var n := |s| - 1;
    if i < n {
      ClaimingUpdate(s[..n], i, x);
      assert s[i := x][..n] == s[..n][i := x];
    } else {
      assert s[i := x][..n] == s[..n];
    }
  }

  lemma {:induction false} LiveUpdate(s: seq<Instance>, i: nat, x: Instance)
    requires i < |s|
    ensures Live(s[i := x]) == Live(s) - Lives(s[i]) + Lives(x)
    decreases |s|
  {
    var n := |s| - 1;
    if i < n {
      LiveUpdate(s[..n], i, x);
      assert s[i := x][..n] == s[..n][i := x];
    } else {
      assert s[i := x][..n] == s[..n];
    }
  }

  lemma {:induction false} WeightsUpdate(s: seq<Instance>, i: nat, x: Instance)
    requires i < |s|
    ensures Weights(s[i := x]) == Weights(s) - Weight(s[i]) + Weight(x)
    decreases |s|
  {
    var n := |s| - 1;
    if i < n {
      WeightsUpdate(s[..n], i, x);
      assert s[i := x][..n] == s[..n][i := x];
    } else {
      assert s[i := x][..n] == s[..n];
    }
  }

  lemma {:induction false} CountsAppend(s: seq<Instance>, x: Instance)
    ensures Claiming(s + [x]) == Claiming(s) + Claims(x) && Live(s + [x]) == Live(s) + Lives(x)
  {
    assert (s + [x])[..|s|] == s;
  }

  lemma {:induction false} WeightsAppend(s: seq<Instance>, x: Instance)
    ensures Weights(s + [x]) == Weights(s) + Weight(x)
  {
    assert (s + [x])[..|s|] == s;
  }

  lemma {:induction false} CountsPositive(s: seq<Instance>, i: nat)
    requires i < |s|
    ensures !s[i].fired ==> Claiming(s) > 0
    ensures !s[i].phase.Received? ==> Live(s) > 0
    decreases |s|
  {
    if i < |s| - 1 { CountsPositive(s[..|s| - 1], i); }
  }

  lemma {:induction false} TwoClaimersCountTwice(s: seq<Instance>, i: nat, j: nat)
    requires i < j < |s| && !s[i].fired && !s[j].fired
    ensures Claiming(s) >= 2
    decreases |s|
  {
    if j < |s| - 1 {
      TwoClaimersCountTwice(s[..|s| - 1], i, j);
    } else {
      CountsPositive(s[..|s| - 1], i);
    }
  }

  /** Some instance witnesses a positive count. */
  lemma {:induction false} LiveWitness(s: seq<Instance>) returns (i: nat)
    requires Live(s) > 0
    ensures i < |s| && !s[i].phase.Received?
    decreases |s|
  {
    if s[|s| - 1].phase.Received? { i := LiveWitness(s[..|s| - 1]); } else { i := |s| - 1; }
  }

  // ---------------------------------------------------------------- invariant

  /** Claimers, the token in the channel and the token in the loop's hand, together. */
  function Tokens(q: Queue): nat {
    Claiming(q.instances) + q.launch + if q.at == GotToken || q.at == Cleared then 1 else 0
  }

  ghost predicate TokensOk(q: Queue) {
    q.launch <= 1 && Tokens(q) == (if q.discarded then 0 else 1) && !q.dropped
  }

  ghost predicate LoopOk(q: Queue) {
    && q.running == Live(q.instances)
    && (q.discarded ==> q.cancelled)
    && (q.at == Select && q.discarded ==> q.running > 0)
    && (q.at == Left ==> q.running == 0 && q.cancelled)
  }

  ghost predicate DeliveryOk(q: Queue, k: nat)
    requires k < |q.deliveries|
  {
    q.deliveries[k].i < |q.instances| && q.instances[q.deliveries[k].i].phase == Received(q.deliveries[k].err, k)
  }

  ghost predicate InstanceOk(q: Queue, i: nat)
    requires i < |q.instances|
  {
    var p := q.instances[i].phase;
    p.Received? ==> p.slot < |q.deliveries| && q.deliveries[p.slot].i == i && q.deliveries[p.slot].err == p.err
  }

  /** The deliveries are exactly the received results, one per instance, and result joins their errors. */
  ghost predicate ErrorsOk(q: Queue) {
    && q.result == JoinedSoFar(q.deliveries) && JoinsOk(q.deliveries)
    && (q.result != [] ==> q.cancelled)
    && (forall k :: 0 <= k < |q.deliveries| ==> DeliveryOk(q, k))
    && (forall i :: 0 <= i < |q.instances| ==> InstanceOk(q, i))
  }

  /** An instance offers its result only after its successor was started. */
  ghost predicate OnceOk(q: Queue) {
    forall i :: 0 <= i < |q.instances| && (q.instances[i].phase.Sending? || q.instances[i].phase.Received?)
      ==> q.instances[i].fired
  }

  ghost predicate Inv(q: Queue) {
    TokensOk(q) && LoopOk(q) && ErrorsOk(q) && OnceOk(q)
  }

  lemma {:induction false} FireKeepsCounts(q: Queue, i: nat)
    requires i < |q.instances| && !q.instances[i].fired && TokensOk(q) && LoopOk(q)
    ensures TokensOk(Fire(q, i)) && LoopOk(Fire(q, i))
  {
    var x := q.instances[i].(fired := true);
    CountsPositive(q.instances, i);
    ClaimingUpdate(q.instances, i, x);
    LiveUpdate(q.instances, i, x);
  }

  /** Moving an instance that has not delivered leaves the deliveries right. */
  lemma {:induction false} MoveKeepsErrors(q: Queue, i: nat, q': Queue)
    requires i < |q.instances| && !q.instances[i].phase.Received? && ErrorsOk(q)
    requires |q'.instances| == |q.instances| && !q'.instances[i].phase.Received?
    requires forall j :: 0 <= j < |q.instances| && j != i ==> q'.instances[j] == q.instances[j]
    requires q'.deliveries == q.deliveries && q'.result == q.result && q'.cancelled == q.cancelled
    ensures ErrorsOk(q')
  {
    forall k | 0 <= k < |q'.deliveries|
      ensures DeliveryOk(q', k)
    {
      assert DeliveryOk(q, k);
    }
    forall j | 0 <= j < |q'.instances|
      ensures InstanceOk(q', j)
    {
      assert InstanceOk(q, j);
    }
  }

  lemma {:induction false} FireKeeps(q: Queue, i: nat)
    requires i < |q.instances| && Inv(q) && !q.instances[i].phase.Received?
    ensures Inv(Fire(q, i)) && Fire(q, i).instances[i].fired
  {
    if !q.instances[i].fired {
      FireKeepsCounts(q, i);
      MoveKeepsErrors(q, i, Fire(q, i));
    }
  }

  /** A goroutine moving between phases other than the last changes no count. */
  lemma {:induction false} PhaseKeeps(q: Queue, i: nat, p: Phase)
    requires i < |q.instances| && Inv(q) && !q.instances[i].phase.Received? && !p.Received?
    requires p.Sending? ==> q.instances[i].fired
    ensures Inv(SetPhase(q, i, p))
  {
    var x := q.instances[i].(phase := p);
    ClaimingUpdate(q.instances, i, x);
    LiveUpdate(q.instances, i, x);
    MoveKeepsErrors(q, i, SetPhase(q, i, p));
  }

  /** A token in hand becomes an instance that has not started its successor. */
  lemma {:induction false} TokenBecomesClaimer(q: Queue, q': Queue)
    requires q.at == Cleared && q'.at == Check && q'.launch == q.launch && q'.instances == q.instances + [Instance(Running, false)]
    ensures Tokens(q') == Tokens(q) && Live(q'.instances) == Live(q.instances) + 1
  {
    CountsAppend(q.instances, Instance(Running, false));
  }

  lemma {:induction false} CountsAfterStart(q: Queue, q': Queue)
    requires TokensOk(q) && LoopOk(q) && q'.at == Check && Tokens(q') == Tokens(q) && Live(q'.instances) == Live(q.instances) + 1
    requires q'.running == q.running + 1 && q'.launch == q.launch && q'.cancelled == q.cancelled
    requires q'.discarded == q.discarded && q'.dropped == q.dropped
    ensures TokensOk(q') && LoopOk(q')
  {
  }

  lemma {:induction false} StartKeepsCounts(q: Queue)
    requires TokensOk(q) && LoopOk(q) && Enabled(q, Launch)
    ensures TokensOk(Step(q, Launch)) && LoopOk(Step(q, Launch))
  {
    TokenBecomesClaimer(q, Step(q, Launch));
    CountsAfterStart(q, Step(q, Launch));
  }

  /** An instance more, not yet returned, leaves the deliveries right. */
  lemma {:induction false} AppendKeepsErrors(q: Queue, q': Queue)
    requires ErrorsOk(q) && OnceOk(q)
    requires q'.instances == q.instances || q'.instances == q.instances + [Instance(Running, false)]
    requires q'.deliveries == q.deliveries && q'.result == q.result && q'.cancelled == q.cancelled
    ensures ErrorsOk(q') && OnceOk(q')
  {
    forall k | 0 <= k < |q'.deliveries|
      ensures DeliveryOk(q', k)
    {
      assert DeliveryOk(q, k);
    }
    forall j | 0 <= j < |q'.instances|
      ensures InstanceOk(q', j)
    {
      if j < |q.instances| { assert InstanceOk(q, j) && q'.instances[j] == q.instances[j]; }
    }
  }

  lemma {:induction false} StartKeeps(q: Queue)
    requires Inv(q) && Enabled(q, Launch)
    ensures Inv(Step(q, Launch))
  {
    StartKeepsCounts(q);
    AppendKeepsErrors(q, Step(q, Launch));
  }

  lemma {:induction false} ReceiveKeepsCounts(q: Queue, i: nat)
    requires TokensOk(q) && LoopOk(q) && OnceOk(q) && Enabled(q, Receive(i))
    ensures TokensOk(Step(q, Receive(i))) && LoopOk(Step(q, Receive(i)))
  {
    var x := q.instances[i].(phase := Received(q.instances[i].phase.err, |q.deliveries|));
    ClaimingUpdate(q.instances, i, x);
    LiveUpdate(q.instances, i, x);
    CountsPositive(q.instances, i);
  }

  lemma {:induction false} DeliveryKeepsErrors(q: Queue, i: nat, err: Option<Error>, q': Queue)
    requires ErrorsOk(q) && i < |q.instances| && q.instances[i].phase == Sending(err)
    requires |q'.instances| == |q.instances| && q'.instances[i].phase == Received(err, |q.deliveries|)
    requires forall j :: 0 <= j < |q.instances| && j != i ==> q'.instances[j] == q.instances[j]
    requires q'.deliveries == q.deliveries + [Delivery(i, err, Join(q.result, err))]
    requires q'.result == Join(q.result, err)
    requires (q.cancelled || err.Some?) ==> q'.cancelled
    ensures ErrorsOk(q')
  {
    JoinsNext(q.deliveries, Delivery(i, err, Join(q.result, err)));
    forall k | 0 <= k < |q'.deliveries|
      ensures DeliveryOk(q', k)
    {
      if k < |q.deliveries| { assert DeliveryOk(q, k); }
    }
    forall j | 0 <= j < |q'.instances|
      ensures InstanceOk(q', j)
    {
      assert InstanceOk(q, j);
    }
  }

  lemma {:induction false} ReceiveKeepsErrors(q: Queue, i: nat)
    requires ErrorsOk(q) && OnceOk(q) && Enabled(q, Receive(i))
    ensures ErrorsOk(Step(q, Receive(i))) && OnceOk(Step(q, Receive(i)))
  {
    DeliveryKeepsErrors(q, i, q.instances[i].phase.err, Step(q, Receive(i)));
  }

  lemma {:induction false} ReceiveKeeps(q: Queue, i: nat)
    requires Inv(q) && Enabled(q, Receive(i))
    ensures Inv(Step(q, Receive(i)))
  {
    ReceiveKeepsCounts(q, i);
    ReceiveKeepsErrors(q, i);
  }

  lemma {:induction false} LoopOnlyKeepsErrors(q: Queue, q': Queue)
    requires ErrorsOk(q) && q'.instances == q.instances && q'.deliveries == q.deliveries && q'.result == q.result
    requires q.cancelled ==> q'.cancelled
    ensures ErrorsOk(q')
  {
    forall k | 0 <= k < |q'.deliveries|
      ensures DeliveryOk(q', k)
    {
      assert DeliveryOk(q, k);
    }
    forall j | 0 <= j < |q'.instances|
      ensures InstanceOk(q', j)
    {
      assert InstanceOk(q, j);
    }
  }

  lemma {:induction false} StepKeepsInv(q: Queue, a: Action)
    requires Inv(q) && Enabled(q, a)
    ensures Inv(Step(q, a))
  {
    match a
    case Cancel => LoopOnlyKeepsErrors(q, Step(q, a));
    case TakeToken => LoopOnlyKeepsErrors(q, Step(q, a));
    case ReadContext => LoopOnlyKeepsErrors(q, Step(q, a));
    case Launch => StartKeeps(q);
    case Receive(i) => ReceiveKeeps(q, i);
    case LeaveOrLoop => LoopOnlyKeepsErrors(q, Step(q, a));
    case CallSuccessor(i) => FireKeeps(q, i);
    case StartReturns(i, err) => PhaseKeeps(q, i, Returned(err));
    case FinalSuccessor(i) =>
      FireKeeps(q, i);
      PhaseKeeps(Fire(q, i), i, Sending(q.instances[i].phase.err));
  }

  lemma {:induction false} Safe(schedule: seq<Action>)
    ensures Inv(Exec(START, schedule))
    decreases |schedule|
  {
    if schedule != [] {
      Safe(schedule[..|schedule| - 1]);
      var p := Exec(START, schedule[..|schedule| - 1]);
      if Enabled(p, schedule[|schedule| - 1]) {
        StepKeepsInv(p, schedule[|schedule| - 1]);
      }
    }
  }

  // ---------------------------------------------------------------- statements about every interleaving

  /** Token conservation: exactly one until a token is discarded after cancellation, none afterwards. */
  lemma {:induction false} TokenIsConserved(schedule: seq<Action>)
    ensures Tokens(Exec(START, schedule)) == (if Exec(START, schedule).discarded then 0 else 1)
    ensures Exec(START, schedule).discarded ==> Exec(START, schedule).cancelled
  {
    Safe(schedule);
  }

  /** Two instances never claim at once. */
  lemma {:induction false} AtMostOneClaimer(schedule: seq<Action>, i: nat, j: nat)
    requires i < |Exec(START, schedule).instances| && j < |Exec(START, schedule).instances|
    requires !Exec(START, schedule).instances[i].fired && !Exec(START, schedule).instances[j].fired
    ensures i == j
  {
    Safe(schedule);
    var s := Exec(START, schedule).instances;
    if i < j { TwoClaimersCountTwice(s, i, j); }
    if j < i { TwoClaimersCountTwice(s, j, i); }
  }

  /** The default arm of the successor's send is dead code: no token is ever lost. */
  lemma {:induction false} DefaultArmUnreachable(schedule: seq<Action>, i: nat)
    requires i < |Exec(START, schedule).instances| && !Exec(START, schedule).instances[i].fired
    ensures Exec(START, schedule).launch == 0 && !Exec(START, schedule).dropped
  {
    Safe(schedule);
    CountsPositive(Exec(START, schedule).instances, i);
  }

  /** At each loop head a token is available or an instance is running. */
  lemma {:induction false} LoopHeadHasWork(schedule: seq<Action>)
    requires Exec(START, schedule).at == Select
    ensures Exec(START, schedule).launch == 1 || Exec(START, schedule).running > 0
  {
    Safe(schedule);
    var q := Exec(START, schedule);
    if q.running == 0 && Claiming(q.instances) > 0 {
      ClaimersAreLive(q.instances);
    }
  }

  lemma {:induction false} ClaimersAreLive(s: seq<Instance>)
    requires forall i :: 0 <= i < |s| && s[i].phase.Received? ==> s[i].fired
    ensures Claiming(s) <= Live(s)
    decreases |s|
  {
    if s != [] { ClaimersAreLive(s[..|s| - 1]); }
  }

  /** No deadlock: until the loop has left, it or one of its goroutines can move. */
  lemma {:induction false} NeverDeadlocks(schedule: seq<Action>) returns (a: Action)
    requires Exec(START, schedule).at != Left
    ensures a != Cancel && Enabled(Exec(START, schedule), a)
  {
    var q := Exec(START, schedule);
    match q.at
    case GotToken => a := ReadContext;
    case Cleared => a := Launch;
    case Check => a := LeaveOrLoop;
    case Select =>
      LoopHeadHasWork(schedule);
      if q.launch == 1 {
        a := TakeToken;
      } else {
        Safe(schedule);
        var i := LiveWitness(q.instances);
        match q.instances[i].phase
        case Running => a := StartReturns(i, None);
        case Returned(_) => a := FinalSuccessor(i);
        case Sending(_) => a := Receive(i);
    }
  }

  lemma {:induction false} AllReceivedWhenNoneLive(s: seq<Instance>)
    requires Live(s) == 0
    ensures forall i :: 0 <= i < |s| ==> s[i].phase.Received?
    decreases |s|
  {
    if s != [] {
      AllReceivedWhenNoneLive(s[..|s| - 1]);
      assert forall i :: 0 <= i < |s| - 1 ==> s[i] == s[..|s| - 1][i];
    }
  }

  ghost predicate ReceivedOnce(q: Queue, i: nat)
    requires i < |q.instances|
  {
    var p := q.instances[i].phase;
    p.Received? && p.slot < |q.deliveries| && q.deliveries[p.slot].i == i && q.deliveries[p.slot].err == p.err
  }

  /** The deliveries are the results of all instances, each instance's exactly once. */
  ghost predicate AllReceived(q: Queue) {
    && (forall k, l :: 0 <= k < l < |q.deliveries| ==> q.deliveries[k].i != q.deliveries[l].i)
    && forall i :: 0 <= i < |q.instances| ==> ReceivedOnce(q, i)
  }

  lemma {:induction false} NoneLiveMeansAllReceived(q: Queue)
    requires ErrorsOk(q) && Live(q.instances) == 0
    ensures AllReceived(q)
  {
    AllReceivedWhenNoneLive(q.instances);
    forall k, l | 0 <= k < l < |q.deliveries|
      ensures q.deliveries[k].i != q.deliveries[l].i
    {
      assert DeliveryOk(q, k) && DeliveryOk(q, l);
    }
    forall i | 0 <= i < |q.instances|
      ensures ReceivedOnce(q, i)
    {
      assert InstanceOk(q, i);
    }
  }

  // ---------------------------------------------------------------- what start returned, and what comes of it

  /** What instance i's start returned in the moves of a schedule that took effect; none when it has not returned. */
  function StartResult(schedule: seq<Action>, i: nat): Option<Option<Error>>
    decreases |schedule|
  {
    if schedule == [] then None
    else
      var init, a := schedule[..|schedule| - 1], schedule[|schedule| - 1];
      if a.StartReturns? && a.i == i && Enabled(Exec(START, init), a) then Some(a.err) else StartResult(init, i)
  }

  /** The errors that start returned in the instances whose results were received, in the order of the receives. */
  function ErrorsReceived(schedule: seq<Action>): seq<Error>
    decreases |schedule|
  {
    if schedule == [] then []
    else
      var init, a := schedule[..|schedule| - 1], schedule[|schedule| - 1];
      ErrorsReceived(init)
      + if a.Receive? && Enabled(Exec(START, init), a) then ErrorOf(StartResult(init, a.i)) else []
  }

  function ErrorOf(result: Option<Option<Error>>): seq<Error> {
    if result.Some? && result.value.Some? then [result.value.value] else []
  }

  /** What an instance carries of its start's result. */
  function Carried(x: Instance): Option<Option<Error>> {
    match x.phase case Running => None case Returned(err) => Some(err) case Sending(err) => Some(err) case Received(err, _) => Some(err)
  }

  lemma {:induction false} CarriedStep(q: Queue, a: Action, i: nat)
    requires Enabled(q, a)
    ensures |Step(q, a).instances| == |q.instances| + if a.Launch? then 1 else 0
    ensures i < |q.instances| ==> Carried(Step(q, a).instances[i]) == if a.StartReturns? && a.i == i then Some(a.err) else Carried(q.instances[i])
    ensures i == |q.instances| && a.Launch? ==> Carried(Step(q, a).instances[i]) == None
  {
  }

  /** No instance loses or changes what its start returned on the way to the loop. */
  lemma {:induction false} ResultsAreCarried(schedule: seq<Action>, i: nat)
    ensures StartResult(schedule, i) ==
              if i < |Exec(START, schedule).instances| then Carried(Exec(START, schedule).instances[i]) else None
    decreases |schedule|
  {
    if schedule != [] {
      var init, a := schedule[..|schedule| - 1], schedule[|schedule| - 1];
      ResultsAreCarried(init, i);
      if Enabled(Exec(START, init), a) { CarriedStep(Exec(START, init), a, i); }
    }
  }

  lemma {:induction false} JoinedStep(q: Queue, a: Action)
    requires Enabled(q, a)
    ensures Step(q, a).result == q.result + if a.Receive? then ErrorOf(Carried(q.instances[a.i])) else []
    ensures Step(q, a).cancelled <==> q.cancelled || a.Cancel? || (a.Receive? && ErrorOf(Carried(q.instances[a.i])) != [])
  {
  }

  /** After every schedule the result joins exactly the errors that start returned in the instances received. */
  lemma {:induction false} ResultJoinsReceived(schedule: seq<Action>)
    ensures Exec(START, schedule).result == ErrorsReceived(schedule)
    decreases |schedule|
  {
    if schedule != [] {
      var init, a := schedule[..|schedule| - 1], schedule[|schedule| - 1];
      ResultJoinsReceived(init);
      if Enabled(Exec(START, init), a) {
        JoinedStep(Exec(START, init), a);
        if a.Receive? { ResultsAreCarried(init, a.i); }
      }
    }
  }

  /** The context is cancelled from outside or by a received error, and by nothing else. */
  lemma {:induction false} CancelledExactly(schedule: seq<Action>)
    ensures Exec(START, schedule).cancelled <==> Cancel in schedule || ErrorsReceived(schedule) != []
    decreases |schedule|
  {
    if schedule != [] {
      var init, a := schedule[..|schedule| - 1], schedule[|schedule| - 1];
      assert schedule == init + [a];
      CancelledExactly(init);
      if Enabled(Exec(START, init), a) {
        JoinedStep(Exec(START, init), a);
        if a.Receive? { ResultsAreCarried(init, a.i); }
      }
    }
  }

  /**
   It returns only cancelled and with the result of every started instance received, each exactly
   once: delivery k is what start returned in its instance, and the returned error joins exactly the
   errors among them, in the order in which they came.
   */
  lemma {:induction false} ReturnJoinsEverything(schedule: seq<Action>, q: Queue)
    requires q == Exec(START, schedule) && q.at == Left
    ensures q.cancelled && AllReceived(q)
    ensures forall k :: 0 <= k < |q.deliveries| ==> StartResult(schedule, q.deliveries[k].i) == Some(q.deliveries[k].err)
    ensures q.result == Failures(q.deliveries, |q.deliveries|) == ErrorsReceived(schedule)
  {
    Safe(schedule);
    LeftIsDone(q);
    ResultJoinsReceived(schedule);
    forall k | 0 <= k < |q.deliveries| ensures StartResult(schedule, q.deliveries[k].i) == Some(q.deliveries[k].err) {
      DeliveredWasReturned(schedule, q, k);
    }
  }

  lemma {:induction false} LeftIsDone(q: Queue)
    requires LoopOk(q) && ErrorsOk(q) && q.at == Left
    ensures q.cancelled && AllReceived(q) && q.result == Failures(q.deliveries, |q.deliveries|)
    ensures forall k :: 0 <= k < |q.deliveries| ==> DeliveryOk(q, k)
  {
    NoneLiveMeansAllReceived(q);
    JoinsAreFailures(q.deliveries, |q.deliveries|);
  }

  lemma {:induction false} DeliveredWasReturned(schedule: seq<Action>, q: Queue, k: nat)
    requires q == Exec(START, schedule) && k < |q.deliveries| && DeliveryOk(q, k)
    ensures StartResult(schedule, q.deliveries[k].i) == Some(q.deliveries[k].err)
  {
    ResultsAreCarried(schedule, q.deliveries[k].i);
  }

  /** At the end of a turn the loop leaves exactly when it is cancelled and no instance is left to receive from. */
  lemma {:induction false} LeavesExactly(schedule: seq<Action>, q: Queue)
    requires q == Exec(START, schedule) && q.at == Check
    ensures Enabled(q, LeaveOrLoop)
    ensures Step(q, LeaveOrLoop).at == Left <==> q.cancelled && forall i :: 0 <= i < |q.instances| ==> q.instances[i].phase.Received?
    ensures Step(q, LeaveOrLoop).at != Left ==> Step(q, LeaveOrLoop).at == Select
  {
    Safe(schedule);
    if q.running == 0 {
      AllReceivedWhenNoneLive(q.instances);
    } else {
      var i := LiveWitness(q.instances);
    }
  }

  // ---------------------------------------------------------------- after cancellation

  /** Instances and the one about to start. */
  function Committed(q: Queue): nat {
    |q.instances| + if q.at == Cleared then 1 else 0
  }

  lemma {:induction false} CancelledStepCommitsNothing(q: Queue, a: Action)
    requires q.cancelled && Enabled(q, a)
    ensures Step(q, a).cancelled && Committed(Step(q, a)) == Committed(q)
    ensures q.at != Cleared ==> Step(q, a).at != Cleared
  {
  }

  /**
   Once the context is cancelled, whatever happens next starts one more instance if the loop had
   already read the context and has since reached its go statement, and none otherwise.
   */
  lemma {:induction false} StartsAfterCancel(q: Queue, after: seq<Action>)
    requires q.cancelled
    ensures var r := Exec(q, after);
            && r.cancelled
            && |r.instances| == |q.instances| + (if q.at == Cleared && r.at != Cleared then 1 else 0)
            && (q.at != Cleared ==> r.at != Cleared)
    decreases |after|
  {
    if after != [] {
      var init, a := after[..|after| - 1], after[|after| - 1];
      StartsAfterCancel(q, init);
      if Enabled(Exec(q, init), a) {
        CancelledStepCommitsNothing(Exec(q, init), a);
      }
    }
  }

  ghost predicate CanStart(q: Queue) {
    exists after :: |Exec(q, after).instances| > |q.instances|
  }

  lemma {:induction false} ClearedStarts(q: Queue)
    requires q.at == Cleared
    ensures CanStart(q)
  {
    var after := [Launch];
    assert after[..0] == [] && Exec(q, after) == Step(q, Launch);
  }

  /** What stops new instances is the loop's own look at the context, not the cancellation. */
  lemma {:induction false} StartsAfterCancelExactly(q: Queue)
    requires q.cancelled
    ensures CanStart(q) <==> q.at == Cleared
  {
    if q.at == Cleared {
      ClearedStarts(q);
    } else {
      forall after ensures |Exec(q, after).instances| <= |q.instances| {
        StartsAfterCancel(q, after);
      }
    }
  }

  lemma {:induction false} ExecCons(q: Queue, a: Action, rest: seq<Action>)
    requires Enabled(q, a)
    ensures Exec(q, [a] + rest) == Exec(Step(q, a), rest)
    decreases |rest|
  {
    var all := [a] + rest;
    if rest == [] {
      assert all[..0] == [] && all == [a];
    } else {
      var n := |rest| - 1;
      assert all[..|all| - 1] == [a] + rest[..n] && all[|all| - 1] == rest[n];
      ExecCons(q, a, rest[..n]);
    }
  }

  lemma {:induction false} StartsLater(q: Queue, a: Action)
    requires Enabled(q, a) && CanStart(Step(q, a)) && |Step(q, a).instances| == |q.instances|
    ensures CanStart(q)
  {
    var rest :| |Exec(Step(q, a), rest).instances| > |Step(q, a).instances|;
    ExecCons(q, a, rest);
    assert |Exec(q, [a] + rest).instances| > |q.instances|;
  }

  lemma {:induction false} TokenStarts(q: Queue)
    requires !q.cancelled && (q.at == GotToken || (q.at == Select && q.launch > 0))
    ensures CanStart(q)
    decreases q.launch
  {
    if q.at == GotToken {
      ClearedStarts(Step(q, ReadContext));
      StartsLater(q, ReadContext);
    } else {
      TokenStarts(Step(q, TakeToken));
      StartsLater(q, TakeToken);
    }
  }

  lemma {:induction false} ClaimWitness(s: seq<Instance>) returns (i: nat)
    requires Claiming(s) > 0
    ensures i < |s| && !s[i].fired
    decreases |s|
  {
    if s[|s| - 1].fired { i := ClaimWitness(s[..|s| - 1]); } else { i := |s| - 1; }
  }

  lemma {:induction false} ClaimerStarts(q: Queue)
    requires TokensOk(q) && OnceOk(q) && !q.cancelled && !q.discarded && q.at == Select && q.launch == 0
    ensures CanStart(q)
  {
    var i := ClaimWitness(q.instances);
    var a := if q.instances[i].phase.Running? then CallSuccessor(i) else FinalSuccessor(i);
    TokenStarts(Step(q, a));
    StartsLater(q, a);
  }

  lemma {:induction false} SelectStarts(q: Queue)
    requires TokensOk(q) && OnceOk(q) && !q.cancelled && !q.discarded && q.at == Select
    ensures CanStart(q)
  {
    if q.launch > 0 { TokenStarts(q); } else { ClaimerStarts(q); }
  }

  /** The queue keeps rolling: until it is cancelled, another instance can always still start. */
  lemma {:induction false} CanStartExactly(schedule: seq<Action>, q: Queue)
    requires q == Exec(START, schedule)
    ensures CanStart(q) <==> !q.cancelled || q.at == Cleared
  {
    Safe(schedule);
    if q.cancelled {
      StartsAfterCancelExactly(q);
    } else {
      match q.at
      case Select => SelectStarts(q);
      case GotToken => TokenStarts(q);
      case Cleared => ClearedStarts(q);
      case Check =>
        SelectStarts(Step(q, LeaveOrLoop));
        StartsLater(q, LeaveOrLoop);
      case Left =>
    }
  }

  /** A run that is cancelled between the loop's look and its go statement, so that one instance starts after it. */
  lemma {:induction false} StartsAfterCancelHappens()
    ensures var q := Exec(START, [TakeToken, ReadContext, Cancel]);
            q.cancelled && q.at == Cleared && CanStart(q)
  {
    var s := [TakeToken, ReadContext, Cancel];
    assert s[..2] == [TakeToken, ReadContext] && s[..2][..1] == [TakeToken] && [TakeToken][..0] == [];
    assert Exec(START, s[..2][..1]) == Step(START, TakeToken);
    assert Exec(START, s[..2]) == Step(Step(START, TakeToken), ReadContext);
    ClearedStarts(Exec(START, s));
  }

  function Measure(q: Queue): nat {
    Weights(q.instances) + 3 * q.launch + (match q.at case Select => 0 case GotToken => 2 case Cleared => 10 case Check => 1 case Left => 0)
  }

  /** After cancellation every step that happens is one of a bounded number. */
  lemma {:induction false} StepShrinks(q: Queue, a: Action)
    requires q.cancelled && Enabled(q, a)
    ensures Measure(Step(q, a)) < Measure(q)
  {
    match a
    case TakeToken =>
    case ReadContext =>
    case Launch => LaunchShrinks(q);
    case Receive(i) => ReceiveShrinks(q, i);
    case LeaveOrLoop =>
    case CallSuccessor(i) => FireShrinks(q, i);
    case StartReturns(i, err) => ReturnShrinks(q, i, err);
    case FinalSuccessor(i) => FinalSuccessorShrinks(q, i);
  }

  lemma {:induction false} LaunchShrinks(q: Queue)
    requires Enabled(q, Launch)
    ensures Measure(Step(q, Launch)) < Measure(q)
  {
    WeightsAppend(q.instances, Instance(Running, false));
  }

  lemma {:induction false} ReceiveShrinks(q: Queue, i: nat)
    requires Enabled(q, Receive(i))
    ensures Measure(Step(q, Receive(i))) < Measure(q)
  {
    WeightsUpdate(q.instances, i, q.instances[i].(phase := Received(q.instances[i].phase.err, |q.deliveries|)));
  }

  lemma {:induction false} ReturnShrinks(q: Queue, i: nat, err: Option<Error>)
    requires Enabled(q, StartReturns(i, err))
    ensures Measure(Step(q, StartReturns(i, err))) < Measure(q)
  {
    WeightsUpdate(q.instances, i, q.instances[i].(phase := Returned(err)));
  }

  lemma {:induction false} FinalSuccessorShrinks(q: Queue, i: nat)
    requires i < |q.instances| && q.instances[i].phase.Returned?
    ensures Measure(Step(q, FinalSuccessor(i))) < Measure(q)
  {
    if !q.instances[i].fired { FireShrinks(q, i); }
    var f := Fire(q, i);
    WeightsUpdate(f.instances, i, f.instances[i].(phase := Sending(q.instances[i].phase.err)));
  }

  lemma {:induction false} FireShrinks(q: Queue, i: nat)
    requires i < |q.instances| && !q.instances[i].fired
    ensures Measure(Fire(q, i)) < Measure(q)
  {
    WeightsUpdate(q.instances, i, q.instances[i].(fired := true));
  }

  /** How many actions of a schedule really happen. */
  function Happening(q: Queue, schedule: seq<Action>): nat
    decreases |schedule|
  {
    if schedule == [] then 0
    else
      var p := Exec(q, schedule[..|schedule| - 1]);
      Happening(q, schedule[..|schedule| - 1]) + if Enabled(p, schedule[|schedule| - 1]) then 1 else 0
  }

  /**
   Termination: from a cancelled state no schedule makes more steps than the measure, so with
   NeverDeadlocks every fair schedule of returning instances ends with the loop having left.
   */
  lemma {:induction false} CancelledQueueTerminates(q: Queue, after: seq<Action>)
    requires q.cancelled
    ensures Happening(q, after) + Measure(Exec(q, after)) <= Measure(q)
    decreases |after|
  {
    if after != [] {
      var init, a := after[..|after| - 1], after[|after| - 1];
      CancelledQueueTerminates(q, init);
      StartsAfterCancel(q, init);
      if Enabled(Exec(q, init), a) {
        StepShrinks(Exec(q, init), a);
      }
    }
  }
}
