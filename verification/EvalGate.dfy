/**
 Evaluations running side by side. Each waits for a one-slot gate, reads the state, computes, writes the
 state back and releases; nothing but the gate keeps it from writing what it computed from an old state.
 What an evaluation computes is a parameter here.
 */
module EvalGate {
  import opened Results

  datatype Phase<S, A> =
    | Queued
    | Inside
    | Working(seen: S)
    | Answered(answer: A)
    | Gone

  /** order lists the evaluations that wrote their result, first to last. */
  datatype Gate<S, A> = Gate(state: S, holder: Option<nat>, phases: seq<Phase<S, A>>, order: seq<nat>)

  datatype Event =
    | Take(eval: nat)
    | GiveUp(eval: nat)
    | Withdraw(eval: nat)
    | Look(eval: nat)
    | Commit(eval: nat)

  predicate At<S, A>(g: Gate<S, A>, i: nat) {
    i < |g.phases|
  }

  /** Which event can happen. */
  predicate Enabled<S, A>(g: Gate<S, A>, e: Event) {
    At(g, e.eval) &&
    match e
    case Take(i) => g.phases[i].Queued? && g.holder.None?
    case GiveUp(i) => g.phases[i].Queued?
    case Withdraw(i) => g.phases[i].Inside?
    case Look(i) => g.phases[i].Inside?
    case Commit(i) => g.phases[i].Working?
  }

  /** Everything but a commit. */
  function Moved<S, A>(g: Gate<S, A>, e: Event): Gate<S, A>
    requires Enabled(g, e) && !e.Commit?
  {
    match e
    case Take(i) => g.(holder := Some(i), phases := g.phases[i := Inside])
    case GiveUp(i) => g.(phases := g.phases[i := Gone])
    case Withdraw(i) => g.(holder := None, phases := g.phases[i := Gone])
    case Look(i) => g.(phases := g.phases[i := Working(g.state)])
  }

  /** A commit writes what was computed from the state seen earlier, and releases. */
  function Committed<S, A>(g: Gate<S, A>, i: nat, result: (S, A)): Gate<S, A>
    requires At(g, i)
  {
    Gate(result.0, None, g.phases[i := Answered(result.1)], g.order + [i])
  }

  function Next<S, Q, A>(eval: (S, Q) -> (S, A), requests: seq<Q>, g: Gate<S, A>, e: Event): Gate<S, A>
    requires |requests| == |g.phases| && Enabled(g, e)
  {
    if e.Commit? then Committed(g, e.eval, eval(g.phases[e.eval].seen, requests[e.eval])) else Moved(g, e)
  }

  // ---------------------------------------------------------------- one after another

  /** The state after a list of requests, each evaluated on the state the one before left. */
  function Sequentially<S, Q, A>(eval: (S, Q) -> (S, A), s: S, requests: seq<Q>): S {
    if requests == [] then s
    else eval(Sequentially(eval, s, requests[..|requests| - 1]), requests[|requests| - 1]).0
  }

  predicate Ordered<Q>(requests: seq<Q>, order: seq<nat>) {
    forall k :: 0 <= k < |order| ==> order[k] < |requests|
  }

  /** The requests that wrote, in the order they wrote. */
  function Written<Q>(requests: seq<Q>, order: seq<nat>): (r: seq<Q>)
    requires Ordered(requests, order)
    ensures |r| == |order| && forall k :: 0 <= k < |r| ==> r[k] == requests[order[k]]
  {
    seq(|order|, k requires 0 <= k < |order| => requests[order[k]])
  }

  lemma {:induction false} WrittenNext<S, Q, A>(eval: (S, Q) -> (S, A), s: S, requests: seq<Q>, order: seq<nat>, i: nat)
    requires Ordered(requests, order) && i < |requests|
    ensures Ordered(requests, order + [i]) && Written(requests, order + [i]) == Written(requests, order) + [requests[i]]
    ensures Sequentially(eval, s, Written(requests, order + [i])) == eval(Sequentially(eval, s, Written(requests, order)), requests[i]).0
  {
    var all := Written(requests, order) + [requests[i]];
    assert all[..|all| - 1] == Written(requests, order) && all[|all| - 1] == requests[i];
  }

  // ---------------------------------------------------------------- the invariant

  predicate InGate<S, A>(phase: Phase<S, A>) {
    phase.Inside? || phase.Working?
  }

  /** The holder alone is inside, and what it has seen is the state still. */
  ghost predicate Exclusive<S, A>(g: Gate<S, A>) {
    && (g.holder.Some? ==> g.holder.value < |g.phases|)
    && (forall i :: 0 <= i < |g.phases| ==> (InGate(g.phases[i]) <==> g.holder == Some(i)))
    && forall i :: 0 <= i < |g.phases| && g.phases[i].Working? ==> g.phases[i].seen == g.state
  }

  /** The k-th write was evaluation i, and its answer is the one of its turn. */
  ghost predicate AnsweredAt<S, Q, A>(eval: (S, Q) -> (S, A), start: S, requests: seq<Q>, order: seq<nat>, k: nat, i: nat, answer: A) {
    && Ordered(requests, order) && k < |order| && order[k] == i && i < |requests|
    && answer == eval(Sequentially(eval, start, Written(requests, order)[..k]), requests[i]).1
  }

  ghost predicate HasTurn<S, Q, A>(eval: (S, Q) -> (S, A), start: S, requests: seq<Q>, order: seq<nat>, i: nat, answer: A) {
    exists k: nat :: AnsweredAt(eval, start, requests, order, k, i, answer)
  }

  ghost predicate AnswersOk<S, Q, A>(eval: (S, Q) -> (S, A), start: S, requests: seq<Q>, g: Gate<S, A>) {
    forall i :: 0 <= i < |g.phases| && g.phases[i].Answered? ==> HasTurn(eval, start, requests, g.order, i, g.phases[i].answer)
  }

  ghost predicate Inv<S, Q, A>(eval: (S, Q) -> (S, A), start: S, requests: seq<Q>, g: Gate<S, A>) {
    && |requests| == |g.phases|
    && Exclusive(g)
    && Ordered(requests, g.order)
    && g.state == Sequentially(eval, start, Written(requests, g.order))
    && AnswersOk(eval, start, requests, g)
  }

  function Start<S, A>(start: S, count: nat): Gate<S, A> {
    Gate(start, None, seq(count, i => Queued), [])
  }

  lemma {:induction false} TurnStays<S, Q, A>(
    eval: (S, Q) -> (S, A), start: S, requests: seq<Q>, order: seq<nat>, last: nat, i: nat, answer: A)
    requires HasTurn(eval, start, requests, order, i, answer) && last < |requests|
    ensures HasTurn(eval, start, requests, order + [last], i, answer)
  {
    var k: nat :| AnsweredAt(eval, start, requests, order, k, i, answer);
    WrittenNext(eval, start, requests, order, last);
    assert Written(requests, order + [last])[..k] == Written(requests, order)[..k];
    assert AnsweredAt(eval, start, requests, order + [last], k, i, answer);
  }

  lemma {:induction false} LastTurn<S, Q, A>(eval: (S, Q) -> (S, A), start: S, requests: seq<Q>, order: seq<nat>, i: nat)
    requires Ordered(requests, order) && i < |requests|
    ensures HasTurn(eval, start, requests, order + [i], i, eval(Sequentially(eval, start, Written(requests, order)), requests[i]).1)
  {
    WrittenNext(eval, start, requests, order, i);
    assert Written(requests, order + [i])[..|order|] == Written(requests, order);
    assert AnsweredAt(eval, start, requests, order + [i], |order|, i, eval(Sequentially(eval, start, Written(requests, order)), requests[i]).1);
  }

  lemma {:induction false} CommitKeepsExclusive<S, A>(g: Gate<S, A>, i: nat, result: (S, A))
    requires Exclusive(g) && At(g, i) && g.phases[i].Working?
    ensures Exclusive(Committed(g, i, result))
  {
  }

  /** The state seen is the state still, so a commit is one whole evaluation. */
  lemma {:induction false} CommitKeepsInv<S, Q, A>(eval: (S, Q) -> (S, A), start: S, requests: seq<Q>, g: Gate<S, A>, i: nat)
    requires Inv(eval, start, requests, g) && At(g, i) && i < |requests| && g.phases[i].Working?
    ensures Inv(eval, start, requests, Committed(g, i, eval(g.state, requests[i])))
  {
    var g' := Committed(g, i, eval(g.state, requests[i]));
    CommitKeepsExclusive(g, i, eval(g.state, requests[i]));
    WrittenNext(eval, start, requests, g.order, i);
    forall j | 0 <= j < |g'.phases| && g'.phases[j].Answered?
      ensures HasTurn(eval, start, requests, g'.order, j, g'.phases[j].answer)
    {
      if j == i {
        LastTurn(eval, start, requests, g.order, i);
      } else {
        TurnStays(eval, start, requests, g.order, i, j, g.phases[j].answer);
      }
    }
  }

  /** Events other than a commit leave the state, the order and the answers alone. */
  lemma {:induction false} MovedKeepsExclusive<S, A>(g: Gate<S, A>, e: Event)
    requires Exclusive(g) && Enabled(g, e) && !e.Commit?
    ensures var g' := Moved(g, e);
            && Exclusive(g') && g'.state == g.state && g'.order == g.order && |g'.phases| == |g.phases|
            && forall i :: 0 <= i < |g.phases| && g'.phases[i].Answered? ==> g'.phases[i] == g.phases[i]
  {
  }

  lemma {:induction false} NextKeepsInv<S, Q, A>(
    eval: (S, Q) -> (S, A), start: S, requests: seq<Q>, g: Gate<S, A>, e: Event, g': Gate<S, A>)
    requires Inv(eval, start, requests, g) && |requests| == |g.phases| && Enabled(g, e) && g' == Next(eval, requests, g, e)
    ensures Inv(eval, start, requests, g')
  {
    if e.Commit? {
      CommitKeepsInv(eval, start, requests, g, e.eval);
    } else {
      MovedKeepsExclusive(g, e);
    }
  }

  // ---------------------------------------------------------------- who wrote

  /** Exactly the evaluations that answered have written, each once. */
  ghost predicate WroteOnce<S, A>(g: Gate<S, A>) {
    && (forall k, l :: 0 <= k < l < |g.order| ==> g.order[k] != g.order[l])
    && forall i: nat :: i in g.order <==> At(g, i) && g.phases[i].Answered?
  }

  lemma {:induction false} NextKeepsWrites<S, Q, A>(eval: (S, Q) -> (S, A), requests: seq<Q>, g: Gate<S, A>, e: Event, g': Gate<S, A>)
    requires WroteOnce(g) && |requests| == |g.phases| && Enabled(g, e) && g' == Next(eval, requests, g, e)
    ensures WroteOnce(g')
  {
    if e.Commit? {
      assert e.eval !in g.order;
      assert forall i: nat :: i in g'.order <==> i in g.order || i == e.eval;
    }
  }

  // ---------------------------------------------------------------- every interleaving

  ghost predicate Leads<S(!new), Q, A(!new)>(eval: (S, Q) -> (S, A), requests: seq<Q>, g: Gate<S, A>, e: Event, g': Gate<S, A>) {
    |requests| == |g.phases| && Enabled(g, e) && g' == Next(eval, requests, g, e)
  }

  /** A gate reached by some interleaving of events from the start. */
  ghost predicate Reaches<S(!new), Q, A(!new)>(eval: (S, Q) -> (S, A), start: S, requests: seq<Q>, events: seq<Event>, g: Gate<S, A>)
    decreases |events|
  {
    if events == [] then g == Start(start, |requests|)
    else
      var earlier, last := events[..|events| - 1], events[|events| - 1];
      exists g0 :: Reaches(eval, start, requests, earlier, g0) && Leads(eval, requests, g0, last, g)
  }

  /** In every interleaving an evaluation writes when it answers, once, and in no other case. */
  lemma {:induction false} WritesExactly<S(!new), Q, A(!new)>(eval: (S, Q) -> (S, A), start: S, requests: seq<Q>, events: seq<Event>, g: Gate<S, A>)
    requires Reaches(eval, start, requests, events, g)
    ensures WroteOnce(g)
    decreases |events|
  {
    if events == [] {
      assert forall i :: 0 <= i < |g.phases| ==> g.phases[i].Queued?;
    } else {
      var earlier, last := events[..|events| - 1], events[|events| - 1];
      var g0 :| Reaches(eval, start, requests, earlier, g0) && Leads(eval, requests, g0, last, g);
      WritesExactly(eval, start, requests, earlier, g0);
      NextKeepsWrites(eval, requests, g0, last, g);
    }
  }

  lemma {:induction false} ReachedInv<S(!new), Q, A(!new)>(eval: (S, Q) -> (S, A), start: S, requests: seq<Q>, events: seq<Event>, g: Gate<S, A>)
    requires Reaches(eval, start, requests, events, g)
    ensures Inv(eval, start, requests, g)
    decreases |events|
  {
    if events == [] {
      assert Written(requests, []) == [];
    } else {
      var earlier, last := events[..|events| - 1], events[|events| - 1];
      var g0 :| Reaches(eval, start, requests, earlier, g0) && Leads(eval, requests, g0, last, g);
      ReachedInv(eval, start, requests, earlier, g0);
      NextKeepsInv(eval, start, requests, g0, last, g);
    }
  }

  /**
   Whatever the interleaving, the state is the one that evaluating one request after another gives, in
   the order of writing, and every answer is the answer of its turn.
   */
  lemma {:induction false} InterleavingIsSequential<S(!new), Q, A(!new)>(
    eval: (S, Q) -> (S, A), start: S, requests: seq<Q>, events: seq<Event>, g: Gate<S, A>)
    requires Reaches(eval, start, requests, events, g)
    ensures Ordered(requests, g.order) && g.state == Sequentially(eval, start, Written(requests, g.order))
    ensures AnswersOk(eval, start, requests, g)
  {
    ReachedInv(eval, start, requests, events, g);
  }

  /** At most one evaluation is between taking and releasing the gate. */
  lemma {:induction false} AtMostOneInside<S(!new), Q, A(!new)>(
    eval: (S, Q) -> (S, A), start: S, requests: seq<Q>, events: seq<Event>, g: Gate<S, A>, i: nat, j: nat)
    requires Reaches(eval, start, requests, events, g)
    requires At(g, i) && At(g, j) && InGate(g.phases[i]) && InGate(g.phases[j])
    ensures i == j
  {
    ReachedInv(eval, start, requests, events, g);
  }

  /** What every evaluation keeps holds in every interleaving. */
  lemma {:induction false} SequentiallyKeeps<S(!new), Q(!new), A>(eval: (S, Q) -> (S, A), keeps: S -> bool, s: S, requests: seq<Q>)
    requires keeps(s) && forall x, q :: keeps(x) ==> keeps(eval(x, q).0)
    ensures keeps(Sequentially(eval, s, requests))
    decreases |requests|
  {
    if requests != [] { SequentiallyKeeps(eval, keeps, s, requests[..|requests| - 1]); }
  }

  /** What holds of an answer at its turn, and survives later evaluations, holds at the end. */
  lemma {:induction false} AnswerSurvives<S(!new), Q(!new), A>(
    eval: (S, Q) -> (S, A), keeps: S -> bool, recorded: (S, Q, A) -> bool, s: S, requests: seq<Q>, k: nat, answer: A)
    requires keeps(s) && forall x, q :: keeps(x) ==> keeps(eval(x, q).0)
    requires forall x, q :: keeps(x) ==> recorded(eval(x, q).0, q, eval(x, q).1)
    requires forall x, q, q' :: keeps(x) && recorded(x, q', answer) ==> recorded(eval(x, q).0, q', answer)
    requires k < |requests| && answer == eval(Sequentially(eval, s, requests[..k]), requests[k]).1
    ensures recorded(Sequentially(eval, s, requests), requests[k], answer)
    decreases |requests|
  {
    var n := |requests| - 1;
    SequentiallyKeeps(eval, keeps, s, requests[..n]);
    if k < n {
      assert requests[..n][..k] == requests[..k] && requests[..n][k] == requests[k];
      AnswerSurvives(eval, keeps, recorded, s, requests[..n], k, answer);
    }
  }

  predicate Settled<S, A>(g: Gate<S, A>) {
    forall i :: 0 <= i < |g.phases| ==> g.phases[i].Answered? || g.phases[i].Gone?
  }

  predicate Goes<S, A>(g: Gate<S, A>, e: Event) {
    Enabled(g, e) && !e.GiveUp? && !e.Withdraw?
  }

  ghost predicate CanMove<S, A>(g: Gate<S, A>) {
    exists e :: Goes(g, e)
  }

  lemma {:induction false} OneMoves<S, A>(g: Gate<S, A>, i: nat)
    requires Exclusive(g) && At(g, i) && !g.phases[i].Answered? && !g.phases[i].Gone?
    ensures CanMove(g)
  {
    if g.phases[i].Queued? && g.holder.None? {
      assert Goes(g, Take(i));
    } else {
      var h := g.holder.value;
      assert InGate(g.phases[h]);
      assert Goes(g, if g.phases[h].Inside? then Look(h) else Commit(h));
    }
  }

  /** Until every evaluation has answered or gone, some evaluation can go on, cancellation aside. */
  lemma {:induction false} NeverBlocked<S(!new), Q, A(!new)>(
    eval: (S, Q) -> (S, A), start: S, requests: seq<Q>, events: seq<Event>, g: Gate<S, A>)
    requires Reaches(eval, start, requests, events, g)
    ensures Settled(g) || CanMove(g)
  {
    ReachedInv(eval, start, requests, events, g);
    if !Settled(g) {
      var i :| 0 <= i < |g.phases| && !g.phases[i].Answered? && !g.phases[i].Gone?;
      OneMoves(g, i);
    }
  }
}
