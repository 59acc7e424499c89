/**
 The state a job keeps about its steps while a host drives it attempt by attempt, and what each
 guarded operation does to it. Every function here is one critical section of the Go code.
 */
module Settlement {
  import opened Results
  import opened Reachability

  type StepId = string

  /** The JSON text of a step's output; Go's nil is the absent option. */
  type Output = string

  /**
   A handle of a Go channel: two handles are equal when the channels are the same object. Handles
   are numbered in the order of creation, and `made` below lists the step each was created for.
   */
  type Chan = nat

  datatype Cell = Cell(resolved: bool, out: Option<Output>, done: Option<Chan>)

  datatype WorkState = WorkState(
    needs: Edges,
    cells: map<StepId, Cell>,
    attempt: int,
    active: set<StepId>,
    closed: set<Chan>,
    made: seq<StepId>)

  datatype Refusal = StepStateOverlap | StepTerminal | InvalidSettled | PrerequisiteOpen

  // ---------------------------------------------------------------- operations

  /** The channel the step's waiters use, made when it is missing. */
  function EnsureChan(w: WorkState, id: StepId): WorkState
    requires id in w.cells
  {
    if w.cells[id].done.Some? then w
    else w.(cells := w.cells[id := w.cells[id].(done := Some(|w.made|))], made := w.made + [id])
  }

  /** The first outcome stays; the channel is made when it is missing, and closed with the first outcome. */
  function MarkDone(w: WorkState, id: StepId, out: Option<Output>): WorkState
    requires id in w.cells
  {
    var c := w.cells[id];
    var chan := if c.done.Some? then c.done.value else |w.made|;
    w.(cells := w.cells[id := Cell(true, if c.resolved then c.out else out, Some(chan))],
       closed := if c.resolved then w.closed else w.closed + {chan},
       made := if c.done.Some? then w.made else w.made + [id])
  }

  /** The locked part of awaitDone: a resolved step needs no channel. */
  function AwaitDone(w: WorkState, id: StepId): (WorkState, Option<Chan>)
    requires id in w.cells
  {
    if w.cells[id].resolved then (w, None)
    else var w1 := EnsureChan(w, id); (w1, w1.cells[id].done)
  }

  function MarkAll(w: WorkState, ids: seq<StepId>): (r: WorkState)
    requires forall id :: id in ids ==> id in w.cells
    ensures r.cells.Keys == w.cells.Keys
    decreases |ids|
  {
    if ids == [] then w
    else MarkDone(MarkAll(w, ids[..|ids| - 1]), ids[|ids| - 1], None)
  }

  function Reset(w: WorkState, attempt: int): WorkState {
    w.(cells := map id | id in w.cells :: Cell(false, None, None), attempt := attempt)
  }

  function FinishStep(w: WorkState, id: StepId): WorkState {
    w.(active := w.active - {id})
  }

  ghost predicate NoDuplicates(s: seq<StepId>) {
    forall i, j :: 0 <= i < j < |s| ==> s[i] != s[j]
  }

  /** The ids a settled list may name: known, inactive, not the step itself, each once. */
  ghost predicate WellNamed(w: WorkState, current: StepId, settled: seq<StepId>) {
    && NoDuplicates(settled)
    && forall id :: id in settled ==> id != current && id in w.cells && id !in w.active
  }

  /** Everything the step needs, directly or through other steps, is named. */
  ghost predicate CoversNeeds(w: WorkState, current: StepId, settled: seq<StepId>) {
    forall x :: ReachesBeyond(w.needs, current, x) ==> x in settled
  }

  ghost function Begin(w: WorkState, attempt: int, current: StepId, settled: Option<seq<StepId>>)
    : Result<WorkState, Refusal>
    requires current in w.cells
  {
    if attempt < 1 || attempt < w.attempt || (attempt != w.attempt && w.active != {})
       || current in w.active || settled.None? then Err(StepStateOverlap)
    else if attempt == w.attempt && w.cells[current].resolved then Err(StepTerminal)
    else if !WellNamed(w, current, settled.value) then Err(InvalidSettled)
    else if !CoversNeeds(w, current, settled.value) then Err(PrerequisiteOpen)
    else
      var w1 := if attempt != w.attempt then Reset(w, attempt) else w;
      var w2 := MarkAll(w1, settled.value);
      Ok(w2.(active := w2.active + {current}))
  }

  // ---------------------------------------------------------------- invariant

  /** Channels: one per step, closed exactly when the step is resolved, and none is stale. */
  ghost predicate ChannelsOk(w: WorkState) {
    && (forall c :: c in w.closed ==> c < |w.made|)
    && (forall i :: i in w.cells && w.cells[i].done.Some? ==>
          w.cells[i].done.value < |w.made| && w.made[w.cells[i].done.value] == i)
    && (forall i :: i in w.cells ==>
          (w.cells[i].resolved <==> w.cells[i].done.Some? && w.cells[i].done.value in w.closed))
    && (forall i :: i in w.cells && !w.cells[i].resolved ==> w.cells[i].out == None)
  }

  ghost predicate NeedsResolved(w: WorkState, id: StepId) {
    forall x :: ReachesBeyond(w.needs, id, x) ==> x in w.cells && w.cells[x].resolved
  }

  /** Every active step has its whole need closure resolved, and none of it is active. */
  ghost predicate ActiveOk(w: WorkState) {
    && (forall a :: a in w.active ==> a in w.cells && NeedsResolved(w, a))
    && (forall a, b :: a in w.active && b in w.active ==> !ReachesBeyond(w.needs, a, b))
  }

  ghost predicate Inv(w: WorkState) {
    && w.needs.Keys == w.cells.Keys
    && 0 <= w.attempt
    && (w.active != {} ==> 1 <= w.attempt)
    && ChannelsOk(w)
    && ActiveOk(w)
  }

  /** Between two states of one attempt nothing terminal is forgotten and no channel is replaced. */
  ghost predicate Extends(w: WorkState, w': WorkState) {
    && w'.needs == w.needs && w'.cells.Keys == w.cells.Keys && w'.attempt == w.attempt
    && w.closed <= w'.closed && w.made <= w'.made
    && forall i :: i in w.cells ==>
         && (w.cells[i].resolved ==> w'.cells[i] == w.cells[i])
         && (w.cells[i].done.Some? ==> w'.cells[i].done == w.cells[i].done)
  }

  // ---------------------------------------------------------------- effect of the operations

  /** A channel was made for one step at most; nothing else changed. */
  ghost predicate Opened(w: WorkState, id: StepId, r: WorkState)
    requires id in w.cells
  {
    && Extends(w, r) && r.active == w.active && r.closed == w.closed
    && r.cells[id].done.Some?
    && forall i :: i in w.cells ==> r.cells[i].resolved == w.cells[i].resolved && r.cells[i].out == w.cells[i].out
  }

  lemma {:induction false} EnsureChanEffect(w: WorkState, id: StepId)
    requires id in w.cells && (w.cells[id].resolved ==> w.cells[id].done.Some?)
    ensures Opened(w, id, EnsureChan(w, id))
  {
  }

  lemma {:induction false} EnsureChanKeeps(w: WorkState, id: StepId)
    requires id in w.cells && ChannelsOk(w)
    ensures ChannelsOk(EnsureChan(w, id)) && Opened(w, id, EnsureChan(w, id))
  {
    EnsureChanEffect(w, id);
    var r := EnsureChan(w, id);
    assert forall i :: i in w.cells && i != id ==> r.cells[i] == w.cells[i];
  }

  /** What one markDone changes: the first outcome stays, no other step is touched. */
  ghost predicate Marked(w: WorkState, id: StepId, out: Option<Output>, r: WorkState)
    requires id in w.cells
  {
    && Extends(w, r) && r.active == w.active
    && r.cells[id].resolved && r.cells[id].out == (if w.cells[id].resolved then w.cells[id].out else out)
    && forall i :: i in w.cells && i != id ==> r.cells[i] == w.cells[i]
  }

  lemma {:induction false} MarkDoneEffect(w: WorkState, id: StepId, out: Option<Output>)
    requires id in w.cells && ChannelsOk(w)
    ensures Marked(w, id, out, MarkDone(w, id, out))
  {
  }

  /** markDone stores the first outcome, closes the channel once and touches no other step. */
  lemma {:induction false} MarkDoneKeeps(w: WorkState, id: StepId, out: Option<Output>)
    requires id in w.cells && ChannelsOk(w)
    ensures ChannelsOk(MarkDone(w, id, out)) && Marked(w, id, out, MarkDone(w, id, out))
  {
    MarkDoneEffect(w, id, out);
    var r := MarkDone(w, id, out);
    var chan := r.cells[id].done.value;
    assert w.cells[id].done.None? ==> chan !in w.closed;
    assert forall i :: i in w.cells && i != id && w.cells[i].done.Some? ==> w.cells[i].done.value != chan;
  }

  lemma {:induction false} ExtendsTransitive(a: WorkState, b: WorkState, c: WorkState)
    requires Extends(a, b) && Extends(b, c)
    ensures Extends(a, c)
  {
  }

  /** What settling a list changes: every named step is resolved, and no output is invented. */
  ghost predicate SettledBy(w: WorkState, ids: seq<StepId>, r: WorkState) {
    && Extends(w, r) && r.active == w.active
    && forall i :: i in w.cells ==>
         && r.cells[i].resolved == (w.cells[i].resolved || i in ids)
         && r.cells[i].out == w.cells[i].out
  }

  lemma {:induction false} SettledByNext(w: WorkState, ids: seq<StepId>, m: WorkState, r: WorkState)
    requires |ids| > 0 && ids[|ids| - 1] in w.cells && SettledBy(w, ids[..|ids| - 1], m)
    requires forall i :: i in w.cells && !w.cells[i].resolved ==> w.cells[i].out == None
    requires ids[|ids| - 1] in m.cells && Marked(m, ids[|ids| - 1], None, r)
    ensures SettledBy(w, ids, r)
  {
    assert ids == ids[..|ids| - 1] + [ids[|ids| - 1]];
    ExtendsTransitive(w, m, r);
  }

  lemma {:induction false} MarkAllKeeps(w: WorkState, ids: seq<StepId>)
    requires ChannelsOk(w) && forall id :: id in ids ==> id in w.cells
    ensures ChannelsOk(MarkAll(w, ids)) && SettledBy(w, ids, MarkAll(w, ids))
    decreases |ids|
  {
    if ids != [] {
      MarkAllKeeps(w, ids[..|ids| - 1]);
      var m := MarkAll(w, ids[..|ids| - 1]);
      MarkDoneKeeps(m, ids[|ids| - 1], None);
      SettledByNext(w, ids, m, MarkAll(w, ids));
    }
  }

  lemma {:induction false} ResetKeeps(w: WorkState, attempt: int)
    requires ChannelsOk(w)
    ensures ChannelsOk(Reset(w, attempt))
  {
  }

  /** The state after an accepted begin, read off without its code. */
  ghost predicate Begun(w: WorkState, attempt: int, current: StepId, settled: seq<StepId>, w': WorkState) {
    && w'.needs == w.needs && w'.cells.Keys == w.cells.Keys
    && w'.attempt == attempt && w'.active == w.active + {current}
    && (attempt == w.attempt ==> Extends(w, w'))
    && (forall i :: i in w.cells ==>
          var kept := attempt == w.attempt && w.cells[i].resolved;
          && w'.cells[i].resolved == (kept || i in settled)
          && w'.cells[i].out == if kept then w.cells[i].out else None)
  }

  /**
   An accepted begin keeps local outputs of its own attempt, forgets those of an earlier one, and
   resolves the named steps without inventing an output.
   */
  lemma {:induction false} BeginEffect(w: WorkState, attempt: int, current: StepId, settled: Option<seq<StepId>>)
    requires ChannelsOk(w) && current in w.cells && Begin(w, attempt, current, settled).Ok?
    ensures Begun(w, attempt, current, settled.value, Begin(w, attempt, current, settled).value)
    ensures ChannelsOk(Begin(w, attempt, current, settled).value)
    ensures !Begin(w, attempt, current, settled).value.cells[current].resolved
  {
    var w1 := if attempt != w.attempt then Reset(w, attempt) else w;
    ResetKeeps(w, attempt);
    MarkAllKeeps(w1, settled.value);
  }

  /** What an accepted begin has checked, in the order of the refusals. */
  ghost predicate Checked(w: WorkState, attempt: int, current: StepId, settled: seq<StepId>) {
    && (attempt != w.attempt ==> w.active == {})
    && (attempt == w.attempt ==> current in w.cells && !w.cells[current].resolved)
    && WellNamed(w, current, settled) && CoversNeeds(w, current, settled)
  }

  lemma {:induction false} BegunNeeds(w: WorkState, attempt: int, current: StepId, settled: seq<StepId>, w': WorkState, a: StepId)
    requires ActiveOk(w) && current in w.cells
    requires Checked(w, attempt, current, settled) && Begun(w, attempt, current, settled, w')
    requires a in w'.active
    ensures a in w'.cells && NeedsResolved(w', a)
  {
    if a != current {
      assert NeedsResolved(w, a);
    }
  }

  lemma {:induction false} BegunAntichain(w: WorkState, attempt: int, current: StepId, settled: seq<StepId>, w': WorkState, a: StepId, b: StepId)
    requires ActiveOk(w) && current in w.cells
    requires Checked(w, attempt, current, settled) && Begun(w, attempt, current, settled, w')
    requires a in w'.active && b in w'.active
    ensures !ReachesBeyond(w'.needs, a, b)
  {
    if a == current {
      assert b !in settled;
    } else if b == current {
      assert NeedsResolved(w, a);
    }
  }

  lemma {:induction false} BeginKeepsInv(w: WorkState, attempt: int, current: StepId, settled: Option<seq<StepId>>)
    requires Inv(w) && current in w.cells && Begin(w, attempt, current, settled).Ok?
    ensures Inv(Begin(w, attempt, current, settled).value)
    ensures !Begin(w, attempt, current, settled).value.cells[current].resolved
  {
    BeginEffect(w, attempt, current, settled);
    var s := settled.value;
    var w' := Begin(w, attempt, current, settled).value;
    assert Checked(w, attempt, current, s);
    forall a | a in w'.active ensures a in w'.cells && NeedsResolved(w', a) {
      BegunNeeds(w, attempt, current, s, w', a);
    }
    forall a, b | a in w'.active && b in w'.active ensures !ReachesBeyond(w'.needs, a, b) {
      BegunAntichain(w, attempt, current, s, w', a, b);
    }
  }

  lemma {:induction false} MarkDoneKeepsInv(w: WorkState, id: StepId, out: Option<Output>)
    requires Inv(w) && id in w.cells
    ensures Inv(MarkDone(w, id, out)) && Extends(w, MarkDone(w, id, out))
  {
    MarkDoneKeeps(w, id, out);
    var r := MarkDone(w, id, out);
    forall a | a in r.active
      ensures NeedsResolved(r, a)
    {
      assert NeedsResolved(w, a);
    }
  }

  lemma {:induction false} AwaitKeepsInv(w: WorkState, id: StepId)
    requires Inv(w) && id in w.cells
    ensures var (r, c) := AwaitDone(w, id);
            && Inv(r) && Extends(w, r) && r.active == w.active
            && (c == None <==> w.cells[id].resolved)
            && (c.Some? ==> r.cells[id].done == c && c.value !in r.closed)
            && (forall i :: i in w.cells ==> r.cells[i].resolved == w.cells[i].resolved && r.cells[i].out == w.cells[i].out)
  {
    EnsureChanKeeps(w, id);
    var r := AwaitDone(w, id).0;
    forall a | a in r.active
      ensures NeedsResolved(r, a)
    {
      assert NeedsResolved(w, a);
    }
  }

  lemma {:induction false} FinishKeepsInv(w: WorkState, id: StepId)
    requires Inv(w)
    ensures Inv(FinishStep(w, id)) && Extends(w, FinishStep(w, id))
  {
    var r := FinishStep(w, id);
    forall a | a in r.active
      ensures NeedsResolved(r, a)
    {
      assert NeedsResolved(w, a);
    }
  }

  // ---------------------------------------------------------------- consequences

  /** A step on a need cycle is refused by every request, whatever the host reports. */
  lemma {:induction false} CycleNeverBegins(w: WorkState, attempt: int, current: StepId, settled: Option<seq<StepId>>)
    requires current in w.cells && ReachesBeyond(w.needs, current, current)
    ensures Begin(w, attempt, current, settled).Err?
  {
    if settled.Some? && CoversNeeds(w, current, settled.value) {
      assert current in settled.value;
    }
  }

  /** A step whose needs lead to an id the job never declared is refused too. */
  lemma {:induction false} UnknownNeedNeverBegins(w: WorkState, attempt: int, current: StepId, settled: Option<seq<StepId>>, x: StepId)
    requires current in w.cells && ReachesBeyond(w.needs, current, x) && x !in w.cells
    ensures Begin(w, attempt, current, settled).Err?
  {
    if settled.Some? && CoversNeeds(w, current, settled.value) {
      assert x in settled.value;
    }
  }

  /**
   Which request is accepted, and why another is not: the attempt is stale, overlaps or the report is
   missing; the step is done in this attempt; the report names a step twice, an unknown, an active one
   or the step itself; the report leaves out something the step needs.
   */
  lemma {:induction false} BeginDecides(w: WorkState, attempt: int, current: StepId, settled: Option<seq<StepId>>)
    requires current in w.cells
    ensures var r := Begin(w, attempt, current, settled);
            var inTime := settled.Some? && 1 <= attempt && w.attempt <= attempt && current !in w.active && (w.attempt < attempt ==> w.active == {});
            var finished := w.attempt == attempt && w.cells[current].resolved;
            var named := settled.Some? && (forall i, j :: 0 <= i < j < |settled.value| ==> settled.value[i] != settled.value[j])
                         && (forall i :: 0 <= i < |settled.value| ==> settled.value[i] in w.cells && settled.value[i] !in w.active && settled.value[i] != current);
            var covered := settled.Some? && forall x :: ReachesBeyond(w.needs, current, x) ==> x in settled.value;
            && (r.Ok? <==> inTime && !finished && named && covered)
            && (r == Err(StepStateOverlap) <==> !inTime)
            && (r == Err(StepTerminal) <==> inTime && finished)
            && (r == Err(InvalidSettled) <==> inTime && !finished && !named)
            && (r == Err(PrerequisiteOpen) <==> inTime && !finished && named && !covered)
  {
    if settled.Some? {
      var s := settled.value;
      assert (forall id :: id in s ==> id != current && id in w.cells && id !in w.active)
        <==> (forall i :: 0 <= i < |s| ==> s[i] in w.cells && s[i] !in w.active && s[i] != current);
    }
  }

  /** What a begin needs from the state and the job, whatever the host reports as settled. */
  ghost predicate MayBegin(w: WorkState, attempt: int, current: StepId)
    requires current in w.cells
  {
    && 1 <= attempt && w.attempt <= attempt && (attempt != w.attempt ==> w.active == {})
    && current !in w.active && (attempt == w.attempt ==> !w.cells[current].resolved)
    && forall x :: ReachesBeyond(w.needs, current, x) ==> x in w.cells && x !in w.active && x != current
  }

  ghost predicate CanBegin(w: WorkState, attempt: int, current: StepId)
    requires current in w.cells
  {
    exists settled :: Begin(w, attempt, current, settled).Ok?
  }

  lemma {:induction false} Listed(ids: set<StepId>) returns (l: seq<StepId>)
    ensures NoDuplicates(l) && forall id :: id in l <==> id in ids
    decreases |ids|
  {
    if ids == {} {
      l := [];
    } else {
      var id :| id in ids;
      var rest := Listed(ids - {id});
      l := rest + [id];
    }
  }

  /** Reporting the step's whole need closure is enough when anything is. */
  lemma {:induction false} ClosureIsAccepted(w: WorkState, attempt: int, current: StepId)
    requires current in w.cells && MayBegin(w, attempt, current)
    ensures CanBegin(w, attempt, current)
  {
    var settled := Listed(set x | x in w.cells && ReachesBeyond(w.needs, current, x));
    assert WellNamed(w, current, settled) && CoversNeeds(w, current, settled);
    assert Begin(w, attempt, current, Some(settled)).Ok?;
  }

  lemma {:induction false} AcceptedMayBegin(w: WorkState, attempt: int, current: StepId, settled: Option<seq<StepId>>)
    requires current in w.cells && Begin(w, attempt, current, settled).Ok?
    ensures MayBegin(w, attempt, current)
  {
    forall x | ReachesBeyond(w.needs, current, x)
      ensures x in w.cells && x !in w.active && x != current
    {
      assert x in settled.value;
    }
  }

  /**
   A host can get the step begun exactly when the attempt is allowed, the step is idle and unresolved
   in it, and everything it needs is declared, idle and not the step itself.
   */
  lemma {:induction false} BeginPossibleExactly(w: WorkState, attempt: int, current: StepId)
    requires current in w.cells
    ensures CanBegin(w, attempt, current) <==> MayBegin(w, attempt, current)
  {
    if MayBegin(w, attempt, current) {
      ClosureIsAccepted(w, attempt, current);
    } else if CanBegin(w, attempt, current) {
      var settled :| Begin(w, attempt, current, settled).Ok?;
      AcceptedMayBegin(w, attempt, current, settled);
    }
  }

  /**
   Settled steps need not be downward closed: a begin may settle a step whose own need stays open.
   The invariant therefore speaks of active steps only.
   */
  lemma {:induction false} SettledNeedNotBeClosed() returns (w: WorkState, w': WorkState)
    ensures Inv(w) && "c" in w.cells && Begin(w, 1, "c", Some(["b"])) == Ok(w')
    ensures "a" in Successors(w'.needs, "b")
    ensures "a" in w'.cells && "b" in w'.cells && w'.cells["b"].resolved && !w'.cells["a"].resolved
  {
    var open := Cell(false, None, None);
    var ids := {"a", "b", "c"};
    w := WorkState(map["a" := [], "b" := ["a"], "c" := []], map id | id in ids :: open, 0, {}, {}, []);
    assert w.needs.Keys == ids && "b" in ids && "a" in ids && "c" in ids;
    var c, settled := "c", ["b"];
    assert Successors(w.needs, c) == [];
    assert CoversNeeds(w, c, settled);
    assert WellNamed(w, c, settled) by {
      assert "b" in w.cells && "b" != c;
    }
    w' := Begin(w, 1, c, Some(settled)).value;
    BeginEffect(w, 1, c, Some(settled));
    assert "a" !in settled by { assert "a" != "b"; }
  }
}
