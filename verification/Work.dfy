/**
 The classes behind the step protocol: a Work object with its WorkStep objects, each proved to
 change the abstract state exactly as the functions of module Settlement say.
 */
module WorkObjects {
  import opened Results
  import opened Reachability
  import opened Settlement

  /** The Go runtime's channels of element type struct{}: closing one twice would panic. */
  class ChannelHeap {
    var closed: set<Chan>
    var made: seq<StepId>

    constructor ()
      ensures closed == {} && made == []
    {
      closed, made := {}, [];
    }

    method Make(owner: StepId) returns (c: Chan)
      modifies this
      ensures c == |old(made)| && made == old(made) + [owner] && closed == old(closed)
    {
      c, made := |made|, made + [owner];
    }

    method Close(c: Chan)
      requires c !in closed
      modifies this
      ensures closed == old(closed) + {c} && made == old(made)
    {
      closed := closed + {c};
    }
  }

  class WorkStep {
    const id: StepId
    var needs: seq<StepId>
    var resolved: bool
    var out: Option<Output>
    var done: Option<Chan>

    constructor (id: StepId)
      ensures this.id == id && needs == [] && View() == Cell(false, None, None)
    {
      this.id, needs, resolved, out, done := id, [], false, None, None;
    }

    function View(): Cell
      reads this
    {
      Cell(resolved, out, done)
    }

    /** addWorkDep for one dependency: the empty id is ignored and no id is listed twice. */
    method AddNeed(dep: StepId)
      modifies this`needs
      ensures needs == if dep == "" || dep in old(needs) then old(needs) else old(needs) + [dep]
    {
      if dep != "" && dep !in needs {
        needs := needs + [dep];
      }
    }

    method MarkDone(heap: ChannelHeap, value: Option<Output>)
      requires !resolved && done.Some? ==> done.value !in heap.closed
      requires resolved ==> done.Some?
      requires |heap.made| !in heap.closed
      modifies this`resolved, this`out, this`done, heap
      ensures resolved && out == if old(resolved) then old(out) else value
      ensures done == if old(done).Some? then old(done) else Some(|old(heap.made)|)
      ensures heap.made == if old(done).Some? then old(heap.made) else old(heap.made) + [id]
      ensures heap.closed == if old(resolved) then old(heap.closed) else old(heap.closed) + {done.value}
    {
      if done == None {
        var c := heap.Make(id);
        done := Some(c);
      }
      if resolved {
        return;
      }
      resolved := true;
      out := value;
      heap.Close(done.value);
    }

    /** The channel a caller has to wait on, or none when the step is resolved already. */
    method AwaitDone(heap: ChannelHeap) returns (c: Option<Chan>)
      modifies this`done, heap
      ensures heap.closed == old(heap.closed)
      ensures old(resolved) ==> c == None && done == old(done) && heap.made == old(heap.made)
      ensures !old(resolved) ==> c == done && done == if old(done).Some? then old(done) else Some(|old(heap.made)|)
      ensures !old(resolved) ==> heap.made == if old(done).Some? then old(heap.made) else old(heap.made) + [id]
    {
      if resolved {
        return None;
      }
      if done == None {
        var made := heap.Make(id);
        done := Some(made);
      }
      c := done;
    }
  }

  /** What the author's step function does once RunStep has admitted the step. */
  datatype BodyOutcome = Panics | Fails | Returns(out: Option<Output>, fits: bool)

  datatype Reply = UnknownStep | Refused(reason: Refusal) | Failed | Success(out: Option<Output>)

  class Work {
    const heap: ChannelHeap
    var steps: seq<WorkStep>
    var byID: map<StepId, WorkStep>
    var attempt: int
    var active: set<StepId>

    /** The abstract state; Coupled ties every part of it to the fields of the objects. */
    ghost var state: WorkState

    /** Where each registered step stands in the slice. */
    ghost var position: map<StepId, nat>

    /** The slice and the map hold the same steps. */
    ghost predicate Listed()
      reads this`steps, this`byID, this`position
    {
      && (forall id :: id in byID ==> id in position && position[id] < |steps| && steps[position[id]] == byID[id])
      && (forall k :: 0 <= k < |steps| ==> steps[k].id in byID && byID[steps[k].id] == steps[k])
    }

    ghost predicate Coupled()
      reads this, heap, byID.Values
    {
      && (forall id :: id in byID ==> byID[id].id == id)
      && state.needs.Keys == byID.Keys && state.cells.Keys == byID.Keys
      && (forall id :: id in byID ==> byID[id].needs == state.needs[id] && byID[id].View() == state.cells[id])
      && state.attempt == attempt && state.active == active
      && state.closed == heap.closed && state.made == heap.made
    }

    constructor ()
      ensures Coupled() && Listed() && fresh(heap) && byID == map[]
      ensures state == WorkState(map[], map[], 0, {}, {}, [])
    {
      heap := new ChannelHeap();
      steps, byID, attempt, active := [], map[], 0, {};
      state, position := WorkState(map[], map[], 0, {}, {}, []), map[];
    }

    /** Step: an empty or duplicate id is the source's panic and registers nothing. */
    method Register(id: StepId) returns (r: Option<WorkStep>)
      requires Coupled() && Listed()
      modifies this`steps, this`byID, this`state, this`position
      ensures Coupled() && Listed()
      ensures r.None? <==> id == "" || id in old(byID)
      ensures r.None? ==> byID == old(byID) && state == old(state)
      ensures r.Some? ==> fresh(r.value) && byID == old(byID)[id := r.value]
      ensures r.Some? ==> state == Registered(old(state), id)
      ensures r.Some? ==> state.cells.Keys == old(state).cells.Keys + {id} && state.needs[id] == [] && state.cells[id] == Cell(false, None, None)
      ensures r.Some? ==> forall i :: i in old(state).cells && i != id && i in old(state).needs ==>
                state.cells[i] == old(state).cells[i] && state.needs[i] == old(state).needs[i]
    {
      if id == "" || id in byID {
        return None;
      }
      var s := new WorkStep(id);
      Attach(s);
      return Some(s);
    }

    method Attach(s: WorkStep)
      requires Coupled() && Listed() && s.id !in byID && s.needs == [] && s.View() == Cell(false, None, None)
      modifies this`steps, this`byID, this`state, this`position
      ensures Coupled() && Listed()
      ensures byID == old(byID)[s.id := s] && state == Registered(old(state), s.id)
    {
      Link(s);
      state := Registered(state, s.id);
    }

    method Link(s: WorkStep)
      requires Listed() && s.id !in byID
      modifies this`steps, this`byID, this`position
      ensures Listed() && byID == old(byID)[s.id := s]
    {
      position := position[s.id := |steps|];
      steps := steps + [s];
      byID := byID[s.id := s];
    }

    /** The first loop: a duplicate, unknown, active or current id makes the list invalid. */
    method CheckNames(current: WorkStep, settled: seq<StepId>) returns (ok: bool)
      requires Coupled()
      ensures ok <==> WellNamed(state, current.id, settled)
    {
      var terminal: set<StepId> := {};
      var k := 0;
      while k < |settled|
        invariant 0 <= k <= |settled|
        invariant terminal == set x | x in settled[..k]
        invariant WellNamed(state, current.id, settled[..k])
      {
        var id := settled[k];
        if id == current.id || id !in byID || id in terminal || id in active {
          assert id in settled;
          if id in terminal {
            var j :| 0 <= j < k && settled[j] == id;
            assert settled[j] == settled[k];
          }
          return false;
        }
        assert settled[..k + 1] == settled[..k] + [id];
        terminal, k := terminal + {id}, k + 1;
      }
      assert settled[..k] == settled;
      return true;
    }

    /**
     The worklist visits each step of the need closure at most once, so it ends on cyclic graphs,
     and it looks a step up only after its id was found among the settled ones.
     */
    method CheckClosure(current: WorkStep, settled: seq<StepId>) returns (ok: bool)
      requires Coupled() && current.id in byID && byID[current.id] == current
      requires forall id :: id in settled ==> id in byID
      ensures ok <==> CoversNeeds(state, current.id, settled)
    {
      var terminal := set x | x in settled;
      var stack := current.needs;
      var checked := {current.id};
      WorklistStart(state.needs, current.id, stack, terminal);
      while |stack| > 0
        invariant Worklist(state.needs, current.id, stack, checked, terminal)
        decreases |terminal + {current.id}| - |checked|, |stack|
      {
        var id := stack[|stack| - 1];
        ghost var before := stack;
        stack := stack[..|stack| - 1];
        if id !in terminal {
          assert id in before;
          return false;
        }
        if id !in checked {
          SubsetIsSmaller(checked + {id}, terminal + {current.id});
          checked := checked + {id};
          stack := stack + byID[id].needs;
          WorklistVisit(state.needs, current.id, before, checked - {id}, terminal, id, stack);
        } else {
          WorklistSkip(state.needs, current.id, before, checked, terminal, id, stack);
        }
      }
      WorklistDone(state.needs, current.id, checked, terminal);
      return true;
    }

    /** A settled list is accepted exactly when it is well named and holds the whole need closure. */
    method ValidateSettlement(current: WorkStep, settled: seq<StepId>) returns (r: Option<Refusal>)
      requires Coupled() && current.id in byID && byID[current.id] == current
      ensures r == None <==> WellNamed(state, current.id, settled) && CoversNeeds(state, current.id, settled)
      ensures r == Some(InvalidSettled) <==> !WellNamed(state, current.id, settled)
      ensures r == Some(PrerequisiteOpen) <==>
                WellNamed(state, current.id, settled) && !CoversNeeds(state, current.id, settled)
    {
      var named := CheckNames(current, settled);
      if !named {
        return Some(InvalidSettled);
      }
      var covered := CheckClosure(current, settled);
      return if covered then None else Some(PrerequisiteOpen);
    }

    /** Every step forgets its outcome and drops its channel. */
    method ResetSteps()
      requires Coupled() && Listed()
      modifies byID.Values
      ensures forall id :: id in byID ==> byID[id].View() == Cell(false, None, None) && byID[id].needs == old(byID[id].needs)
    {
      var k := 0;
      while k < |steps|
        invariant 0 <= k <= |steps|
        invariant forall i :: 0 <= i < k ==> steps[i].View() == Cell(false, None, None)
        invariant forall id :: id in byID ==> byID[id].needs == old(byID[id].needs)
      {
        var s := steps[k];
        assert s == byID[s.id] && s in byID.Values;
        s.resolved, s.out, s.done := false, None, None;
        k := k + 1;
      }
    }

    /** The reset of a new attempt; a request of the current one changes nothing here. */
    method ResetFor(attempt: int)
      requires Coupled() && Listed()
      modifies this`attempt, this`state, byID.Values
      ensures Coupled() && state == ForAttempt(old(state), attempt)
    {
      if attempt != this.attempt {
        ResetSteps();
        this.attempt := attempt;
        state := Reset(state, attempt);
      }
    }

    /** The step's own fields and the channels, after its outcome was recorded. */
    method MarkObject(id: StepId, value: Option<Output>)
      requires Coupled() && id in byID && Markable(state, id)
      modifies heap, byID[id]
      ensures byID[id].View() == MarkDone(state, id, value).cells[id] && byID[id].needs == old(byID[id].needs)
      ensures heap.closed == MarkDone(state, id, value).closed && heap.made == MarkDone(state, id, value).made
    {
      byID[id].MarkDone(heap, value);
    }

    /** The step's outcome is recorded once; a second call finds it resolved and changes nothing else. */
    method MarkStep(id: StepId, value: Option<Output>)
      requires Coupled() && id in byID && Markable(state, id)
      modifies this`state, heap, byID.Values
      ensures Coupled()
      ensures state == MarkDone(old(state), id, value)
    {
      var step := byID[id];
      assert step in byID.Values;
      MarkObject(id, value);
      state := MarkDone(state, id, value);
    }

    method SettleNext(ghost w: WorkState, ids: seq<StepId>, k: nat)
      requires Coupled() && AllMarkable(w, ids) && k < |ids| && state == MarkAll(w, ids[..k])
      modifies this`state, heap, byID.Values
      ensures Coupled() && state == MarkAll(w, ids[..k + 1])
    {
      MarkAllNext(w, ids, k);
      MarkStep(ids[k], None);
    }

    method MarkSettled(ids: seq<StepId>)
      requires Coupled() && AllMarkable(state, ids)
      modifies this`state, heap, byID.Values
      ensures Coupled() && state == MarkAll(old(state), ids)
    {
      ghost var w := state;
      var k := 0;
      while k < |ids|
        invariant 0 <= k <= |ids| && Coupled()
        invariant state == MarkAll(w, ids[..k])
      {
        SettleNext(w, ids, k);
        k := k + 1;
      }
      assert ids[..k] == ids;
    }

    method Activate(id: StepId)
      requires Coupled()
      modifies this`active, this`state
      ensures Coupled() && state == old(state).(active := old(state).active + {id})
    {
      active := active + {id};
      state := state.(active := state.active + {id});
    }

    /** The accepting half of beginStep: reset on a new attempt, settle, activate. */
    method Accept(attempt: int, id: StepId, settled: seq<StepId>)
      requires Coupled() && Listed() && AllMarkable(ForAttempt(state, attempt), settled)
      modifies this`attempt, this`active, this`state, heap, byID.Values
      ensures Coupled()
      ensures var w := MarkAll(ForAttempt(old(state), attempt), settled);
              state == w.(active := w.active + {id})
    {
      ResetFor(attempt);
      MarkSettled(settled);
      Activate(id);
    }

    method BeginStep(attempt: int, current: WorkStep, settled: Option<seq<StepId>>) returns (r: Result<(), Refusal>)
      requires Coupled() && Listed() && ChannelsOk(state) && current.id in byID && byID[current.id] == current
      modifies this`attempt, this`active, this`state, heap, byID.Values
      ensures Coupled()
      ensures match Begin(old(state), attempt, current.id, settled)
              case Ok(w) => r == Ok(()) && state == w
              case Err(e) => r == Err(e) && state == old(state)
    {
      if attempt < 1 || attempt < this.attempt || (attempt != this.attempt && active != {})
         || current.id in active || settled.None? {
        return Err(StepStateOverlap);
      }
      assert current.View() == state.cells[current.id];
      if attempt == this.attempt {
        if current.resolved {
          return Err(StepTerminal);
        }
      }
      var refusal := ValidateSettlement(current, settled.value);
      if refusal.Some? {
        return Err(refusal.value);
      }
      ForAttemptMarkable(state, attempt, settled.value);
      Accept(attempt, current.id, settled.value);
      return Ok(());
    }

    method FinishStep(id: StepId)
      requires Coupled()
      modifies this`active, this`state
      ensures Coupled() && state == Settlement.FinishStep(old(state), id)
    {
      active := active - {id};
      state := Settlement.FinishStep(state, id);
    }

    /** StepGet's wait: none for a resolved step, else the channel its resolution will close. */
    method AwaitStep(id: StepId) returns (c: Option<Chan>)
      requires Coupled() && id in byID
      modifies this`state, heap, byID.Values
      ensures Coupled() && (state, c) == AwaitDone(old(state), id)
    {
      var step := byID[id];
      assert step in byID.Values && step.View() == state.cells[id];
      c := step.AwaitDone(heap);
      state := AwaitDone(state, id).0;
    }

    /** The rest of RunStep after admission: body, deferred settle, deferred finish, in that order. */
    method RunAdmitted(id: StepId, body: BodyOutcome) returns (reply: Reply)
      requires Coupled() && ChannelsOk(state) && id in byID
      modifies this`active, this`state, heap, byID.Values
      ensures Coupled() && id in old(state).cells && state == Served(old(state), id, body)
      ensures !old(state).cells[id].resolved ==> Completed(old(state), id, if body.Returns? then body.out else None, state)
      ensures reply == if body.Returns? && body.fits then Success(body.out) else Failed
    {
      ghost var w := state;
      MarkedIsMarkable(w, id, None);
      reply := Failed;
      if !body.Panics? {
        MarkStep(id, Produced(body));
        if body.Returns? && body.fits {
          reply := Success(body.out);
        }
      }
      MarkedIsMarkable(w, id, Produced(body));
      MarkStep(id, None);
      FinishStep(id);
      if !w.cells[id].resolved { ServedCompletes(w, id, body); }
    }

    /** One run_step request from lookup to reply. A refused request leaves no trace. */
    method RunStep(attempt: int, id: StepId, settled: Option<seq<StepId>>, body: BodyOutcome) returns (reply: Reply)
      requires Coupled() && Listed() && ChannelsOk(state)
      modifies this`attempt, this`active, this`state, heap, byID.Values
      ensures Coupled()
      ensures id !in old(byID) ==> reply == UnknownStep && state == old(state)
      ensures id in old(byID) ==> id in old(state).cells
      ensures id in old(byID) ==>
        match Begin(old(state), attempt, id, settled)
        case Err(e) => reply == Refused(e) && state == old(state)
        case Ok(w) =>
          && id in w.cells && state == Served(w, id, body)
          && Completed(w, id, if body.Returns? then body.out else None, state)
          && reply == (if body.Returns? && body.fits then Success(body.out) else Failed)
    {
      if id !in byID {
        return UnknownStep;
      }
      ghost var w := state;
      var begun := BeginStep(attempt, byID[id], settled);
      if begun.Err? {
        return Refused(begun.error);
      }
      BeginEffect(w, attempt, id, settled);
      reply := RunAdmitted(id, body);
    }
  }

  function Produced(body: BodyOutcome): Option<Output> {
    if body.Returns? then body.out else None
  }

  /** What a request leaves behind once its step is admitted. */
  function Served(w: WorkState, id: StepId, body: BodyOutcome): WorkState
    requires id in w.cells
  {
    var m := if body.Panics? then w else MarkDone(w, id, Produced(body));
    FinishStep(MarkDone(m, id, None), id)
  }

  /** Marking this step done closes no channel twice. */
  predicate Markable(w: WorkState, id: StepId) {
    && id in w.cells && |w.made| !in w.closed
    && (w.cells[id].resolved ==> w.cells[id].done.Some?)
    && (!w.cells[id].resolved && w.cells[id].done.Some? ==> w.cells[id].done.value !in w.closed)
  }

  /** The state a begin settles into: a new attempt starts from the reset one. */
  function ForAttempt(w: WorkState, attempt: int): WorkState {
    if attempt != w.attempt then Reset(w, attempt) else w
  }

  /** Settling the ids one after another closes no channel twice. */
  ghost predicate AllMarkable(w: WorkState, ids: seq<StepId>) {
    && (forall id :: id in ids ==> id in w.cells)
    && forall k :: 0 <= k < |ids| ==> Markable(MarkAll(w, ids[..k]), ids[k])
  }

  /** No settled step's channel is closed twice, whatever the order and repetition of the list. */
  lemma {:induction false} MarkAllMarkable(w: WorkState, ids: seq<StepId>)
    requires ChannelsOk(w) && forall id :: id in ids ==> id in w.cells
    ensures AllMarkable(w, ids)
  {
    forall k | 0 <= k < |ids|
      ensures Markable(MarkAll(w, ids[..k]), ids[k])
    {
      MarkAllKeeps(w, ids[..k]);
    }
  }

  lemma {:induction false} ForAttemptMarkable(w: WorkState, attempt: int, ids: seq<StepId>)
    requires ChannelsOk(w) && forall id :: id in ids ==> id in w.cells
    ensures AllMarkable(ForAttempt(w, attempt), ids)
  {
    ResetKeeps(w, attempt);
    MarkAllMarkable(ForAttempt(w, attempt), ids);
  }

  lemma {:induction false} MarkAllNext(w: WorkState, ids: seq<StepId>, k: nat)
    requires k < |ids| && forall id :: id in ids ==> id in w.cells
    ensures MarkAll(w, ids[..k + 1]) == MarkDone(MarkAll(w, ids[..k]), ids[k], None)
  {
    assert ids[..k + 1][..k] == ids[..k];
  }

  lemma {:induction false} MarkedIsMarkable(w: WorkState, id: StepId, out: Option<Output>)
    requires ChannelsOk(w) && id in w.cells
    ensures Markable(w, id) && Markable(MarkDone(w, id, out), id)
  {
    MarkDoneKeeps(w, id, out);
  }

  /** One step went from unresolved to resolved with this output and is no longer active; nothing else is different. */
  predicate Completed(w: WorkState, id: StepId, out: Option<Output>, r: WorkState)
    requires id in w.cells
  {
    && r.needs == w.needs && r.attempt == w.attempt && r.active == w.active - {id} && r.cells.Keys == w.cells.Keys
    && r.cells[id].resolved && r.cells[id].out == out
    && forall i :: i in w.cells && i != id ==> r.cells[i] == w.cells[i]
  }

  /** The step's output afterwards is what its body returned, and none when it panicked or failed. */
  lemma {:induction false} ServedCompletes(w: WorkState, id: StepId, body: BodyOutcome)
    requires ChannelsOk(w) && id in w.cells && !w.cells[id].resolved
    ensures Completed(w, id, if body.Returns? then body.out else None, Served(w, id, body))
  {
    var m := if body.Panics? then w else MarkDone(w, id, Produced(body));
    if !body.Panics? { MarkDoneKeeps(w, id, Produced(body)); }
    MarkDoneKeeps(m, id, None);
  }

  /**
   A whole request leaves its step resolved and inactive, with the body's output when it returned one,
   fit to be sent or not, and with none when it panicked or failed; the invariant holds.
   */
  lemma {:induction false} RequestSettlesItsStep(w: WorkState, id: StepId, body: BodyOutcome)
    requires Inv(w) && id in w.active && !w.cells[id].resolved
    ensures var r := Served(w, id, body);
            && Inv(r) && Extends(w, r) && r.active == w.active - {id}
            && r.cells[id].resolved
            && (body.Returns? ==> r.cells[id].out == body.out) && (!body.Returns? ==> r.cells[id].out == None)
            && forall i :: i in w.cells && i != id ==> r.cells[i] == w.cells[i]
  {
    ServedCompletes(w, id, body);
    var m := if body.Panics? then w else MarkDone(w, id, Produced(body));
    if !body.Panics? { MarkDoneKeepsInv(w, id, Produced(body)); }
    var s := MarkDone(m, id, None);
    MarkDoneKeepsInv(m, id, None);
    FinishKeepsInv(s, id);
    ExtendsTransitive(w, m, s);
    ExtendsTransitive(w, s, FinishStep(s, id));
  }

  // ---------------------------------------------------------------- lemmas about the loops

  lemma {:induction false} SubsetIsSmaller<T>(a: set<T>, b: set<T>)
    requires a <= b
    ensures |a| <= |b|
  {
    assert b == a + (b - a);
  }

  /**
   The worklist's invariant: what is queued is needed, what was visited is settled, and every need
   of a visited step is either visited or queued.
   */
  ghost predicate Worklist(needs: Edges, current: StepId, stack: seq<StepId>, checked: set<StepId>, terminal: set<StepId>) {
    && current in checked && checked <= terminal + {current}
    && (forall x :: x in stack ==> ReachesBeyond(needs, current, x))
    && (forall a, b :: a in checked && b in Successors(needs, a) ==> (b in checked && b in terminal) || b in stack)
  }

  lemma {:induction false} WorklistStart(needs: Edges, current: StepId, stack: seq<StepId>, terminal: set<StepId>)
    requires stack == Successors(needs, current)
    ensures Worklist(needs, current, stack, {current}, terminal)
  {
    forall x | x in stack
      ensures ReachesBeyond(needs, current, x)
    {
      ReachesEdge(needs, current, x);
    }
  }

  lemma {:induction false} WorklistVisit(needs: Edges, current: StepId, before: seq<StepId>, checked: set<StepId>, terminal: set<StepId>,
                      id: StepId, stack: seq<StepId>)
    requires Worklist(needs, current, before, checked, terminal) && |before| > 0 && id == before[|before| - 1]
    requires id in terminal && stack == before[..|before| - 1] + Successors(needs, id)
    ensures Worklist(needs, current, stack, checked + {id}, terminal)
  {
    assert before == before[..|before| - 1] + [id];
    forall x | x in Successors(needs, id)
      ensures ReachesBeyond(needs, current, x)
    {
      ReachesEdge(needs, id, x);
      ReachesBeyondThenReaches(needs, current, id, x);
    }
  }

  lemma {:induction false} WorklistSkip(needs: Edges, current: StepId, before: seq<StepId>, checked: set<StepId>, terminal: set<StepId>,
                     id: StepId, stack: seq<StepId>)
    requires Worklist(needs, current, before, checked, terminal) && |before| > 0 && id == before[|before| - 1]
    requires id in terminal && id in checked && stack == before[..|before| - 1]
    ensures Worklist(needs, current, stack, checked, terminal)
  {
    assert before == stack + [id];
  }

  /** When the worklist is empty, the settled ids hold the whole need closure. */
  lemma {:induction false} WorklistDone(needs: Edges, current: StepId, checked: set<StepId>, terminal: set<StepId>)
    requires Worklist(needs, current, [], checked, terminal)
    ensures forall x :: ReachesBeyond(needs, current, x) ==> x in terminal
  {
    forall x | ReachesBeyond(needs, current, x)
      ensures x in terminal
    {
      var n :| n in Successors(needs, current) && Reaches(needs, n, x);
      var p :| PathFromTo(needs, p, n, x);
      var s := checked * terminal;
      assert n in s && ClosedUnder(needs, s);
      ClosedSetConfines(needs, s, p);
    }
  }

  lemma {:induction false} SamePaths(a: Edges, b: Edges, p: seq<string>)
    requires forall n :: Successors(a, n) == Successors(b, n)
    ensures IsPath(a, p) <==> IsPath(b, p)
  {
  }

  function Registered(w: WorkState, id: StepId): WorkState {
    w.(needs := w.needs[id := []], cells := w.cells[id := Cell(false, None, None)])
  }

  /** Registering a step with no needs leaves reachability, and so the invariant, alone. */
  lemma {:induction false} RegisterKeepsInv(w: WorkState, id: StepId)
    requires Inv(w) && id !in w.cells
    ensures Inv(Registered(w, id))
  {
    var w' := Registered(w, id);
    assert forall n :: Successors(w.needs, n) == Successors(w'.needs, n);
    forall a, b | ReachesBeyond(w'.needs, a, b)
      ensures ReachesBeyond(w.needs, a, b)
    {
      var n :| n in Successors(w'.needs, a) && Reaches(w'.needs, n, b);
      var p :| PathFromTo(w'.needs, p, n, b);
      SamePaths(w.needs, w'.needs, p);
      assert PathFromTo(w.needs, p, n, b);
    }
    assert ChannelsOk(w');
    forall a | a in w'.active
      ensures NeedsResolved(w', a)
    {
      assert NeedsResolved(w, a);
    }
  }
}
