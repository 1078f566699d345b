/** Infinite runs of the gate with its bodies and the backend. */
module SerialProgress {
  import opened RpcEngine
  import opened SerialMutations
  import opened SerialReplies
  import G = MutationGate
  import Gates = MutationGateProgress
  import Bodies = SerialBodies

  ghost predicate StepAt(b: Backend, st: nat -> World, act: nat -> Action, i: nat) {
    Bodies.SameLengths(st(i)) && Enabled(b, st(i), act(i)) && st(i + 1) == Apply(b, st(i), act(i))
  }

  ghost predicate IsRun(b: Backend, init: BackendState, st: nat -> World, act: nat -> Action) {
    st(0) == Bodies.Begin(init) && forall i: nat :: StepAt(b, st, act, i)
  }

  // ---------- the gate's own run ----------

  function GateAction(a: Action): G.Action {
    match a
    case Arrive(request, _) => G.Reserve(Bound(request))
    case Step(n) => G.Step(n)
    case Drop(n) => G.Cancel(n)
    case _ => G.Idle
  }

  function GateStates(st: nat -> World): nat -> G.State { (i: nat) => st(i).gate }

  function GateActions(act: nat -> Action): nat -> G.Action { (i: nat) => GateAction(act(i)) }

  /** Weak fairness of every request. */
  ghost predicate Fair(st: nat -> World, act: nat -> Action) { Gates.Fair(GateStates(st), GateActions(act)) }

  lemma GateTakesPart(b: Backend, init: BackendState, st: nat -> World, act: nat -> Action)
    requires IsRun(b, init, st, act)
    ensures Gates.IsRun(GateStates(st), GateActions(act))
  {
    forall i: nat ensures Gates.StepAt(GateStates(st), GateActions(act), i) {
      assert StepAt(b, st, act, i);
    }
  }

  // ---------- finite parts of a run ----------

  function Actions(act: nat -> Action, i: nat, j: nat): seq<Action>
    decreases j - i
  {
    if j <= i then [] else [act(i)] + Actions(act, i + 1, j)
  }

  /** Nothing that others do ever changes the backend. */
  ghost predicate Calm(st: nat -> World, act: nat -> Action) {
    forall i: nat :: IsForeign(act(i)) ==> st(i + 1) == st(i)
  }

  lemma {:induction false} PartReaches(b: Backend, init: BackendState, st: nat -> World, act: nat -> Action, i: nat,
                                       j: nat)
    requires IsRun(b, init, st, act) && i <= j
    ensures Reaches(b, st(i), Actions(act, i, j), st(j))
    ensures Calm(st, act) ==> Undisturbed(b, st(i), Actions(act, i, j))
    decreases j - i
  {
    assert StepAt(b, st, act, i);
    if i < j {
      PartReaches(b, init, st, act, i + 1, j);
      assert Actions(act, i, j)[1..] == Actions(act, i + 1, j);
    }
  }

  // ---------- who gets a reply ----------

  /** The request has handed on its turn and was not dropped in the middle. */
  ghost predicate Finished(w: World, n: nat) { n < |w.jobs| && n < w.gate.served && n !in w.dropped }

  /** The request was dropped, or an earlier one was while it waited. */
  ghost predicate Lost(w: World, n: nat) { Gates.Abandoned(w.gate, n) || n in w.dropped }

  lemma {:induction false} DroppedStays(b: Backend, init: BackendState, st: nat -> World, act: nat -> Action, n: nat,
                                        i: nat, j: nat)
    requires IsRun(b, init, st, act) && i <= j
    ensures |st(i).jobs| <= |st(j).jobs|
    ensures n in st(i).dropped ==> n in st(j).dropped
    decreases j - i
  {
    if i == j {
    } else {
      DroppedStays(b, init, st, act, n, i, j - 1);
      assert StepAt(b, st, act, j - 1);
    }
  }

  lemma FinishedStep(b: Backend, w: World, a: Action, n: nat)
    requires Bodies.SameLengths(w) && Enabled(b, w, a) && G.Inv(w.gate) && Finished(w, n)
    ensures Finished(Apply(b, w, a), n)
  {
    assert G.FitsTurn(w.gate.requests[n].phase, n, w.gate.served);
  }

  /** Once a request has handed on its turn, it can no longer be dropped. */
  lemma {:induction false} FinishedStays(b: Backend, init: BackendState, st: nat -> World, act: nat -> Action, n: nat,
                                         i: nat, j: nat)
    requires IsRun(b, init, st, act) && i <= j && Finished(st(i), n)
    ensures Finished(st(j), n)
    decreases j - i
  {
    if i == j {
    } else {
      FinishedStays(b, init, st, act, n, i, j - 1);
      GateTakesPart(b, init, st, act);
      Gates.InvAt(GateStates(st), GateActions(act), j - 1);
      assert StepAt(b, st, act, j - 1);
      FinishedStep(b, st(j - 1), act(j - 1), n);
    }
  }

  /**
    The exact condition, whatever others do to the backend: in every fair run a request that has
    arrived finishes if and only if it is never dropped, nor any earlier one while it waits.
   */
  lemma FinishedExactly(b: Backend, init: BackendState, st: nat -> World, act: nat -> Action, n: nat, i: nat)
    requires IsRun(b, init, st, act) && Fair(st, act) && n < |st(i).jobs|
    ensures (exists j: nat :: Finished(st(j), n)) <==> (forall j: nat :: !Lost(st(j), n))
  {
    var states, actions := GateStates(st), GateActions(act);
    GateTakesPart(b, init, st, act);
    assert StepAt(b, st, act, i);
    Gates.ServedIffNotAbandoned(states, actions, n, i);
    if forall j: nat :: !Lost(st(j), n) {
      forall j: nat ensures !Gates.Abandoned(states(j), n) { assert !Lost(st(j), n); }
      var j: nat :| Gates.HasServed(states(j), n);
      Gates.InvAt(states, actions, j);
      assert StepAt(b, st, act, j) && !Lost(st(j), n);
      assert Finished(st(j), n);
    }
    if j: nat :| Finished(st(j), n) {
      assert Gates.HasServed(states(j), n);
      forall k: nat ensures !Lost(st(k), n) {
        assert !Gates.Abandoned(states(k), n);
        if k <= j { DroppedStays(b, init, st, act, n, k, j); } else { FinishedStays(b, init, st, act, n, j, k); }
      }
    }
  }

  /** A finished request has the reply it would have got alone after its predecessors. */
  lemma FinishedHasReplied(b: Backend, init: BackendState, st: nat -> World, act: nat -> Action, n: nat, i: nat)
    requires IsRun(b, init, st, act) && Calm(st, act) && Finished(st(i), n)
    ensures |st(i).todo| == |st(i).done| == |st(i).jobs| && st(i).todo[n].Todo?
    ensures st(i).jobs[n] == Replied(Alone(b, init, st(i), n).reply)
  {
    PartReaches(b, init, st, act, 0, i);
    MutationsAreSerial(b, init, Actions(act, 0, i), st(i));
  }

  /** The request has the reply it would have got alone after its predecessors. */
  ghost predicate RepliedAsAlone(b: Backend, init: BackendState, w: World, n: nat) {
    n < |w.todo| == |w.done| == |w.jobs| && w.todo[n].Todo? && w.jobs[n] == Replied(Alone(b, init, w, n).reply)
  }

  /**
    In every fair run that nobody disturbs, a request that is not lost ends, for good, with the
    reply it would have got alone after its predecessors.
   */
  lemma EventuallyReplied(b: Backend, init: BackendState, st: nat -> World, act: nat -> Action, n: nat, i: nat)
    returns (j: nat)
    requires IsRun(b, init, st, act) && Fair(st, act) && Calm(st, act) && n < |st(i).jobs|
    requires forall k: nat :: !Lost(st(k), n)
    ensures forall k: nat | j <= k :: RepliedAsAlone(b, init, st(k), n)
  {
    FinishedExactly(b, init, st, act, n, i);
    j :| Finished(st(j), n);
    forall k: nat | j <= k ensures RepliedAsAlone(b, init, st(k), n) {
      FinishedStays(b, init, st, act, n, j, k);
      FinishedHasReplied(b, init, st, act, n, k);
    }
  }

  /**
    In every fair run, whatever others do to the backend, a request that is not lost ends, for
    good, with a reply under its own id and with one outcome.
   */
  lemma EventuallyAnswered(b: Backend, init: BackendState, st: nat -> World, act: nat -> Action, n: nat, i: nat)
    returns (j: nat)
    requires IsRun(b, init, st, act) && Fair(st, act) && n < |st(i).jobs|
    requires forall k: nat :: !Lost(st(k), n)
    ensures forall k: nat | j <= k :: AnsweredOwnId(st(k), n)
  {
    FinishedExactly(b, init, st, act, n, i);
    j :| Finished(st(j), n);
    forall k: nat | j <= k ensures AnsweredOwnId(st(k), n) {
      FinishedStays(b, init, st, act, n, j, k);
      PartReaches(b, init, st, act, 0, k);
      ServedIsAnswered(b, init, Actions(act, 0, k), st(k), n);
    }
  }
}
