/** Replies of gated requests, whatever others do to the backend. */
module SerialReplies {
  import opened JsonRpc
  import opened JsonValue
  import opened RpcEngine
  import opened SerialMutations
  import opened Wrappers
  import G = MutationGate
  import Bodies = SerialBodies

  /** Steps the body has left at most. */
  function Left(job: Job): nat {
    match job
    case Todo(request, _) => Bound(request)
    case Calling(_, calls, _, _) => |calls| + 1
    case Replied(_) => 0
  }

  /** The job works for a request with this id, or has replied to it. */
  ghost predicate WorksFor(job: Job, id: Option<Json>) {
    match job
    case Todo(request, _) => request.id == id
    case Calling(own, _, _, _) => own == id
    case Replied(response) => response.id == IdOrNull(id) && OneOutcome(response)
  }

  lemma AdvanceKeepsJob(b: Backend, s: BackendState, job: Job, id: Option<Json>)
    requires WorksFor(job, id)
    ensures WorksFor(AdvanceJob(b, s, job).job, id)
    ensures Left(AdvanceJob(b, s, job).job) == 0 || Left(AdvanceJob(b, s, job).job) < Left(job)
  {
    if job.Todo? && job.request.name != MULTICALL {
      var o := ExecuteRequest(b, s, job.request.(params := SplitAuthToken(job.request.params).1), job.snapshot);
    }
  }

  /** Request `n` has as many steps left as its job needs, and the job is its own. */
  ghost predicate Sound(w: World, n: nat) {
    Bodies.SameLengths(w) && n < |w.done| && Bodies.DoneAt(w, n)
    && w.todo[n].Todo? && WorksFor(w.jobs[n], w.todo[n].request.id)
    && Left(w.jobs[n]) + w.done[n] <= w.gate.requests[n].work
  }

  ghost predicate Inv(w: World) {
    Bodies.SameLengths(w) && G.Inv(w.gate) && forall n | 0 <= n < |w.done| :: Sound(w, n)
  }

  lemma ArriveKeepsInv(b: Backend, w: World, request: Request, snapshot: Option<Snapshot>)
    requires Inv(w) && Enabled(b, w, Arrive(request, snapshot))
    ensures Inv(Apply(b, w, Arrive(request, snapshot)))
  {
    var v := Apply(b, w, Arrive(request, snapshot));
    G.ReserveKeepsInv(w.gate, Bound(request));
    forall n | 0 <= n < |v.done| ensures Sound(v, n) {
      if n < |w.done| { assert Sound(w, n); }
    }
  }

  /** A step of its body brings the job on; any other step of the request leaves it as it is. */
  lemma OwnStepKeepsSound(b: Backend, w: World, n: nat)
    requires Sound(w, n) && Enabled(b, w, Step(n))
    ensures Sound(Apply(b, w, Step(n)), n)
  {
    if w.gate.requests[n].phase.Body? { AdvanceKeepsJob(b, w.state, w.jobs[n], w.todo[n].request.id); }
  }

  lemma StepKeepsSound(b: Backend, w: World, n: nat, m: nat)
    requires Inv(w) && Enabled(b, w, Step(n)) && m < |w.done|
    ensures Sound(Apply(b, w, Step(n)), m)
  {
    assert Sound(w, m);
    if m == n {
      OwnStepKeepsSound(b, w, n);
    } else {
      assert Apply(b, w, Step(n)).gate.requests[m] == w.gate.requests[m];
    }
  }

  lemma DropKeepsInv(b: Backend, w: World, n: nat)
    requires Inv(w) && Enabled(b, w, Drop(n))
    ensures Inv(Apply(b, w, Drop(n)))
  {
    var v := Apply(b, w, Drop(n));
    G.CancelKeepsInv(w.gate, n);
    forall m | 0 <= m < |v.done| ensures Sound(v, m) { assert Sound(w, m); }
  }

  lemma ActionKeepsInv(b: Backend, w: World, a: Action)
    requires Inv(w) && Enabled(b, w, a)
    ensures Inv(Apply(b, w, a))
  {
    var v := Apply(b, w, a);
    match a
    case Arrive(request, snapshot) => ArriveKeepsInv(b, w, request, snapshot);
    case Step(n) =>
      G.StepKeepsInv(w.gate, n);
      forall m | 0 <= m < |v.done| ensures Sound(v, m) { StepKeepsSound(b, w, n, m); }
    case Drop(n) => DropKeepsInv(b, w, n);
    case _ => forall m | 0 <= m < |v.done| ensures Sound(v, m) { assert Sound(w, m); }
  }

  lemma {:induction false} RunKeepsInv(b: Backend, w: World, run: seq<Action>, v: World)
    requires Inv(w) && Reaches(b, w, run, v)
    ensures Inv(v)
    decreases |run|
  {
    if run == [] {
    } else {
      ActionKeepsInv(b, w, run[0]);
      RunKeepsInv(b, Apply(b, w, run[0]), run[1..], v);
    }
  }

  /** The request has replied under its own id and with one outcome. */
  ghost predicate AnsweredOwnId(w: World, n: nat) {
    n < |w.jobs| == |w.todo| && w.todo[n].Todo? && w.jobs[n].Replied?
    && w.jobs[n].response.id == IdOrNull(w.todo[n].request.id) && OneOutcome(w.jobs[n].response)
  }

  /**
    For every backend, in every interleaving and whatever others do in between: a request that
    has handed on its turn and was not dropped in the middle has replied, under its own id and
    with one outcome.
   */
  lemma ServedIsAnswered(b: Backend, init: BackendState, run: seq<Action>, w: World, n: nat)
    requires Reaches(b, Bodies.Begin(init), run, w)
    requires n < |w.jobs| && n < w.gate.served && n !in w.dropped
    ensures AnsweredOwnId(w, n)
  {
    RunKeepsInv(b, Bodies.Begin(init), run, w);
    assert Sound(w, n);
    assert G.FitsTurn(w.gate.requests[n].phase, n, w.gate.served);
  }
}
