/** The mutation gate with real requests as its bodies, while others do to the backend what they like. */
module SerialMutations {
  import opened JsonRpc
  import opened JsonValue
  import opened RpcEngine
  import opened Wrappers
  import G = MutationGate
  import Bodies = SerialBodies

  // ---------- the body of a request, step by step ----------

  datatype Job =
    | Todo(request: Request, snapshot: Option<Snapshot>)
    | Calling(id: Option<Json>, calls: seq<Json>, view: Option<Snapshot>, results: seq<Json>)
    | Replied(response: Response)

  type Progress = Bodies.Progress<BackendState, Job, Event>

  function ReplyOf(reply: Result<Response, RpcError>, id: Option<Json>): Job {
    Replied(if reply.Ok? then reply.value else IntoResponse(reply.error, id))
  }

  /** A multicall captures its snapshot first, then makes one call per step, then replies. */
  function AdvanceJob(b: Backend, s: BackendState, job: Job): Progress {
    match job
    case Todo(request, snapshot) =>
      if request.name != MULTICALL then
        var o := ExecuteRequest(b, s, request.(params := SplitAuthToken(request.params).1), snapshot);
        Bodies.Progress(o.state, ReplyOf(o.reply, request.id), o.trace)
      else
        (match CallsOf(request.params)
         case Err(e) => Bodies.Progress(s, Replied(IntoResponse(e, request.id)), [])
         case Ok(calls) =>
           match MulticallSnapshot(b, s, calls, snapshot)
           case Err(e) => Bodies.Progress(s, Replied(IntoResponse(e, request.id)), [])
           case Ok(view) => Bodies.Progress(s, Calling(request.id, calls, view, []), []))
    case Calling(id, calls, view, results) =>
      if calls == [] then Bodies.Progress(s, Replied(Success(IdOrNull(id), Arr(results))), [])
      else
        var o := Subcall(b, s, calls[0], view);
        Bodies.Progress(o.state, Calling(id, calls[1..], view, results + [Render(o.reply)]), o.trace)
    case Replied(_) => Bodies.Progress(s, job, [])
  }

  function Advance(b: Backend): Bodies.Advance<BackendState, Job, Event> { (s, job) => AdvanceJob(b, s, job) }

  function Steps(b: Backend, s: BackendState, job: Job, n: nat): Progress { Bodies.Steps(Advance(b), s, job, n) }

  /** As many steps as any body of the request takes. */
  function Bound(request: Request): nat {
    if request.name != MULTICALL then 1
    else match CallsOf(request.params) case Err(_) => 1 case Ok(calls) => |calls| + 2
  }

  /** The requests that reserve a ticket. */
  predicate Gated(b: Backend, request: Request) {
    if request.name == MULTICALL then MulticallRequiresMutation(request.params)
    else request.name in MUTATING && (RequiresAuth(request.name) ==> Authorised(b, request.params))
  }

  lemma {:induction false} CallsInProgress(b: Backend, s: BackendState, request: Request, snapshot: Option<Snapshot>,
                                           calls: seq<Json>, view: Option<Snapshot>, k: nat)
    requires request.name == MULTICALL && CallsOf(request.params) == Ok(calls) && k <= |calls|
    requires MulticallSnapshot(b, s, calls, snapshot) == Ok(view)
    ensures var o := Subcalls(b, s, calls[..k], view);
            Steps(b, s, Todo(request, snapshot), k + 1)
            == Bodies.Progress(o.state, Calling(request.id, calls[k..], view, RenderAll(o.reply)), o.trace)
  {
    if k == 0 {
      Bodies.OneStep(Advance(b), s, Todo(request, snapshot));
      assert calls[0..] == calls && calls[..0] == [];
    } else {
      CallsInProgress(b, s, request, snapshot, calls, view, k - 1);
      var o := Subcalls(b, s, calls[..k - 1], view);
      assert calls[..k][..k - 1] == calls[..k - 1] && calls[k - 1..][1..] == calls[k..];
      RenderOneMore(o.reply, Subcall(b, o.state, calls[k - 1], view).reply);
    }
  }

  /** A multicall that cannot begin replies with its error in the first step. */
  lemma RefusalStays(b: Backend, s: BackendState, request: Request, snapshot: Option<Snapshot>, e: RpcError)
    requires AdvanceJob(b, s, Todo(request, snapshot)) == Bodies.Progress(s, Replied(IntoResponse(e, request.id)), [])
    ensures Steps(b, s, Todo(request, snapshot), Bound(request))
            == Bodies.Progress(s, Replied(IntoResponse(e, request.id)), [])
  {
    var job := Todo(request, snapshot);
    Bodies.OneStep(Advance(b), s, job);
    Bodies.StaysFinished(Advance(b), s, job, 1, Bound(request), AdvanceJob(b, s, job));
  }

  lemma MulticallRunsToTheEnd(b: Backend, s: BackendState, request: Request, snapshot: Option<Snapshot>)
    requires request.name == MULTICALL
    ensures var o := Multicall(b, s, request, snapshot);
            Steps(b, s, Todo(request, snapshot), Bound(request))
            == Bodies.Progress(o.state, ReplyOf(o.reply, request.id), o.trace)
  {
    match CallsOf(request.params)
    case Err(e) => RefusalStays(b, s, request, snapshot, e);
    case Ok(calls) =>
      match MulticallSnapshot(b, s, calls, snapshot)
      case Err(e) => RefusalStays(b, s, request, snapshot, e);
      case Ok(view) =>
        assert calls[..|calls|] == calls && calls[|calls|..] == [];
        CallsInProgress(b, s, request, snapshot, calls, view, |calls|);
  }

  /** The steps of a body, left to themselves, are the request's handling under the turn. */
  lemma BodyIsHandling(b: Backend, s: BackendState, request: Request, snapshot: Option<Snapshot>)
    requires Gated(b, request)
    ensures var p, o := Steps(b, s, Todo(request, snapshot), Bound(request)), HandleRequest(b, s, request, snapshot);
            p.state == o.state && p.job == Replied(o.reply) && o.trace == [Acquire] + p.trace + [Release]
  {
    if request.name == MULTICALL {
      MulticallRunsToTheEnd(b, s, request, snapshot);
    } else {
      Bodies.OneStep(Advance(b), s, Todo(request, snapshot));
    }
  }

  // ---------- gate, bodies and backend together ----------

  type World = Bodies.World<BackendState, Job, Event>

  /**
    `Other` is a backend call by a request that needs no turn, `Meanwhile` anything else that
    changes the backend, such as the downloads going on.
   */
  datatype Action =
    | Arrive(request: Request, snapshot: Option<Snapshot>)
    | Step(n: nat)
    | Drop(n: nat)
    | Other(name: string, params: Json, view: Option<Snapshot>)
    | Meanwhile(state: BackendState)

  predicate Enabled(b: Backend, w: World, a: Action) {
    match a
    case Arrive(request, _) => G.HasRoom(w.gate) && Gated(b, request)
    case Step(n) => G.CanStep(w.gate, n)
    case Drop(n) => G.CanCancel(w.gate, n)
    case Other(name, _, _) => ReachesBackend(name) && name !in MUTATING
    case Meanwhile(_) => true
  }

  predicate IsForeign(a: Action) { a.Other? || a.Meanwhile? }

  function Apply(b: Backend, w: World, a: Action): World
    requires Enabled(b, w, a) && |w.jobs| == |w.done| == |w.gate.requests|
  {
    match a
    case Arrive(request, snapshot) =>
      Bodies.Apply(Advance(b), w, Bodies.Arrive(Todo(request, snapshot), Bound(request)))
    case Step(n) => Bodies.Apply(Advance(b), w, Bodies.Step(n))
    case Drop(n) => Bodies.Apply(Advance(b), w, Bodies.Drop(n))
    case Other(name, params, view) =>
      (match b.parse(name, params)
       case Err(_) => w
       case Ok(command) => w.(state := b.exec(w.state, command, view).0))
    case Meanwhile(state) => w.(state := state)
  }

  ghost predicate Reaches(b: Backend, w: World, run: seq<Action>, v: World)
    decreases |run|
  {
    Bodies.SameLengths(w) &&
    if run == [] then w == v else Enabled(b, w, run[0]) && Reaches(b, Apply(b, w, run[0]), run[1..], v)
  }

  // ---------- calls never interleave ----------

  lemma {:induction false} RunKeepsTurns(b: Backend, w: World, run: seq<Action>, v: World)
    requires Bodies.InTurn(w) && Reaches(b, w, run, v)
    ensures Bodies.InTurn(v)
    decreases |run|
  {
    if run == [] {
    } else {
      match run[0] {
        case Arrive(request, snapshot) =>
          Bodies.ActionKeepsTurns(Advance(b), w, Bodies.Arrive(Todo(request, snapshot), Bound(request)), w.state);
        case Step(n) => Bodies.ActionKeepsTurns(Advance(b), w, Bodies.Step(n), w.state);
        case Drop(n) => Bodies.ActionKeepsTurns(Advance(b), w, Bodies.Drop(n), w.state);
        case Other(_, _, _) =>
        case Meanwhile(_) =>
      }
      RunKeepsTurns(b, Apply(b, w, run[0]), run[1..], v);
    }
  }

  /**
    For every backend, in every interleaving, and whatever others do to the backend in between:
    the calls of the gated requests come in ticket order, those of one request never between
    those of another, and only from requests that have had their turn or have it now.
   */
  lemma CallsNeverInterleave(b: Backend, init: BackendState, run: seq<Action>, w: World)
    requires Reaches(b, Bodies.Begin(init), run, w)
    ensures Bodies.Ordered(w.calls, |w.done|) && |w.done| == |w.gate.requests|
    ensures forall i | 0 <= i < |w.calls| :: w.calls[i].0 <= w.gate.served
  {
    RunKeepsTurns(b, Bodies.Begin(init), run, w);
  }

  // ---------- runs in which nobody disturbs ----------

  /** Whatever others do in the run leaves the state it meets as it is. */
  ghost predicate Undisturbed(b: Backend, w: World, run: seq<Action>)
    decreases |run|
  {
    run == [] ||
    (Bodies.SameLengths(w) && Enabled(b, w, run[0]) && (IsForeign(run[0]) ==> Apply(b, w, run[0]) == w)
     && Undisturbed(b, Apply(b, w, run[0]), run[1..]))
  }

  /** Every job begins as a gated request with as much work as its body can take. */
  predicate Proper(b: Backend, job: Job, work: nat) {
    job.Todo? && Gated(b, job.request) && work == Bound(job.request)
  }

  function Admit(b: Backend): Bodies.Admission<Job> { (job: Job, work: nat) => Proper(b, job, work) }

  /** A run as the gate and the bodies see it: what others read leaves no trace. */
  function Shadow(run: seq<Action>): seq<Bodies.Action<Job>> {
    if run == [] then []
    else
      (match run[0]
       case Arrive(request, snapshot) => [Bodies.Arrive(Todo(request, snapshot), Bound(request))]
       case Step(n) => [Bodies.Step(n)]
       case Drop(n) => [Bodies.Drop(n)]
       case Other(_, _, _) => []
       case Meanwhile(_) => []) + Shadow(run[1..])
  }

  lemma {:induction false} OthersLeaveNoTrace(b: Backend, w: World, run: seq<Action>, v: World)
    requires Undisturbed(b, w, run) && Reaches(b, w, run, v)
    ensures Bodies.Reaches(Advance(b), Admit(b), w, Shadow(run), v)
    decreases |run|
  {
    if run == [] {
    } else {
      OthersLeaveNoTrace(b, Apply(b, w, run[0]), run[1..], v);
      if IsForeign(run[0]) {
        assert Shadow(run) == Shadow(run[1..]);
      } else {
        assert Shadow(run)[1..] == Shadow(run[1..]);
      }
    }
  }

  // ---------- what every interleaving guarantees ----------

  /** The first `n` gated requests one after the other, each as far as it has got. */
  function SerialPast(b: Backend, init: BackendState, w: World, n: nat): Bodies.Past<BackendState, Event>
    requires n <= |w.todo| == |w.done|
  {
    Bodies.Replay(Advance(b), init, w.todo, w.done, n)
  }

  /** What request `n` would do alone, once its predecessors have done what they did. */
  function Alone(b: Backend, init: BackendState, w: World, n: nat): Outcome<Response>
    requires n < |w.todo| == |w.done| && w.todo[n].Todo?
  {
    HandleRequest(b, SerialPast(b, init, w, n).state, w.todo[n].request, w.todo[n].snapshot)
  }

  /**
    In every interleaving of any number of requests in which nobody else disturbs: the backend
    is in the state, and has seen the calls, of the gated requests performed one after the
    other in ticket order, each as far as it has got. A request that has handed on its turn,
    unless it was dropped in the middle, has done and replied exactly what it would have, had
    it been handled alone after its predecessors.
   */
  lemma MutationsAreSerial(b: Backend, init: BackendState, run: seq<Action>, w: World)
    requires Undisturbed(b, Bodies.Begin(init), run) && Reaches(b, Bodies.Begin(init), run, w)
    ensures |w.todo| == |w.done| == |w.jobs| && forall n | 0 <= n < |w.todo| :: w.todo[n].Todo?
    ensures Bodies.Past(w.state, w.calls) == SerialPast(b, init, w, |w.done|)
    ensures Bodies.Ordered(w.calls, |w.done|)
    ensures forall n | 0 <= n < |w.jobs| && n < w.gate.served && n !in w.dropped ::
              && w.jobs[n] == Replied(Alone(b, init, w, n).reply)
              && SerialPast(b, init, w, n + 1).state == Alone(b, init, w, n).state
  {
    OthersLeaveNoTrace(b, Bodies.Begin(init), run, w);
    Bodies.RunIsSerial(Advance(b), Admit(b), init, Shadow(run), w);
    forall n | 0 <= n < |w.jobs| && n < w.gate.served && n !in w.dropped
      ensures w.jobs[n] == Replied(Alone(b, init, w, n).reply)
      ensures SerialPast(b, init, w, n + 1).state == Alone(b, init, w, n).state
    {
      BodyIsHandling(b, SerialPast(b, init, w, n).state, w.todo[n].request, w.todo[n].snapshot);
    }
  }

  // ---------- exactly when all runs are serial ----------

  /** Of what others do, the run contains only calls of these methods. */
  predicate OthersCallOnly(run: seq<Action>, names: set<string>) {
    forall i | 0 <= i < |run| :: IsForeign(run[i]) ==> run[i].Other? && run[i].name in names
  }

  /** No call of these methods changes the backend. */
  ghost predicate LeaveAlone(b: Backend, names: set<string>) {
    forall name, params, s, view :: name in names && b.parse(name, params).Ok?
      ==> b.exec(s, b.parse(name, params).value, view).0 == s
  }

  ghost predicate IsSerial(b: Backend, init: BackendState, w: World) {
    |w.todo| == |w.done| && Bodies.Past(w.state, w.calls) == SerialPast(b, init, w, |w.done|)
  }

  /** Whoever calls these methods without the turn, state and calls are those of the gated requests alone. */
  ghost predicate AllRunsAreSerial(b: Backend, names: set<string>) {
    forall init, run, w | OthersCallOnly(run, names) && Reaches(b, Bodies.Begin(init), run, w) :: IsSerial(b, init, w)
  }

  lemma {:induction false} HarmlessCallsDoNotDisturb(b: Backend, names: set<string>, w: World, run: seq<Action>,
                                                     v: World)
    requires LeaveAlone(b, names) && OthersCallOnly(run, names) && Reaches(b, w, run, v)
    ensures Undisturbed(b, w, run)
    decreases |run|
  {
    if run == [] {
    } else {
      assert OthersCallOnly(run[1..], names);
      HarmlessCallsDoNotDisturb(b, names, Apply(b, w, run[0]), run[1..], v);
    }
  }

  /** One call that changes the backend makes a run that is not serial. */
  lemma OneCallDisturbs(b: Backend, name: string, params: Json, s: BackendState, view: Option<Snapshot>)
    requires ReachesBackend(name) && name !in MUTATING && b.parse(name, params).Ok?
    requires b.exec(s, b.parse(name, params).value, view).0 != s
    ensures var w := Apply(b, Bodies.Begin(s), Other(name, params, view));
            Reaches(b, Bodies.Begin(s), [Other(name, params, view)], w) && !IsSerial(b, s, w)
  {
    var run := [Other(name, params, view)];
    assert run[1..] == [];
  }

  /**
    The exact condition on the methods that are called without the turn: all runs in which they
    are called are serial if and only if none of them ever changes the backend.
   */
  lemma SerialExactly(b: Backend, names: set<string>)
    requires forall name | name in names :: ReachesBackend(name) && name !in MUTATING
    ensures AllRunsAreSerial(b, names) <==> LeaveAlone(b, names)
  {
    if LeaveAlone(b, names) {
      forall init, run, w | OthersCallOnly(run, names) && Reaches(b, Bodies.Begin(init), run, w)
        ensures IsSerial(b, init, w)
      {
        HarmlessCallsDoNotDisturb(b, names, Bodies.Begin(init), run, w);
        MutationsAreSerial(b, init, run, w);
      }
    } else {
      var name, params, s, view :| name in names && b.parse(name, params).Ok?
        && b.exec(s, b.parse(name, params).value, view).0 != s;
      OneCallDisturbs(b, name, params, s, view);
      assert OthersCallOnly([Other(name, params, view)], names);
    }
  }

  /** `aria2.evictDhtNodes` needs no turn: where it evicts anything, not all runs are serial. */
  lemma EvictionIsNotSerial(b: Backend, s: BackendState, params: Json, view: Option<Snapshot>)
    requires b.parse("aria2.evictDhtNodes", params).Ok?
    requires b.exec(s, b.parse("aria2.evictDhtNodes", params).value, view).0 != s
    ensures !AllRunsAreSerial(b, {"aria2.evictDhtNodes"})
  {
    SerialExactly(b, {"aria2.evictDhtNodes"});
  }

  /** Requests that reserve no ticket make no mutating call: to the backend they are `Other` steps. */
  lemma UngatedRequestsOnlyRead(b: Backend, s: BackendState, request: Request, snapshot: Option<Snapshot>)
    requires !Gated(b, request)
    ensures NoMutation(HandleRequest(b, s, request, snapshot).trace)
  {
    if request.name == MULTICALL {
      match CallsOf(request.params)
      case Err(_) =>
      case Ok(calls) =>
        match MulticallSnapshot(b, s, calls, snapshot)
        case Err(_) =>
        case Ok(view) => SubcallTraces(b, s, calls, view);
    }
  }

  // ---------- when nothing is dropped ----------

  datatype Handled = Handled(state: BackendState, replies: seq<Response>)

  /** The requests handled one at a time, in order. */
  function HandleAll(b: Backend, init: BackendState, todo: seq<Job>): Handled
    requires forall n | 0 <= n < |todo| :: todo[n].Todo?
  {
    if todo == [] then Handled(init, [])
    else HandleNext(b, HandleAll(b, init, todo[..|todo| - 1]), todo[|todo| - 1])
  }

  function HandleNext(b: Backend, h: Handled, job: Job): Handled
    requires job.Todo?
  {
    var o := HandleRequest(b, h.state, job.request, job.snapshot);
    Handled(o.state, h.replies + [o.reply])
  }

  /** Request `k` has done and replied what it would have alone. */
  ghost predicate DoneAlone(b: Backend, init: BackendState, w: World, k: nat) {
    k < |w.todo| == |w.done| == |w.jobs| && w.todo[k].Todo?
    && w.jobs[k] == Replied(Alone(b, init, w, k).reply)
    && SerialPast(b, init, w, k + 1).state == Alone(b, init, w, k).state
  }

  /** `h` has the replies of the first `n` requests, and the state they lead to. */
  ghost predicate Gives(b: Backend, init: BackendState, w: World, n: nat, h: Handled) {
    n <= |w.todo| == |w.done| == |w.jobs| && |h.replies| == n
    && h.state == SerialPast(b, init, w, n).state
    && forall k | 0 <= k < n :: w.jobs[k] == Replied(h.replies[k])
  }

  lemma DoneAloneIsHandled(b: Backend, init: BackendState, w: World, n: nat, h: Handled)
    requires DoneAlone(b, init, w, n) && Gives(b, init, w, n, h)
    ensures Gives(b, init, w, n + 1, HandleNext(b, h, w.todo[n]))
  {
  }

  /** Handling the requests one at a time gives every reply, and the state, that the run has given. */
  lemma {:induction false} AllAreHandled(b: Backend, init: BackendState, w: World, n: nat)
    requires n <= |w.todo| == |w.done| == |w.jobs|
    requires forall k | 0 <= k < |w.todo| :: w.todo[k].Todo?
    requires forall k | 0 <= k < n :: DoneAlone(b, init, w, k)
    ensures Gives(b, init, w, n, HandleAll(b, init, w.todo[..n]))
  {
    if n == 0 {
      assert w.todo[..0] == [];
    } else {
      AllAreHandled(b, init, w, n - 1);
      HandleAllNext(b, init, w.todo, n - 1);
      DoneAloneIsHandled(b, init, w, n - 1, HandleAll(b, init, w.todo[..n - 1]));
    }
  }

  lemma HandleAllNext(b: Backend, init: BackendState, todo: seq<Job>, n: nat)
    requires n < |todo| && forall k | 0 <= k < |todo| :: todo[k].Todo?
    ensures HandleAll(b, init, todo[..n + 1]) == HandleNext(b, HandleAll(b, init, todo[..n]), todo[n])
  {
    assert todo[..n + 1][..n] == todo[..n];
  }

  /**
    Once all turns have been handed on and nothing was dropped, the interleaving cannot be told
    from its serial form.
   */
  lemma ServedRunIsSequential(b: Backend, init: BackendState, run: seq<Action>, w: World)
    requires Undisturbed(b, Bodies.Begin(init), run) && Reaches(b, Bodies.Begin(init), run, w)
    requires w.dropped == {} && w.gate.served == |w.todo|
    ensures forall n | 0 <= n < |w.todo| :: w.todo[n].Todo?
    ensures var h := HandleAll(b, init, w.todo);
            w.state == h.state && |w.jobs| == |h.replies|
            && forall n | 0 <= n < |w.jobs| :: w.jobs[n] == Replied(h.replies[n])
  {
    MutationsAreSerial(b, init, run, w);
    assert forall n | 0 <= n < |w.todo| :: DoneAlone(b, init, w, n);
    AllAreHandled(b, init, w, |w.done|);
    assert w.todo[..|w.done|] == w.todo;
  }
}
