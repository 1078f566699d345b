/** A request among other clients: between its backend calls anybody may change the backend. */
module OtherClients {
  import opened JsonRpc
  import opened JsonValue
  import opened RpcEngine
  import opened Wrappers

  /** What other clients do to the backend before the n-th step of this one. */
  type Others = (nat, BackendState) -> BackendState

  /** Nobody else changes the backend. */
  ghost predicate Still(others: Others) { forall n, s :: others(n, s) == s }

  type CallOutcome = Outcome<Result<Json, RpcError>>

  /** How the i-th sub-call is answered in a state. */
  type Step = (nat, BackendState, Json) -> CallOutcome

  /** The first `n` calls one after the other. */
  function Chain(step: Step, s: BackendState, calls: seq<Json>, n: nat): (o: Outcome<seq<Result<Json, RpcError>>>)
    requires n <= |calls|
    ensures |o.reply| == n
  {
    if n == 0 then Outcome(s, [], [])
    else
      var front := Chain(step, s, calls, n - 1);
      var last := step(n - 1, front.state, calls[n - 1]);
      Outcome(last.state, front.reply + [last.reply], front.trace + last.trace)
  }

  /** Each sub-call on the state that others make of what its predecessor left. */
  function Among(b: Backend, others: Others, now: nat, view: Option<Snapshot>): Step {
    (i: nat, t: BackendState, call: Json) => Subcall(b, others(now + i, t), call, view)
  }

  function SubcallsAmong(b: Backend, others: Others, now: nat, s: BackendState, calls: seq<Json>,
                         view: Option<Snapshot>): Outcome<seq<Result<Json, RpcError>>>
  {
    Chain(Among(b, others, now, view), s, calls, |calls|)
  }

  function MulticallAmong(b: Backend, others: Others, now: nat, s: BackendState, req: Request,
                          snapshot: Option<Snapshot>): Outcome<Result<Response, RpcError>>
  {
    match CallsOf(req.params)
    case Err(e) => Outcome(s, Err(e), [])
    case Ok(calls) =>
      var met := others(now, s);
      match MulticallSnapshot(b, met, calls, snapshot)
      case Err(e) => Outcome(met, Err(e), [])
      case Ok(view) =>
        var o := SubcallsAmong(b, others, now + 1, met, calls, view);
        Outcome(o.state, Ok(Success(IdOrNull(req.id), Arr(RenderAll(o.reply)))), o.trace)
  }

  function HandleAmong(b: Backend, others: Others, now: nat, s: BackendState, req: Request,
                       snapshot: Option<Snapshot>): Outcome<Response>
  {
    if req.name == MULTICALL then
      var o := MulticallAmong(b, others, now, s, req, snapshot);
      Answer(if MulticallRequiresMutation(req.params) then UnderTurn(o) else o, req.id)
    else HandleRequest(b, others(now, s), req, snapshot)
  }

  function EntryAmong(b: Backend, others: Others, now: nat, s: BackendState, e: WireEntry,
                      snapshot: Option<Snapshot>): Outcome<Response>
  {
    match e
    case Call(request) => HandleAmong(b, others, now, s, request, snapshot)
    case Failed(response) => Outcome(s, response, [])
  }

  /** How many moments an entry gives others to act in. */
  function Moments(e: WireEntry): nat {
    if e.Call? && e.request.name == MULTICALL && CallsOf(e.request.params).Ok?
    then |CallsOf(e.request.params).value| + 1
    else 1
  }

  // ---------- the loop over the calls ----------

  /** The first `n` calls have been answered as the specification says. */
  ghost predicate Answered(step: Step, s: BackendState, calls: seq<Json>, n: nat, t: BackendState,
                           results: seq<Json>, trace: seq<Event>) {
    n <= |calls| &&
    var o := Chain(step, s, calls, n);
    t == o.state && results == RenderAll(o.reply) && trace == o.trace
  }

  /** One turn of the loop, whatever the call is answered. */
  lemma AnsweredNext(step: Step, s: BackendState, calls: seq<Json>, n: nat, t: BackendState, results: seq<Json>,
                     trace: seq<Event>, own: CallOutcome)
    requires n < |calls| && Answered(step, s, calls, n, t, results, trace) && own == step(n, t, calls[n])
    ensures Answered(step, s, calls, n + 1, own.state, results + [Render(own.reply)], trace + own.trace)
  {
    RenderOneMore(Chain(step, s, calls, n).reply, own.reply);
  }

  method AnswerNext(b: Backend, others: Others, now: nat, ghost s: BackendState, calls: seq<Json>, n: nat,
                    view: Option<Snapshot>, t: BackendState, results: seq<Json>, trace: seq<Event>)
    returns (t': BackendState, results': seq<Json>, trace': seq<Event>)
    requires n < |calls| && Answered(Among(b, others, now, view), s, calls, n, t, results, trace)
    ensures Answered(Among(b, others, now, view), s, calls, n + 1, t', results', trace')
  {
    ghost var own := Subcall(b, others(now + n, t), calls[n], view);
    AnsweredNext(Among(b, others, now, view), s, calls, n, t, results, trace, own);
    var u, pushed, called := AnswerCall(b, others(now + n, t), calls[n], view);
    t', results', trace' := u, results + pushed, trace + called;
  }

  method AnswerCalls(b: Backend, others: Others, now: nat, s: BackendState, calls: seq<Json>, view: Option<Snapshot>)
    returns (t: BackendState, results: seq<Json>, trace: seq<Event>)
    ensures Answered(Among(b, others, now, view), s, calls, |calls|, t, results, trace)
  {
    t, results, trace := s, [], [];
    for i := 0 to |calls|
      invariant Answered(Among(b, others, now, view), s, calls, i, t, results, trace)
    {
      t, results, trace := AnswerNext(b, others, now, s, calls, i, view, t, results, trace);
    }
  }

  method HandleMulticall(b: Backend, others: Others, now: nat, s: BackendState, req: Request,
                         snapshot: Option<Snapshot>)
    returns (o: Outcome<Result<Response, RpcError>>)
    ensures o == MulticallAmong(b, others, now, s, req, snapshot)
    ensures Still(others) ==> o == Multicall(b, s, req, snapshot)
  {
    if Still(others) { StillMulticall(b, others, now, s, req, snapshot); }
    var calls: seq<Json>;
    match CallsOf(req.params) {
      case Err(e) => return Outcome(s, Err(e), []);
      case Ok(list) => calls := list;
    }
    var met, view := others(now, s), snapshot;
    if snapshot.None? && calls != [] && !AnyMayMutate(calls) {
      match b.capture(met) {
        case Err(e) => return Outcome(met, Err(e), []);
        case Ok(captured) => view := captured;
      }
    }
    var t, results, trace := AnswerCalls(b, others, now + 1, met, calls, view);
    o := Outcome(t, Ok(Success(IdOrNull(req.id), Arr(results))), trace);
  }

  // ---------- when nobody else acts ----------

  lemma ChainNext(step: Step, s: BackendState, calls: seq<Json>, n: nat,
                  front: Outcome<seq<Result<Json, RpcError>>>, last: CallOutcome)
    requires n < |calls| && Chain(step, s, calls, n) == front && step(n, front.state, calls[n]) == last
    ensures Chain(step, s, calls, n + 1)
            == Outcome(last.state, front.reply + [last.reply], front.trace + last.trace)
  {
  }

  lemma SubcallsNext(b: Backend, s: BackendState, calls: seq<Json>, n: nat, view: Option<Snapshot>)
    requires n < |calls|
    ensures
      var front := Subcalls(b, s, calls[..n], view);
      var last := Subcall(b, front.state, calls[n], view);
      Subcalls(b, s, calls[..n + 1], view) == Outcome(last.state, front.reply + [last.reply], front.trace + last.trace)
  {
    SubcallsSnoc(b, s, calls[..n], calls[n], view);
    assert calls[..n + 1] == calls[..n] + [calls[n]];
  }

  lemma {:induction false} StillChain(b: Backend, others: Others, now: nat, s: BackendState, calls: seq<Json>,
                                      n: nat, view: Option<Snapshot>)
    requires Still(others) && n <= |calls|
    ensures Chain(Among(b, others, now, view), s, calls, n) == Subcalls(b, s, calls[..n], view)
  {
    if n == 0 {
    } else {
      var front := Subcalls(b, s, calls[..n - 1], view);
      StillChain(b, others, now, s, calls, n - 1, view);
      SubcallsNext(b, s, calls, n - 1, view);
      ChainNext(Among(b, others, now, view), s, calls, n - 1, front, Subcall(b, front.state, calls[n - 1], view));
    }
  }

  lemma StillSubcalls(b: Backend, others: Others, now: nat, s: BackendState, calls: seq<Json>, view: Option<Snapshot>)
    requires Still(others)
    ensures SubcallsAmong(b, others, now, s, calls, view) == Subcalls(b, s, calls, view)
  {
    StillChain(b, others, now, s, calls, |calls|, view);
    assert calls[..|calls|] == calls;
  }

  lemma StillMulticall(b: Backend, others: Others, now: nat, s: BackendState, req: Request, snapshot: Option<Snapshot>)
    requires Still(others)
    ensures MulticallAmong(b, others, now, s, req, snapshot) == Multicall(b, s, req, snapshot)
  {
    match CallsOf(req.params)
    case Err(_) =>
    case Ok(calls) =>
      match MulticallSnapshot(b, s, calls, snapshot)
      case Err(_) =>
      case Ok(view) => StillSubcalls(b, others, now + 1, s, calls, view);
  }

  /** If nobody else acts, an entry is handled as if it were alone. */
  lemma StillEntry(b: Backend, others: Others, now: nat, s: BackendState, e: WireEntry, snapshot: Option<Snapshot>)
    requires Still(others)
    ensures EntryAmong(b, others, now, s, e, snapshot) == DispatchEntry(b, s, e, snapshot)
  {
    if e.Call? && e.request.name == MULTICALL { StillMulticall(b, others, now, s, e.request, snapshot); }
  }

  // ---------- whatever others do ----------

  /** Every response carries the request's id and exactly one outcome. */
  lemma AnsweredAmongOthers(b: Backend, others: Others, now: nat, s: BackendState, req: Request,
                            snapshot: Option<Snapshot>)
    ensures
      var response := HandleAmong(b, others, now, s, req, snapshot).reply;
      response.id == IdOrNull(req.id) && OneOutcome(response)
  {
    if req.name == MULTICALL {
      match CallsOf(req.params)
      case Err(_) =>
      case Ok(calls) =>
        match MulticallSnapshot(b, others(now, s), calls, snapshot)
        case Err(_) =>
        case Ok(_) =>
    } else {
      AnswersUnderOwnId(b, others(now, s), req, snapshot);
    }
  }

  /** Later calls do not change the reply to an earlier one. */
  lemma {:induction false} ReplyAt(step: Step, s: BackendState, calls: seq<Json>, n: nat, i: nat)
    requires i < n <= |calls|
    ensures Chain(step, s, calls, n).reply[i] == step(i, Chain(step, s, calls, i).state, calls[i]).reply
  {
    if i < n - 1 { ReplyAt(step, s, calls, n - 1, i); }
  }

  /** The state that sub-call `i` meets. */
  function MetBy(b: Backend, others: Others, now: nat, s: BackendState, calls: seq<Json>, view: Option<Snapshot>,
                 i: nat): BackendState
    requires i < |calls|
  {
    others(now + i, Chain(Among(b, others, now, view), s, calls, i).state)
  }

  /**
    Each sub-call has exactly one result, in call order: a one-element array exactly when it
    succeeded on the state it met, and its code and message otherwise.
   */
  lemma EachCallIsAnswered(b: Backend, others: Others, now: nat, s: BackendState, calls: seq<Json>,
                           view: Option<Snapshot>, i: nat)
    requires i < |calls|
    ensures
      var results := RenderAll(SubcallsAmong(b, others, now, s, calls, view).reply);
      var own := Subcall(b, MetBy(b, others, now, s, calls, view, i), calls[i], view).reply;
      && |results| == |calls|
      && (results[i].Arr? <==> own.Ok?)
      && (own.Ok? ==> results[i] == Arr([own.value]))
      && (own.Err? ==> results[i] == Fault(own.error.Code(), own.error.Message()))
  {
    ReplyAt(Among(b, others, now, view), s, calls, |calls|, i);
  }

  lemma {:induction false} TracesAmong(b: Backend, others: Others, now: nat, s: BackendState, calls: seq<Json>,
                                       n: nat, view: Option<Snapshot>)
    requires n <= |calls|
    ensures OnlyCalls(Chain(Among(b, others, now, view), s, calls, n).trace)
    ensures !AnyMayMutate(calls) ==> NoMutation(Chain(Among(b, others, now, view), s, calls, n).trace)
  {
    if n == 0 {
    } else {
      var front := Chain(Among(b, others, now, view), s, calls, n - 1);
      TracesAmong(b, others, now, s, calls, n - 1, view);
      SubcallTrace(b, others(now + n - 1, front.state), calls[n - 1], view);
    }
  }

  /** Mutating methods reach the backend only while the turn is held, whatever others do meanwhile. */
  lemma MutationsHoldTheTurnAmong(b: Backend, others: Others, now: nat, s: BackendState, req: Request,
                                  snapshot: Option<Snapshot>)
    ensures Disciplined(HandleAmong(b, others, now, s, req, snapshot).trace)
  {
    if req.name == MULTICALL {
      var o := MulticallAmong(b, others, now, s, req, snapshot);
      assert OnlyCalls(o.trace) && (MulticallRequiresMutation(req.params) || NoMutation(o.trace)) by {
        match CallsOf(req.params)
        case Err(_) =>
        case Ok(calls) =>
          match MulticallSnapshot(b, others(now, s), calls, snapshot)
          case Err(_) =>
          case Ok(view) => TracesAmong(b, others, now + 1, others(now, s), calls, |calls|, view);
      }
      if MulticallRequiresMutation(req.params) { TurnKeepsDiscipline(o.trace); } else { ScanCalls(o.trace, false); }
    } else {
      MutationsHoldTheTurn(b, others(now, s), req, snapshot);
    }
  }
}
