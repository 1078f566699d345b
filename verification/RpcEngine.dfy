/** Handling of one request, with the trace of what it did to the mutation gate and the backend. */
module RpcEngine {
  import opened Wrappers
  import opened JsonValue
  import opened JsonRpc

  type BackendState(!new)
  type Snapshot(!new)
  type Command(!new)

  /**
    The backend is an uninterpreted state machine.
    `parse` is the parameter parser of a method, `exec` one backend call together with the
    events it publishes and the conversion of its answer, `fixed` the answer of the methods
    that never reach the backend. An empty secret accepts every request.
   */
  datatype Backend = Backend(
    secret: string,
    parse: (string, Json) -> Result<Command, RpcError>,
    exec: (BackendState, Command, Option<Snapshot>) -> (BackendState, Result<Json, RpcError>),
    capture: BackendState -> Result<Option<Snapshot>, RpcError>,
    fixed: string -> Json)

  // ---------- classification ----------

  const MULTICALL := "system.multicall"

  const READ_ONLY: set<string> := {
    "aria2.tellStatus", "aria2.tellActive", "aria2.tellWaiting", "aria2.tellStopped",
    "aria2.getGlobalStat", "aria2.getUris", "aria2.getFiles", "aria2.getServers",
    "aria2.getGlobalOption", "aria2.getOption", "aria2.getPeers", "aria2.getPeerStats",
    "aria2.getPeerDetails", "aria2.getVersion", "aria2.getSessionInfo",
    "system.listMethods", "system.listNotifications" }

  const MUTATING: set<string> := {
    "aria2.addUri", "aria2.addTorrent", "aria2.addMetalink", "aria2.remove", "aria2.pause",
    "aria2.forcePause", "aria2.unpause", "aria2.purgeDownloadResult", "aria2.removeDownloadResult",
    "aria2.removeDownloadFiles", "aria2.changeGlobalOption", "aria2.changeOption", "aria2.pauseAll",
    "aria2.forcePauseAll", "aria2.unpauseAll", "aria2.changeUri", "aria2.saveSession",
    "aria2.changePosition", "aria2.forceRemove", "aria2.shutdown", "aria2.forceShutdown",
    "aria2.updateBrowserContext", "aria2.clearBrowserContext" }

  const SNAPSHOT_READS: set<string> :=
    { "aria2.tellActive", "aria2.tellWaiting", "aria2.tellStopped", "aria2.getGlobalStat" }

  /** Backend methods that are neither read-only nor mutating. */
  const UNCLASSIFIED: set<string> :=
    { "aria2.getTrackers", "aria2.getDhtStatus", "aria2.saveDhtState", "aria2.evictDhtNodes" }

  const FIXED: set<string> :=
    { "aria2.getVersion", "aria2.getSessionInfo", "system.listMethods", "system.listNotifications" }

  lemma ReadsDoNotMutate(name: string)
    requires name in READ_ONLY
    ensures name !in MUTATING && name != MULTICALL && name !in UNCLASSIFIED
  {
  }

  predicate ReachesBackend(name: string) {
    (name in READ_ONLY && name !in FIXED) || name in MUTATING || name in UNCLASSIFIED
  }

  predicate RequiresAuth(name: string) { name !in { "system.listMethods", "system.listNotifications" } }

  /** A call whose method name is missing or not a string counts as mutating. */
  predicate CallMayMutate(call: Json) {
    call.Obj? && "methodName" in call.fields && call.fields["methodName"].Str?
    ==> call.fields["methodName"].s in MUTATING
  }

  predicate AnyMayMutate(calls: seq<Json>) { exists i | 0 <= i < |calls| :: CallMayMutate(calls[i]) }

  predicate MulticallRequiresMutation(params: Json) {
    params.Arr? && 0 < |params.items| && params.items[0].Arr? ==> AnyMayMutate(params.items[0].items)
  }

  // ---------- authentication ----------

  function TokenOf(v: Json): Option<string> {
    if v.Str? && "token:" <= v.s then Some(v.s[|"token:"|..]) else None
  }

  function SplitAuthToken(params: Json): (Option<string>, Json) {
    match params
    case Arr(items) =>
      if 0 < |items| && TokenOf(items[0]).Some? then (TokenOf(items[0]), Arr(items[1..])) else (None, params)
    case Obj(fields) =>
      (if "token" in fields && fields["token"].Str? then Some(fields["token"].s) else None, params)
    case _ => (None, params)
  }

  function AuthError(b: Backend, token: Option<string>): Option<RpcError> {
    if b.secret == "" || token == Some(b.secret) then None
    else if token.Some? then Some(Unauthorized("Invalid token"))
    else Some(Unauthorized("Token required (set rpc-secret)"))
  }

  // ---------- one request ----------

  datatype Event = Acquire | Release | BackendCall(name: string)

  datatype Outcome<T> = Outcome(state: BackendState, reply: T, trace: seq<Event>)

  function ExecuteRequest(b: Backend, s: BackendState, req: Request, snapshot: Option<Snapshot>)
    : (o: Outcome<Result<Response, RpcError>>)
    ensures o.reply.Ok? ==> o.reply.value.result.Some? && o.reply.value.error.None?
    ensures o.reply.Ok? ==> o.reply.value.id == IdOrNull(req.id)
  {
    if ReachesBackend(req.name) then
      match b.parse(req.name, req.params)
      case Err(e) => Outcome(s, Err(e), [])
      case Ok(command) =>
        var (t, answer) := b.exec(s, command, snapshot);
        Outcome(t, if answer.Ok? then Ok(Success(IdOrNull(req.id), answer.value)) else Err(answer.error),
                [BackendCall(req.name)])
    else if req.name in FIXED then Outcome(s, Ok(Success(IdOrNull(req.id), b.fixed(req.name))), [])
    else if req.name == MULTICALL then Outcome(s, Err(RpcExecution("Recursive system.multicall forbidden.")), [])
    else Outcome(s, Err(RpcExecution("No such method: " + req.name)), [])
  }

  // ---------- system.multicall ----------

  function CallsOf(params: Json): Result<seq<Json>, RpcError> {
    var missing := Err(RpcExecution("The parameter at 0 is required but missing."));
    var wrong := Err(RpcExecution("The parameter at 0 has wrong type."));
    match params
    case Arr(items) =>
      if items == [] then missing else if items[0].Arr? then Ok(items[0].items) else wrong
    case Obj(fields) =>
      if "p0" !in fields then missing else if fields["p0"].Arr? then Ok(fields["p0"].items) else wrong
    case _ => missing
  }

  /** One sub-call seen as a request of its own. */
  function Subcall(b: Backend, s: BackendState, call: Json, snapshot: Option<Snapshot>)
    : Outcome<Result<Json, RpcError>>
  {
    if !call.Obj? then Outcome(s, Err(RpcExecution("system.multicall expected struct.")), [])
    else if !("methodName" in call.fields && call.fields["methodName"].Str?) then
      Outcome(s, Err(RpcExecution("Missing methodName.")), [])
    else
      var name := call.fields["methodName"].s;
      if name == MULTICALL then Outcome(s, Err(RpcExecution("Recursive system.multicall forbidden.")), [])
      else
        var (token, params) := SplitAuthToken(
          if "params" in call.fields && call.fields["params"].Arr? then call.fields["params"] else Arr([]));
        var denied := AuthError(b, token);
        if RequiresAuth(name) && denied.Some? then Outcome(s, Err(denied.value), [])
        else
          var o := ExecuteRequest(b, s, Request(Some("2.0"), name, params, None), snapshot);
          Outcome(o.state, if o.reply.Ok? then Ok(o.reply.value.result.value) else Err(o.reply.error), o.trace)
  }

  /** The sub-calls one after the other, each on the state its predecessor left. */
  function Subcalls(b: Backend, s: BackendState, calls: seq<Json>, snapshot: Option<Snapshot>)
    : (o: Outcome<seq<Result<Json, RpcError>>>)
    ensures |o.reply| == |calls|
  {
    if calls == [] then Outcome(s, [], [])
    else
      var front := Subcalls(b, s, calls[..|calls| - 1], snapshot);
      var last := Subcall(b, front.state, calls[|calls| - 1], snapshot);
      Outcome(last.state, front.reply + [last.reply], front.trace + last.trace)
  }

  function Fault(code: i32, message: string): Json { Obj(map["code" := Num(code), "message" := Str(message)]) }

  /** A success is wrapped in a one-element array, a failure becomes a code and a message. */
  function Render(r: Result<Json, RpcError>): Json {
    match r
    case Ok(v) => Arr([v])
    case Err(e) => Fault(e.Code(), e.Message())
  }

  function RenderAll(rs: seq<Result<Json, RpcError>>): (r: seq<Json>)
    ensures |r| == |rs| && forall i | 0 <= i < |rs| :: r[i] == Render(rs[i])
  {
    seq(|rs|, i requires 0 <= i < |rs| => Render(rs[i]))
  }

  /** A multicall without mutating calls answers from one snapshot. */
  function MulticallSnapshot(b: Backend, s: BackendState, calls: seq<Json>, snapshot: Option<Snapshot>)
    : Result<Option<Snapshot>, RpcError>
  {
    if snapshot.None? && calls != [] && !AnyMayMutate(calls) then b.capture(s) else Ok(snapshot)
  }

  function Multicall(b: Backend, s: BackendState, req: Request, snapshot: Option<Snapshot>)
    : Outcome<Result<Response, RpcError>>
  {
    match CallsOf(req.params)
    case Err(e) => Outcome(s, Err(e), [])
    case Ok(calls) =>
      match MulticallSnapshot(b, s, calls, snapshot)
      case Err(e) => Outcome(s, Err(e), [])
      case Ok(view) =>
        var o := Subcalls(b, s, calls, view);
        Outcome(o.state, Ok(Success(IdOrNull(req.id), Arr(RenderAll(o.reply)))), o.trace)
  }

  /** What the loop of `handle_multicall` pushes for one call, branch by branch. */
  method AnswerCall(b: Backend, s: BackendState, call: Json, view: Option<Snapshot>)
    returns (t: BackendState, pushed: seq<Json>, trace: seq<Event>)
    ensures
      var own := Subcall(b, s, call, view);
      t == own.state && pushed == [Render(own.reply)] && trace == own.trace
  {
    t, pushed, trace := s, [], [];
    if !call.Obj? {
      pushed := [Fault(1, "system.multicall expected struct.")];
      return;
    }
    if !("methodName" in call.fields && call.fields["methodName"].Str?) {
      pushed := [Fault(1, "Missing methodName.")];
      return;
    }
    var name := call.fields["methodName"].s;
    if name == MULTICALL {
      pushed := [Fault(1, "Recursive system.multicall forbidden.")];
      return;
    }
    var params := if "params" in call.fields && call.fields["params"].Arr? then call.fields["params"] else Arr([]);
    var (token, rest) := SplitAuthToken(params);
    var denied := AuthError(b, token);
    if RequiresAuth(name) && denied.Some? {
      pushed := [Fault(denied.value.Code(), denied.value.Message())];
      return;
    }
    var o := ExecuteRequest(b, s, Request(Some("2.0"), name, rest, None), view);
    t, trace := o.state, o.trace;
    match o.reply {
      case Ok(response) =>
        match (response.result, response.error) {
          case (Some(result), _) => pushed := [Arr([result])];
          case (None, Some(e)) => pushed := [Fault(e.code, e.message)];
          case (None, None) =>
        }
      case Err(e) => pushed := [Fault(e.Code(), e.Message())];
    }
  }

  lemma RenderOneMore(rs: seq<Result<Json, RpcError>>, r: Result<Json, RpcError>)
    ensures RenderAll(rs + [r]) == RenderAll(rs) + [Render(r)]
  {
  }

  // ---------- dispatch of one request ----------

  function UnderTurn<T>(o: Outcome<T>): Outcome<T> { o.(trace := [Acquire] + o.trace + [Release]) }

  function Answer(o: Outcome<Result<Response, RpcError>>, id: Option<Json>): Outcome<Response> {
    Outcome(o.state, if o.reply.Ok? then o.reply.value else IntoResponse(o.reply.error, id), o.trace)
  }

  function HandleRequest(b: Backend, s: BackendState, req: Request, snapshot: Option<Snapshot>): Outcome<Response> {
    if req.name == MULTICALL then
      var o := Multicall(b, s, req, snapshot);
      Answer(if MulticallRequiresMutation(req.params) then UnderTurn(o) else o, req.id)
    else
      var (token, params) := SplitAuthToken(req.params);
      var denied := AuthError(b, token);
      if RequiresAuth(req.name) && denied.Some? then Outcome(s, IntoResponse(denied.value, req.id), [])
      else
        var o := ExecuteRequest(b, s, req.(params := params), snapshot);
        Answer(if req.name in MUTATING then UnderTurn(o) else o, req.id)
  }

  function DispatchEntry(b: Backend, s: BackendState, e: WireEntry, snapshot: Option<Snapshot>): Outcome<Response> {
    match e
    case Call(request) => HandleRequest(b, s, request, snapshot)
    case Failed(response) => Outcome(s, response, [])
  }

  // ---------- mutating calls hold the turn ----------

  /** Replays a trace: None when it breaks the discipline, otherwise whether the turn is held. */
  function Scan(trace: seq<Event>, held: bool): Option<bool> {
    if trace == [] then Some(held)
    else match trace[0]
    case Acquire => if held then None else Scan(trace[1..], true)
    case Release => if held then Scan(trace[1..], false) else None
    case BackendCall(name) => if name in MUTATING && !held then None else Scan(trace[1..], held)
  }

  /**
    Every mutating backend call happens between taking the turn and giving it back, the turn
    is never taken while it is held, and it is given back in the end.
   */
  predicate Disciplined(trace: seq<Event>) { Scan(trace, false) == Some(false) }

  predicate OnlyCalls(trace: seq<Event>) { forall i | 0 <= i < |trace| :: trace[i].BackendCall? }

  predicate NoMutation(trace: seq<Event>) {
    forall i | 0 <= i < |trace| :: trace[i].BackendCall? && trace[i].name !in MUTATING
  }

  lemma {:induction false} ScanAppend(a: seq<Event>, b: seq<Event>, held: bool)
    ensures Scan(a + b, held) == match Scan(a, held) case None => None case Some(h) => Scan(b, h)
  {
    if a == [] {
      assert a + b == b;
    } else {
      assert (a + b)[1..] == a[1..] + b;
      var next := if a[0].Acquire? then true else if a[0].Release? then false else held;
      ScanAppend(a[1..], b, next);
    }
  }

  lemma {:induction false} ScanCalls(trace: seq<Event>, held: bool)
    requires OnlyCalls(trace) && (held || NoMutation(trace))
    ensures Scan(trace, held) == Some(held)
  {
    if trace == [] {
    } else {
      ScanCalls(trace[1..], held);
    }
  }

  lemma SubcallTrace(b: Backend, s: BackendState, call: Json, snapshot: Option<Snapshot>)
    ensures OnlyCalls(Subcall(b, s, call, snapshot).trace)
    ensures !CallMayMutate(call) ==> NoMutation(Subcall(b, s, call, snapshot).trace)
  {
  }

  lemma AnyOfFront(calls: seq<Json>)
    requires calls != [] && !AnyMayMutate(calls)
    ensures !AnyMayMutate(calls[..|calls| - 1]) && !CallMayMutate(calls[|calls| - 1])
  {
    var front := calls[..|calls| - 1];
    assert forall i | 0 <= i < |front| :: front[i] == calls[i];
  }

  lemma {:induction false} SubcallTraces(b: Backend, s: BackendState, calls: seq<Json>, snapshot: Option<Snapshot>)
    ensures OnlyCalls(Subcalls(b, s, calls, snapshot).trace)
    ensures !AnyMayMutate(calls) ==> NoMutation(Subcalls(b, s, calls, snapshot).trace)
  {
    if calls == [] {
    } else {
      var front := calls[..|calls| - 1];
      SubcallTraces(b, s, front, snapshot);
      SubcallTrace(b, Subcalls(b, s, front, snapshot).state, calls[|calls| - 1], snapshot);
      if !AnyMayMutate(calls) { AnyOfFront(calls); }
    }
  }

  lemma TurnKeepsDiscipline(trace: seq<Event>)
    requires OnlyCalls(trace)
    ensures Disciplined([Acquire] + trace + [Release])
  {
    ScanCalls(trace, true);
    ScanAppend(trace, [Release], true);
    var whole := [Acquire] + trace + [Release];
    assert whole[1..] == trace + [Release];
    assert [Release][1..] == [];
  }

  /**
    For every request, every backend state and every snapshot: mutating methods reach the
    backend only while the turn is held, alone or inside a multicall, and no request ever
    asks for the turn it already holds.
   */
  lemma MutationsHoldTheTurn(b: Backend, s: BackendState, req: Request, snapshot: Option<Snapshot>)
    ensures Disciplined(HandleRequest(b, s, req, snapshot).trace)
  {
    if req.name == MULTICALL {
      var o := Multicall(b, s, req, snapshot);
      match CallsOf(req.params)
      case Err(_) => TurnKeepsDiscipline([]); assert [Acquire] + [] + [Release] == [Acquire] + [Release];
      case Ok(calls) =>
        match MulticallSnapshot(b, s, calls, snapshot)
        case Err(_) => TurnKeepsDiscipline([]);
        case Ok(view) => SubcallTraces(b, s, calls, view);
        if MulticallRequiresMutation(req.params) {
          TurnKeepsDiscipline(o.trace);
        } else {
          ScanCalls(o.trace, false);
        }
    } else {
      var params := SplitAuthToken(req.params).1;
      var o := ExecuteRequest(b, s, req.(params := params), snapshot);
      if req.name in MUTATING { TurnKeepsDiscipline(o.trace); } else { ScanCalls(o.trace, false); }
    }
  }

  // ---------- multicall answers ----------

  /**
    A multicall that reaches its calls answers with exactly one result per call, in call
    order: a one-element array exactly when that call, run on the state its predecessors
    left, succeeded, and its code and message otherwise.
   */
  lemma {:induction false} MulticallAnswersEachCall(b: Backend, s: BackendState, calls: seq<Json>,
                                                    view: Option<Snapshot>, i: nat)
    requires i < |calls|
    ensures
      var results := RenderAll(Subcalls(b, s, calls, view).reply);
      var own := Subcall(b, Subcalls(b, s, calls[..i], view).state, calls[i], view).reply;
      && |results| == |calls|
      && (results[i].Arr? <==> own.Ok?)
      && (own.Ok? ==> results[i] == Arr([own.value]))
      && (own.Err? ==> results[i] == Fault(own.error.Code(), own.error.Message()))
  {
    if i < |calls| - 1 {
      MulticallAnswersEachCall(b, s, calls[..|calls| - 1], view, i);
      assert calls[..|calls| - 1][..i] == calls[..i];
    }
  }

  /**
    A sub-call is handled as the request it spells would be on its own: same backend state
    afterwards, same result, same error code and message.
   */
  lemma SubcallMatchesRequest(b: Backend, s: BackendState, fields: map<string, Json>, params: seq<Json>,
                              view: Option<Snapshot>, version: Option<string>, id: Option<Json>)
    requires "methodName" in fields && fields["methodName"].Str? && fields["methodName"].s != MULTICALL
    requires "params" in fields && fields["params"] == Arr(params)
    ensures
      var own := Subcall(b, s, Obj(fields), view);
      var alone := HandleRequest(b, s, Request(version, fields["methodName"].s, Arr(params), id), view);
      && alone.state == own.state
      && alone.reply == match own.reply
                        case Ok(v) => Success(IdOrNull(id), v)
                        case Err(e) => IntoResponse(e, id)
  {
  }

  /** Every response, of whatever request, carries the request's id and exactly one outcome. */
  lemma AnswersUnderOwnId(b: Backend, s: BackendState, req: Request, snapshot: Option<Snapshot>)
    ensures
      var response := HandleRequest(b, s, req, snapshot).reply;
      response.id == IdOrNull(req.id) && OneOutcome(response)
  {
    if req.name == MULTICALL {
      match CallsOf(req.params)
      case Err(_) =>
      case Ok(calls) =>
        match MulticallSnapshot(b, s, calls, snapshot)
        case Err(_) =>
        case Ok(_) =>
    }
  }

  // ---------- the secret guards the backend ----------

  /** The secret stands behind `token:` as the first of positional parameters, or is the parameter named `token`. */
  predicate Authorised(b: Backend, params: Json) {
    b.secret == "" ||
    match params
    case Arr(items) => items != [] && items[0] == Str("token:" + b.secret)
    case Obj(fields) => "token" in fields && fields["token"] == Str(b.secret)
    case _ => false
  }

  lemma TokenExactly(v: Json, secret: string)
    ensures TokenOf(v) == Some(secret) <==> v == Str("token:" + secret)
  {
    assert ("token:" + secret)[|"token:"|..] == secret;
    if TokenOf(v) == Some(secret) { assert v.s == "token:" + v.s[|"token:"|..]; }
  }

  lemma AuthorisedExactly(b: Backend, params: Json)
    ensures Authorised(b, params) <==> AuthError(b, SplitAuthToken(params).0).None?
  {
    if params.Arr? && params.items != [] { TokenExactly(params.items[0], b.secret); }
  }

  /** The parameters of a sub-call, as far as they are an array. */
  function ParamsOf(call: Json): Json {
    if call.Obj? && "params" in call.fields && call.fields["params"].Arr? then call.fields["params"] else Arr([])
  }

  /** Without the secret a request does nothing, not even wait for its turn. */
  lemma UnauthorisedDoesNothing(b: Backend, s: BackendState, req: Request, snapshot: Option<Snapshot>)
    requires req.name != MULTICALL && !Authorised(b, req.params)
    ensures
      var o := HandleRequest(b, s, req, snapshot);
      && o.state == s && o.trace == []
      && (RequiresAuth(req.name) ==> o.reply == Response(IdOrNull(req.id), None, Some(ErrorBody(1, "Unauthorized"))))
  {
    AuthorisedExactly(b, req.params);
  }

  lemma UnauthorisedSubcall(b: Backend, s: BackendState, call: Json, view: Option<Snapshot>)
    requires !Authorised(b, ParamsOf(call))
    ensures Subcall(b, s, call, view).state == s && Subcall(b, s, call, view).trace == []
  {
    if call.Obj? && "methodName" in call.fields && call.fields["methodName"].Str? {
      var name := call.fields["methodName"].s;
    }
  }

  function AuthorisedOnly(b: Backend, calls: seq<Json>): seq<Json> {
    if calls == [] then []
    else AuthorisedOnly(b, calls[..|calls| - 1]) +
         if Authorised(b, ParamsOf(calls[|calls| - 1])) then [calls[|calls| - 1]] else []
  }

  lemma SubcallsSnoc(b: Backend, s: BackendState, calls: seq<Json>, call: Json, view: Option<Snapshot>)
    ensures
      var front := Subcalls(b, s, calls, view);
      var last := Subcall(b, front.state, call, view);
      Subcalls(b, s, calls + [call], view) == Outcome(last.state, front.reply + [last.reply], front.trace + last.trace)
  {
    assert (calls + [call])[..|calls|] == calls;
  }

  /** Sub-calls without the secret make no difference to the backend: it sees only the others. */
  lemma {:induction false} SubcallsAreGuarded(b: Backend, s: BackendState, calls: seq<Json>, view: Option<Snapshot>)
    ensures
      var all, some := Subcalls(b, s, calls, view), Subcalls(b, s, AuthorisedOnly(b, calls), view);
      all.state == some.state && all.trace == some.trace
  {
    if calls == [] {
    } else {
      var front, last := calls[..|calls| - 1], calls[|calls| - 1];
      SubcallsAreGuarded(b, s, front, view);
      if Authorised(b, ParamsOf(last)) {
        SubcallsSnoc(b, s, AuthorisedOnly(b, front), last, view);
      } else {
        UnauthorisedSubcall(b, Subcalls(b, s, front, view).state, last, view);
        assert AuthorisedOnly(b, calls) == AuthorisedOnly(b, front);
      }
    }
  }
}
