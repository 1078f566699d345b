/** What requests mean to those who send them, told by their shapes alone. */
module RequestMeaning {
  import opened JsonRpc
  import opened JsonValue
  import opened OtherClients
  import opened RpcEngine
  import opened Wrappers

  // ---------- the methods ----------

  /** The methods an engine with all its features lists. */
  const LISTED: set<string> := {
    "aria2.addUri", "aria2.addTorrent", "aria2.getPeers", "aria2.getPeerStats", "aria2.getPeerDetails",
    "aria2.getTrackers", "aria2.getDhtStatus", "aria2.saveDhtState", "aria2.evictDhtNodes", "aria2.addMetalink",
    "aria2.remove", "aria2.pause", "aria2.forcePause", "aria2.pauseAll", "aria2.forcePauseAll", "aria2.unpause",
    "aria2.unpauseAll", "aria2.forceRemove", "aria2.changePosition", "aria2.tellStatus", "aria2.getUris",
    "aria2.getFiles", "aria2.getServers", "aria2.tellActive", "aria2.tellWaiting", "aria2.tellStopped",
    "aria2.getOption", "aria2.changeUri", "aria2.changeOption", "aria2.getGlobalOption", "aria2.changeGlobalOption",
    "aria2.purgeDownloadResult", "aria2.removeDownloadResult", "aria2.removeDownloadFiles", "aria2.getVersion",
    "aria2.getSessionInfo", "aria2.shutdown", "aria2.forceShutdown", "aria2.getGlobalStat", "aria2.saveSession",
    "aria2.updateBrowserContext", "aria2.clearBrowserContext", "system.multicall", "system.listMethods",
    "system.listNotifications" }

  /** Exactly the listed methods are handled, each in one way. */
  lemma ListedMethodsAreHandled(name: string)
    ensures name in LISTED <==> ReachesBackend(name) || name in FIXED || name == MULTICALL
    ensures name in UNCLASSIFIED ==> name !in READ_ONLY && name !in MUTATING
    ensures name in SNAPSHOT_READS ==> name in READ_ONLY && name !in FIXED
  {
  }

  // ---------- the token ----------

  predicate BeginsWithToken(items: seq<Json>) { items != [] && items[0].Str? && "token:" <= items[0].s }

  function WithToken(b: Backend, items: seq<Json>): Json { Arr([Str("token:" + b.secret)] + items) }

  lemma TokenIsSplit(b: Backend, items: seq<Json>)
    requires !BeginsWithToken(items)
    ensures SplitAuthToken(WithToken(b, items)) == (Some(b.secret), Arr(items))
    ensures SplitAuthToken(Arr(items)) == (None, Arr(items))
  {
    var first := Str("token:" + b.secret);
    TokenExactly(first, b.secret);
    assert ([first] + items)[1..] == items;
  }

  lemma SecretMattersNoMore(b: Backend, s: BackendState, req: Request, snapshot: Option<Snapshot>)
    ensures ExecuteRequest(b, s, req, snapshot) == ExecuteRequest(b.(secret := ""), s, req, snapshot)
  {
  }

  /** With the secret in front of its parameters a request is what it would be if there were no secret. */
  lemma TokenOpens(b: Backend, s: BackendState, version: Option<string>, name: string, items: seq<Json>,
                   id: Option<Json>, snapshot: Option<Snapshot>)
    requires !BeginsWithToken(items) && name != MULTICALL
    ensures HandleRequest(b, s, Request(version, name, WithToken(b, items), id), snapshot)
            == HandleRequest(b.(secret := ""), s, Request(version, name, Arr(items), id), snapshot)
  {
    TokenIsSplit(b, items);
    SecretMattersNoMore(b, s, Request(version, name, Arr(items), id), snapshot);
  }

  /** So is a sub-call. */
  lemma TokenOpensSubcall(b: Backend, s: BackendState, fields: map<string, Json>, items: seq<Json>,
                          view: Option<Snapshot>)
    requires !BeginsWithToken(items)
    ensures Subcall(b, s, Obj(fields["params" := WithToken(b, items)]), view)
            == Subcall(b.(secret := ""), s, Obj(fields["params" := Arr(items)]), view)
  {
    TokenIsSplit(b, items);
    if "methodName" in fields && fields["methodName"].Str? {
      var name := fields["methodName"].s;
      SecretMattersNoMore(b, s, Request(Some("2.0"), name, Arr(items), None), view);
    }
  }

  /** A token of named parameters is checked but stays where it is. */
  lemma NamedTokenOpens(b: Backend, s: BackendState, version: Option<string>, name: string, fields: map<string, Json>,
                        id: Option<Json>, snapshot: Option<Snapshot>)
    requires name != MULTICALL
    ensures var named := fields["token" := Str(b.secret)];
            HandleRequest(b, s, Request(version, name, Obj(named), id), snapshot)
            == HandleRequest(b.(secret := ""), s, Request(version, name, Obj(named), id), snapshot)
  {
    SecretMattersNoMore(b, s, Request(version, name, Obj(fields["token" := Str(b.secret)]), id), snapshot);
  }

  /** Without the secret only the two lists are answered; everything else is told no more than that it is refused. */
  lemma OnlyListsAreOpen(b: Backend, s: BackendState, version: Option<string>, name: string, items: seq<Json>,
                         id: Option<Json>, snapshot: Option<Snapshot>)
    requires b.secret != "" && (items != [] ==> items[0] != Str("token:" + b.secret)) && name != MULTICALL
    ensures
      var o := HandleRequest(b, s, Request(version, name, Arr(items), id), snapshot);
      var own := if id.Some? then id.value else Null;
      && o.state == s && o.trace == []
      && o.reply == if name == "system.listMethods" || name == "system.listNotifications"
                    then Response(own, Some(b.fixed(name)), None)
                    else Response(own, None, Some(ErrorBody(1, "Unauthorized")))
  {
    UnauthorisedDoesNothing(b, s, Request(version, name, Arr(items), id), snapshot);
  }

  // ---------- what a request does ----------

  lemma OpenRequest(b: Backend, s: BackendState, req: Request, snapshot: Option<Snapshot>)
    requires b.secret == "" && req.params.Arr? && !BeginsWithToken(req.params.items) && req.name != MULTICALL
    ensures var o := ExecuteRequest(b, s, req, snapshot);
            HandleRequest(b, s, req, snapshot) == Answer(if req.name in MUTATING then UnderTurn(o) else o, req.id)
  {
    TokenIsSplit(b, req.params.items);
  }

  lemma CallIsTraced<T>(o: Outcome<T>, name: string)
    requires o.trace == [BackendCall(name)]
    ensures BackendCall(name) in UnderTurn(o).trace
  {
    assert UnderTurn(o).trace[1] == BackendCall(name);
  }

  /** Parsed under its name, executed once against its view, answered with the result or the error. */
  lemma RequestIsExecuted(b: Backend, s: BackendState, version: Option<string>, name: string, items: seq<Json>,
                          id: Option<Json>, snapshot: Option<Snapshot>)
    requires b.secret == "" && !BeginsWithToken(items) && ReachesBackend(name)
    ensures
      var o := HandleRequest(b, s, Request(version, name, Arr(items), id), snapshot);
      var own := if id.Some? then id.value else Null;
      match b.parse(name, Arr(items))
      case Err(e) => o.state == s && o.reply == Response(own, None, Some(ErrorBody(e.Code(), e.Message())))
      case Ok(command) =>
        var (t, answer) := b.exec(s, command, snapshot);
        o.state == t
        && (answer.Ok? ==> o.reply == Response(own, Some(answer.value), None))
        && (answer.Err? ==>
              o.reply == Response(own, None, Some(ErrorBody(answer.error.Code(), answer.error.Message()))))
        && BackendCall(name) in o.trace
  {
    ListedMethodsAreHandled(name);
    var req := Request(version, name, Arr(items), id);
    OpenRequest(b, s, req, snapshot);
    var o := ExecuteRequest(b, s, req, snapshot);
    if o.trace == [BackendCall(name)] { CallIsTraced(o, name); }
  }

  /** The two lists, the version and the session are answered without the backend. */
  lemma FixedIsAnswered(b: Backend, s: BackendState, version: Option<string>, name: string, items: seq<Json>,
                        id: Option<Json>, snapshot: Option<Snapshot>)
    requires b.secret == "" && !BeginsWithToken(items)
    requires name == "aria2.getVersion" || name == "aria2.getSessionInfo"
             || name == "system.listMethods" || name == "system.listNotifications"
    ensures HandleRequest(b, s, Request(version, name, Arr(items), id), snapshot)
            == Outcome(s, Response(if id.Some? then id.value else Null, Some(b.fixed(name)), None), [])
  {
    FixedMethods(name);
    OpenRequest(b, s, Request(version, name, Arr(items), id), snapshot);
  }

  lemma FixedMethods(name: string)
    requires name == "aria2.getVersion" || name == "aria2.getSessionInfo"
             || name == "system.listMethods" || name == "system.listNotifications"
    ensures name in FIXED && name != MULTICALL && name !in MUTATING && !ReachesBackend(name)
  {
  }

  /** A method that is not listed is refused, whoever asks for it with the right token. */
  lemma UnknownMethodIsRefused(b: Backend, s: BackendState, version: Option<string>, name: string, items: seq<Json>,
                               id: Option<Json>, snapshot: Option<Snapshot>)
    requires b.secret == "" && name !in LISTED
    ensures HandleRequest(b, s, Request(version, name, Arr(items), id), snapshot)
            == Outcome(s, Response(if id.Some? then id.value else Null, None,
                                   Some(ErrorBody(1, "No such method: " + name))), [])
  {
    ListedMethodsAreHandled(name);
  }

  // ---------- multicalls ----------

  /** A sub-call of this method. */
  predicate Names(call: Json, name: string) {
    call.Obj? && "methodName" in call.fields && call.fields["methodName"] == Str(name)
  }

  predicate NamesOther(call: Json) {
    call.Obj? && "methodName" in call.fields && call.fields["methodName"].Str?
    && call.fields["methodName"].s !in MUTATING
  }

  /** Each result is that of its call on some state, seen through the one view. */
  ghost predicate AnswersCalls(b: Backend, results: seq<Json>, calls: seq<Json>, view: Option<Snapshot>) {
    |results| == |calls| && forall i | 0 <= i < |calls| :: AnswersCall(b, results[i], calls[i], view)
  }

  /** A success in a one-element array, a failure as its code and message. */
  ghost predicate AnswersCall(b: Backend, result: Json, call: Json, view: Option<Snapshot>) {
    exists u ::
      match Subcall(b, u, call, view).reply
      case Ok(v) => result == Arr([v])
      case Err(e) => result == Obj(map["code" := Num(e.Code()), "message" := Str(e.Message())])
  }

  lemma CallsAreAnswered(b: Backend, others: Others, now: nat, s: BackendState, calls: seq<Json>,
                         view: Option<Snapshot>)
    ensures AnswersCalls(b, RenderAll(SubcallsAmong(b, others, now, s, calls, view).reply), calls, view)
  {
    var results := RenderAll(SubcallsAmong(b, others, now, s, calls, view).reply);
    forall i | 0 <= i < |calls| ensures AnswersCall(b, results[i], calls[i], view) {
      EachCallIsAnswered(b, others, now, s, calls, view, i);
      var u := MetBy(b, others, now, s, calls, view, i);
      assert Subcall(b, u, calls[i], view).reply.Ok? || Subcall(b, u, calls[i], view).reply.Err?;
    }
  }

  lemma AllCallsFromView(b: Backend, others: Others, now: nat, s: BackendState, req: Request, calls: seq<Json>,
                         view: Option<Snapshot>)
    requires req.name == MULTICALL && CallsOf(req.params) == Ok(calls) && calls != []
    requires !AnyMayMutate(calls) && !MulticallRequiresMutation(req.params) && b.capture(others(now, s)) == Ok(view)
    ensures var o := SubcallsAmong(b, others, now + 1, others(now, s), calls, view);
            HandleAmong(b, others, now, s, req, None)
            == Outcome(o.state, Response(IdOrNull(req.id), Some(Arr(RenderAll(o.reply))), None), o.trace)
  {
  }

  /**
    A multicall of methods that do not mutate takes no turn. It captures one snapshot, on the
    state it meets, and answers every call from it, or fails as a whole if that fails.
   */
  lemma MulticallOfReads(b: Backend, others: Others, now: nat, s: BackendState, version: Option<string>,
                         calls: seq<Json>, more: seq<Json>, id: Option<Json>)
    requires calls != [] && forall i | 0 <= i < |calls| :: NamesOther(calls[i])
    ensures
      var o := HandleAmong(b, others, now, s, Request(version, "system.multicall", Arr([Arr(calls)] + more), id), None);
      var own := if id.Some? then id.value else Null;
      && NoMutation(o.trace)
      && match b.capture(others(now, s))
         case Err(e) => o.reply == Response(own, None, Some(ErrorBody(e.Code(), e.Message())))
         case Ok(view) =>
           o.reply.id == own && o.reply.error.None? && o.reply.result.Some? && o.reply.result.value.Arr?
           && AnswersCalls(b, o.reply.result.value.items, calls, view)
  {
    var req := Request(version, "system.multicall", Arr([Arr(calls)] + more), id);
    assert !AnyMayMutate(calls) && CallsOf(req.params) == Ok(calls);
    var met := others(now, s);
    if b.capture(met).Ok? {
      var view := b.capture(met).value;
      CallsAreAnswered(b, others, now + 1, met, calls, view);
      TracesAmong(b, others, now + 1, met, calls, |calls|, view);
      AllCallsFromView(b, others, now, s, req, calls, view);
    }
  }

  /** A multicall with a call that mutates, or that names no method, holds the turn and answers live. */
  lemma MulticallWithMutation(b: Backend, others: Others, now: nat, s: BackendState, version: Option<string>,
                              calls: seq<Json>, more: seq<Json>, id: Option<Json>, i: nat)
    requires i < |calls| && !NamesOther(calls[i])
    ensures
      var o := HandleAmong(b, others, now, s, Request(version, "system.multicall", Arr([Arr(calls)] + more), id), None);
      && o.trace != [] && o.trace[0] == Acquire && o.trace[|o.trace| - 1] == Release
      && o.reply.id == (if id.Some? then id.value else Null) && o.reply.error.None?
      && o.reply.result.Some? && o.reply.result.value.Arr?
      && AnswersCalls(b, o.reply.result.value.items, calls, None)
  {
    assert CallMayMutate(calls[i]);
    CallsAreAnswered(b, others, now + 1, others(now, s), calls, None);
  }

  /** Without a list of calls a multicall is refused. */
  lemma MulticallWithoutCalls(b: Backend, others: Others, now: nat, s: BackendState, version: Option<string>,
                              params: Json, id: Option<Json>)
    requires params.Arr? ==> params.items == [] || !params.items[0].Arr?
    requires params.Obj? ==> "p0" !in params.fields || !params.fields["p0"].Arr?
    ensures
      var o := HandleAmong(b, others, now, s, Request(version, "system.multicall", params, id), None);
      var present := (params.Arr? && params.items != []) || (params.Obj? && "p0" in params.fields);
      && o.state == s
      && o.reply == Response(if id.Some? then id.value else Null, None,
                             Some(ErrorBody(1, if present then "The parameter at 0 has wrong type."
                                               else "The parameter at 0 is required but missing.")))
  {
  }

  /** The calls of a multicall with named parameters are those of `p0`; it takes the turn whatever they are. */
  lemma MulticallByName(b: Backend, others: Others, now: nat, s: BackendState, version: Option<string>,
                        fields: map<string, Json>, calls: seq<Json>, id: Option<Json>)
    ensures
      var named := Obj(fields["p0" := Arr(calls)]);
      HandleAmong(b, others, now, s, Request(version, "system.multicall", named, id), None).reply
      == HandleAmong(b, others, now, s, Request(version, "system.multicall", Arr([Arr(calls)]), id), None).reply
      && HandleAmong(b, others, now, s, Request(version, "system.multicall", named, id), None).trace != []
      && HandleAmong(b, others, now, s, Request(version, "system.multicall", named, id), None).trace[0] == Acquire
  {
  }

  /** What is no call, names no method, or is a multicall again, is refused where it stands. */
  lemma RefusedCalls(b: Backend, s: BackendState, call: Json, view: Option<Snapshot>)
    ensures !call.Obj? ==>
              Subcall(b, s, call, view).reply == Err(RpcExecution("system.multicall expected struct."))
    ensures call.Obj? && !("methodName" in call.fields && call.fields["methodName"].Str?) ==>
              Subcall(b, s, call, view).reply == Err(RpcExecution("Missing methodName."))
    ensures Names(call, "system.multicall") ==>
              Subcall(b, s, call, view).reply == Err(RpcExecution("Recursive system.multicall forbidden."))
  {
  }

  /** A sub-call without a list of parameters has none. */
  lemma MissingParametersAreNone(b: Backend, s: BackendState, fields: map<string, Json>, view: Option<Snapshot>)
    requires "params" in fields ==> !fields["params"].Arr?
    ensures Subcall(b, s, Obj(fields), view) == Subcall(b, s, Obj(fields["params" := Arr([])]), view)
  {
  }
}
