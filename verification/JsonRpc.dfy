/** The JSON-RPC envelope: errors, requests, responses and the wire parser. */
module JsonRpc {
  import opened Wrappers
  import opened JsonValue

  datatype RpcError =
    | ParseError(text: string)
    | InvalidRequest(text: string)
    | MethodNotFound(text: string)
    | InvalidParams(text: string)
    | InternalError(text: string)
    | ServerError(serverCode: i32, text: string)
    | RpcExecution(text: string)
    | Unauthorized(text: string)
  {
    function Code(): i32 {
      match this
      case ParseError(_) => -32700
      case InvalidRequest(_) => -32600
      case MethodNotFound(_) => -32601
      case InvalidParams(_) => -32602
      case InternalError(_) => -32603
      case ServerError(c, _) => c
      case RpcExecution(_) => 1
      case Unauthorized(_) => 1
    }

    /** The wire message of an authentication failure hides its details. */
    function Message(): string {
      if Unauthorized? then "Unauthorized" else text
    }
  }

  datatype ErrorBody = ErrorBody(code: i32, message: string)

  datatype Request = Request(version: Option<string>, name: string, params: Json, id: Option<Json>)

  datatype Response = Response(id: Json, result: Option<Json>, error: Option<ErrorBody>)

  function IdOrNull(id: Option<Json>): Json {
    match id case Some(v) => v case None => Null
  }

  function Success(id: Json, result: Json): Response { Response(id, Some(result), None) }

  function IntoResponse(e: RpcError, id: Option<Json>): Response {
    Response(IdOrNull(id), None, Some(ErrorBody(e.Code(), e.Message())))
  }

  /** A response carries a result or an error, never both and never neither. */
  predicate OneOutcome(r: Response) { r.result.Some? <==> r.error.None? }

  datatype WireEntry = Call(request: Request) | Failed(response: Response)

  function EntryId(e: WireEntry): Json {
    match e
    case Call(request) => IdOrNull(request.id)
    case Failed(response) => response.id
  }

  // ---------- documents ----------

  /** Documents are modelled after lexing: an object is its members in text order, duplicates included. */
  type Members = seq<(string, Json)>

  datatype Element = ObjectElement(members: Members) | OtherElement

  datatype Document =
    | ObjectRoot(members: Members)
    | ArrayRoot(elements: seq<Element>)
    | ScalarRoot
    | Malformed

  datatype WireDocument = WireDocument(isBatch: bool, entries: seq<WireEntry>)

  /** The value of the last member called `key`. */
  function LastValue(members: Members, key: string): Option<Json> {
    if members == [] then None
    else if members[|members| - 1].0 == key then Some(members[|members| - 1].1)
    else LastValue(members[..|members| - 1], key)
  }

  function StringOf(v: Option<Json>): Option<string> {
    if v.Some? && v.value.Str? then Some(v.value.s) else None
  }

  /** What one object means, given the last value of each of the four members it looks at. */
  function EntryOf(members: Members): WireEntry {
    var id := LastValue(members, "id");
    var name := StringOf(LastValue(members, "method"));
    var params := LastValue(members, "params");
    if id.None? then Failed(IntoResponse(InvalidRequest("Invalid Request."), None))
    else if name.None? then Failed(IntoResponse(InvalidRequest("Invalid Request."), id))
    else if params.Some? && !params.value.Arr? then Failed(IntoResponse(InvalidParams("Invalid params."), id))
    else Call(Request(StringOf(LastValue(members, "jsonrpc")), name.value,
                      if params.Some? then params.value else Arr([]), id))
  }

  /** The single pass over the members, overwriting each field it meets again. */
  method ParseWireObject(members: Members) returns (entry: WireEntry)
    ensures entry == EntryOf(members)
  {
    var id: Option<Json>, rawName: Option<Json>, params: Option<Json>, version: Option<Json> := None, None, None, None;
    for i := 0 to |members|
      invariant id == LastValue(members[..i], "id")
      invariant rawName == LastValue(members[..i], "method")
      invariant params == LastValue(members[..i], "params")
      invariant version == LastValue(members[..i], "jsonrpc")
    {
      var (key, value) := members[i];
      assert members[..i + 1][..i] == members[..i];
      match key {
        case "id" => id := Some(value);
        case "method" => rawName := Some(value);
        case "params" => params := Some(value);
        case "jsonrpc" => version := Some(value);
        case _ =>
      }
    }
    assert members[..|members|] == members;
    if id.None? {
      return Failed(IntoResponse(InvalidRequest("Invalid Request."), None));
    }
    var name := StringOf(rawName);
    if name.None? {
      return Failed(IntoResponse(InvalidRequest("Invalid Request."), id));
    }
    var list: Json;
    match params {
      case None => list := Arr([]);
      case Some(Arr(items)) => list := Arr(items);
      case Some(_) => return Failed(IntoResponse(InvalidParams("Invalid params."), id));
    }
    entry := Call(Request(StringOf(version), name.value, list, id));
  }

  /** The object elements of an array, in order. */
  function Objects(elements: seq<Element>): seq<Members> {
    if elements == [] then []
    else Objects(elements[..|elements| - 1]) +
         (match elements[|elements| - 1] case ObjectElement(members) => [members] case OtherElement => [])
  }

  method ParseWireDocument(document: Document) returns (r: Result<WireDocument, RpcError>)
    ensures document.Malformed? ==> r == Err(ParseError("Parse error."))
    ensures document.ScalarRoot? ==> r == Err(InvalidRequest("Invalid Request."))
    ensures document.ObjectRoot? ==> r == Ok(WireDocument(false, [EntryOf(document.members)]))
    ensures document.ArrayRoot? ==>
              && r.Ok? && r.value.isBatch
              && |r.value.entries| == |Objects(document.elements)|
              && forall i | 0 <= i < |r.value.entries| :: r.value.entries[i] == EntryOf(Objects(document.elements)[i])
  {
    match document {
      case Malformed => r := Err(ParseError("Parse error."));
      case ScalarRoot => r := Err(InvalidRequest("Invalid Request."));
      case ObjectRoot(members) =>
        var entry := ParseWireObject(members);
        r := Ok(WireDocument(false, [entry]));
      case ArrayRoot(elements) =>
        var entries := [];
        for i := 0 to |elements|
          invariant |entries| == |Objects(elements[..i])|
          invariant forall k | 0 <= k < |entries| :: entries[k] == EntryOf(Objects(elements[..i])[k])
        {
          assert elements[..i + 1][..i] == elements[..i];
          match elements[i] {
            case ObjectElement(members) =>
              var entry := ParseWireObject(members);
              entries := entries + [entry];
            case OtherElement =>
          }
        }
        assert elements[..|elements|] == elements;
        r := Ok(WireDocument(true, entries));
    }
  }

  /** Whatever is wrong with an object, its entry answers under the object's own id. */
  lemma EntryKeepsId(members: Members)
    ensures EntryId(EntryOf(members)) == IdOrNull(LastValue(members, "id"))
  {
  }

  // ---------- what an object means, told by its members ----------

  /** The last of the members called `key` has this value. */
  ghost predicate Says(members: Members, key: string, value: Json) {
    exists i | 0 <= i < |members| :: members[i] == (key, value) && forall j | i < j < |members| :: members[j].0 != key
  }

  predicate Lacks(members: Members, key: string) { forall i | 0 <= i < |members| :: members[i].0 != key }

  lemma {:induction false} LastValueExactly(members: Members, key: string)
    ensures forall value :: LastValue(members, key) == Some(value) <==> Says(members, key, value)
    ensures LastValue(members, key).None? <==> Lacks(members, key)
  {
    if members == [] {
    } else {
      var front, last := members[..|members| - 1], members[|members| - 1];
      LastValueExactly(front, key);
      assert front + [last] == members;
      assert Lacks(members, key) <==> last.0 != key && Lacks(front, key);
      forall value
        ensures Says(members, key, value) <==> if last.0 == key then last.1 == value else Says(front, key, value)
      {
        LastMemberDecides(front, last, key, value);
      }
    }
  }

  lemma LastMemberDecides(front: Members, last: (string, Json), key: string, value: Json)
    ensures Says(front + [last], key, value) <==> if last.0 == key then last.1 == value else Says(front, key, value)
  {
    var members := front + [last];
    assert members[|front|] == last && forall i | 0 <= i < |front| :: members[i] == front[i];
    if Says(members, key, value) {
      var i :| 0 <= i < |members| && members[i] == (key, value) && forall j | i < j < |members| :: members[j].0 != key;
      assert i < |front| ==> front[i] == (key, value);
    }
    if last.0 != key && Says(front, key, value) {
      var i :| 0 <= i < |front| && front[i] == (key, value) && forall j | i < j < |front| :: front[j].0 != key;
      assert members[i] == (key, value);
    }
  }

  /** A well-formed object is the request it spells, whatever other members it has and in whatever order. */
  lemma RequestIsRead(members: Members, id: Json, name: string)
    requires Says(members, "id", id) && Says(members, "method", Str(name))
    ensures forall items :: Says(members, "params", Arr(items)) ==>
              EntryOf(members).Call? && EntryOf(members).request.params == Arr(items)
    ensures Lacks(members, "params") ==> EntryOf(members).Call? && EntryOf(members).request.params == Arr([])
    ensures EntryOf(members).Call? ==>
              EntryOf(members).request.id == Some(id) && EntryOf(members).request.name == name
    ensures forall version :: EntryOf(members).Call? && Says(members, "jsonrpc", Str(version)) ==>
              EntryOf(members).request.version == Some(version)
  {
    LastValueExactly(members, "id");
    LastValueExactly(members, "method");
    LastValueExactly(members, "params");
    LastValueExactly(members, "jsonrpc");
  }

  /** Sections 5.1 of the JSON-RPC 2.0 specification for the codes; the errors of aria2's methods have code 1. */
  lemma CodesOfErrors(text: string, code: i32)
    ensures ParseError(text).Code() == -32700 && InvalidRequest(text).Code() == -32600
    ensures MethodNotFound(text).Code() == -32601 && InvalidParams(text).Code() == -32602
    ensures InternalError(text).Code() == -32603 && ServerError(code, text).Code() == code
    ensures RpcExecution(text).Code() == 1 && Unauthorized(text).Code() == 1
    ensures RpcExecution(text).Message() == text && Unauthorized(text).Message() == "Unauthorized"
  {
  }

  /** The errors of malformed objects, with the codes of section 5.1 of the JSON-RPC 2.0 specification. */
  lemma MalformedIsRefused(members: Members, id: Json)
    ensures Lacks(members, "id") ==>
              EntryOf(members) == Failed(Response(Null, None, Some(ErrorBody(-32600, "Invalid Request."))))
    ensures Says(members, "id", id) && (forall name :: !Says(members, "method", Str(name))) ==>
              EntryOf(members) == Failed(Response(id, None, Some(ErrorBody(-32600, "Invalid Request."))))
    ensures forall name, params :: Says(members, "id", id) && Says(members, "method", Str(name))
                                   && Says(members, "params", params) && !params.Arr? ==>
              EntryOf(members) == Failed(Response(id, None, Some(ErrorBody(-32602, "Invalid params."))))
  {
    LastValueExactly(members, "id");
    LastValueExactly(members, "method");
    LastValueExactly(members, "params");
  }

  /** The object elements keep their order, and other elements leave no gap. */
  lemma {:induction false} ObjectsKeepOrder(a: seq<Element>, b: seq<Element>, members: Members)
    ensures Objects(a + b) == Objects(a) + Objects(b)
    ensures Objects([ObjectElement(members)]) == [members] && Objects([OtherElement]) == []
  {
    assert [ObjectElement(members)][..0] == [] && [OtherElement][..0] == [];
    if b == [] {
      assert a + b == a;
    } else {
      ObjectsKeepOrder(a, b[..|b| - 1], members);
      assert (a + b)[..|a + b| - 1] == a + b[..|b| - 1];
    }
  }
}
