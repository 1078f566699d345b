/** Dispatch of a JSON-RPC batch: runs of read-only entries in flight together, barriers between. */
module BatchDispatch {
  import opened Wrappers
  import opened Collections
  import opened JsonValue
  import opened JsonRpc
  import opened RpcEngine
  import opened OtherClients

  const MAX_RPC_BATCH_CONCURRENCY: nat := 64

  predicate IsReadOnly(e: WireEntry) { e.Call? ==> e.request.name in READ_ONLY }

  predicate AllReadOnly(entries: seq<WireEntry>) { forall i | 0 <= i < |entries| :: IsReadOnly(entries[i]) }

  function SnapshotReads(entries: seq<WireEntry>): nat {
    if entries == [] then 0
    else SnapshotReads(entries[1..]) +
         (if entries[0].Call? && entries[0].request.name in SNAPSHOT_READS then 1 else 0)
  }

  predicate NeedsSnapshot(entries: seq<WireEntry>) { SnapshotReads(entries) > 1 }

  // ---------- what is assumed of the backend ----------

  /** The view is the live state itself or a snapshot captured from it. */
  ghost predicate SeesLive(b: Backend, s: BackendState, view: Option<Snapshot>) {
    view.None? || b.capture(s) == Ok(view)
  }

  ghost predicate ReadsAlike(b: Backend, s: BackendState, command: Command, view: Option<Snapshot>) {
    b.exec(s, command, view).0 == s && b.exec(s, command, view) == b.exec(s, command, None)
  }

  /**
    What a backend owes its read-only methods: they leave the state as it is, and they
    answer from a snapshot of a state as they answer from that state.
   */
  ghost predicate FaithfulReads(b: Backend) {
    forall name, params, s, view :: name in READ_ONLY && b.parse(name, params).Ok? && SeesLive(b, s, view)
      ==> ReadsAlike(b, s, b.parse(name, params).value, view)
  }

  ghost predicate CanCapture(b: Backend) { forall s :: b.capture(s).Ok? }

  // ---------- specification ----------

  function AnswerAll(b: Backend, s: BackendState, entries: seq<WireEntry>, view: Option<Snapshot>): (r: seq<Response>)
    ensures |r| == |entries|
    ensures forall i | 0 <= i < |r| :: r[i] == DispatchEntry(b, s, entries[i], view).reply
  {
    seq(|entries|, i requires 0 <= i < |entries| => DispatchEntry(b, s, entries[i], view).reply)
  }

  function FailAll(entries: seq<WireEntry>, e: RpcError): (r: seq<Response>)
    ensures |r| == |entries|
    ensures forall i | 0 <= i < |r| :: r[i] == IntoResponse(e, Some(EntryId(entries[i])))
  {
    seq(|entries|, i requires 0 <= i < |entries| => IntoResponse(e, Some(EntryId(entries[i]))))
  }

  /** The answers of one read-only run: all from one view, or all failing with its capture. */
  function ReadRun(b: Backend, s: BackendState, entries: seq<WireEntry>): (r: seq<Response>)
    ensures |r| == |entries|
  {
    if NeedsSnapshot(entries) then
      match b.capture(s)
      case Err(e) => FailAll(entries, e)
      case Ok(view) => AnswerAll(b, s, entries, view)
    else AnswerAll(b, s, entries, None)
  }

  /** Length of the read-only run the entries start with. */
  function RunLength(entries: seq<WireEntry>): (n: nat)
    ensures n <= |entries| && AllReadOnly(entries[..n])
    ensures n < |entries| ==> !IsReadOnly(entries[n])
  {
    if entries == [] || !IsReadOnly(entries[0]) then 0 else 1 + RunLength(entries[1..])
  }

  datatype Answers = Answers(state: BackendState, responses: seq<Response>)

  /** Run after run, barrier after barrier. */
  function Batch(b: Backend, s: BackendState, entries: seq<WireEntry>): (a: Answers)
    ensures |a.responses| == |entries|
    decreases |entries|
  {
    if entries == [] then Answers(s, [])
    else
      var n := RunLength(entries);
      if n > 0 then
        var rest := Batch(b, s, entries[n..]);
        Answers(rest.state, ReadRun(b, s, entries[..n]) + rest.responses)
      else
        var o := DispatchEntry(b, s, entries[0], None);
        var rest := Batch(b, o.state, entries[1..]);
        Answers(rest.state, [o.reply] + rest.responses)
  }

  /** One entry at a time, left to right, always against the live state. */
  function Sequential(b: Backend, s: BackendState, entries: seq<WireEntry>): (a: Answers)
    ensures |a.responses| == |entries|
  {
    if entries == [] then Answers(s, [])
    else
      var o := DispatchEntry(b, s, entries[0], None);
      var rest := Sequential(b, o.state, entries[1..]);
      Answers(rest.state, [o.reply] + rest.responses)
  }

  // ---------- reads do not interfere ----------

  lemma ReadLeavesNoTrace(b: Backend, s: BackendState, e: WireEntry, view: Option<Snapshot>)
    requires FaithfulReads(b) && IsReadOnly(e) && SeesLive(b, s, view)
    ensures DispatchEntry(b, s, e, view).state == s
    ensures DispatchEntry(b, s, e, view).reply == DispatchEntry(b, s, e, None).reply
  {
    if e.Call? {
      ReadsDoNotMutate(e.request.name);
      var params := SplitAuthToken(e.request.params).1;
      var parsed := b.parse(e.request.name, params);
      if parsed.Ok? {
        assert SeesLive(b, s, None);
        assert ReadsAlike(b, s, parsed.value, view) && ReadsAlike(b, s, parsed.value, None);
      }
    }
  }

  /** A read-only entry neither takes the turn nor calls a mutating method. */
  lemma ReadsNeedNoTurn(b: Backend, s: BackendState, e: WireEntry, view: Option<Snapshot>)
    requires IsReadOnly(e)
    ensures NoMutation(DispatchEntry(b, s, e, view).trace)
  {
    if e.Call? { ReadsDoNotMutate(e.request.name); }
  }

  // ---------- multicalls that only read ----------

  predicate ReadsOnly(call: Json) {
    call.Obj? && "methodName" in call.fields && call.fields["methodName"].Str? ==>
        call.fields["methodName"].s in READ_ONLY
  }

  lemma SubcallLeavesNoTrace(b: Backend, s: BackendState, call: Json, view: Option<Snapshot>)
    requires FaithfulReads(b) && ReadsOnly(call) && SeesLive(b, s, view)
    ensures Subcall(b, s, call, view).state == s
    ensures Subcall(b, s, call, view).reply == Subcall(b, s, call, None).reply
  {
    if call.Obj? && "methodName" in call.fields && call.fields["methodName"].Str? {
      var name := call.fields["methodName"].s;
      var parsed := b.parse(name, SplitAuthToken(ParamsOf(call)).1);
      ReadsDoNotMutate(name);
      if parsed.Ok? {
        assert SeesLive(b, s, None);
        assert ReadsAlike(b, s, parsed.value, view) && ReadsAlike(b, s, parsed.value, None);
      }
    }
  }

  /** A multicall of reads answers from its snapshot as it would live, and changes nothing. */
  lemma {:induction false} SnapshotAnswersAlike(b: Backend, s: BackendState, calls: seq<Json>, view: Option<Snapshot>)
    requires FaithfulReads(b) && SeesLive(b, s, view)
    requires forall i | 0 <= i < |calls| :: ReadsOnly(calls[i])
    ensures Subcalls(b, s, calls, view).state == Subcalls(b, s, calls, None).state == s
    ensures Subcalls(b, s, calls, view).reply == Subcalls(b, s, calls, None).reply
  {
    if calls == [] {
    } else {
      SnapshotAnswersAlike(b, s, calls[..|calls| - 1], view);
      assert SeesLive(b, s, None);
      SubcallLeavesNoTrace(b, s, calls[|calls| - 1], view);
      SubcallLeavesNoTrace(b, s, calls[|calls| - 1], None);
    }
  }

  // ---------- one answer per entry, under its own id ----------

  ghost predicate AnswersEntry(r: Response, e: WireEntry) {
    r.id == EntryId(e) && (e.Call? || OneOutcome(e.response) ==> OneOutcome(r))
  }

  /** One answer per entry, in order. */
  ghost predicate AllAnswered(responses: seq<Response>, entries: seq<WireEntry>) {
    |responses| == |entries| && forall i | 0 <= i < |entries| :: AnswersEntry(responses[i], entries[i])
  }

  lemma EntryIsAnswered(b: Backend, s: BackendState, e: WireEntry, view: Option<Snapshot>)
    ensures AnswersEntry(DispatchEntry(b, s, e, view).reply, e)
  {
    if e.Call? { AnswersUnderOwnId(b, s, e.request, view); }
  }

  lemma EntryIsAnsweredAmong(b: Backend, others: Others, now: nat, s: BackendState, e: WireEntry,
                             view: Option<Snapshot>)
    ensures AnswersEntry(EntryAmong(b, others, now, s, e, view).reply, e)
  {
    if e.Call? { AnsweredAmongOthers(b, others, now, s, e.request, view); }
  }

  // ---------- reads of one run see one snapshot ----------

  predicate IsSnapshotRead(e: WireEntry) { e.Call? && e.request.name in SNAPSHOT_READS }

  ghost predicate TwoSnapshotReads(entries: seq<WireEntry>) {
    exists i, j | 0 <= i < j < |entries| :: IsSnapshotRead(entries[i]) && IsSnapshotRead(entries[j])
  }

  /** The answer the entry has from the view on some state. */
  ghost predicate AnsweredFrom(b: Backend, r: Response, e: WireEntry, view: Option<Snapshot>) {
    exists u :: r == DispatchEntry(b, u, e, view).reply
  }

  /** All answered from the one view that was captured, or all failed with the capture's error. */
  ghost predicate FromOneCapture(b: Backend, responses: seq<Response>, entries: seq<WireEntry>,
                                 captured: Result<Option<Snapshot>, RpcError>) {
    |responses| == |entries| &&
    forall i | 0 <= i < |entries| ::
      match captured
      case Ok(view) => AnsweredFrom(b, responses[i], entries[i], view)
      case Err(e) => responses[i] == IntoResponse(e, Some(EntryId(entries[i])))
  }

  lemma {:induction false} CountsSnapshotReads(entries: seq<WireEntry>)
    ensures 0 < SnapshotReads(entries) <==> exists i | 0 <= i < |entries| :: IsSnapshotRead(entries[i])
    ensures NeedsSnapshot(entries) <==> TwoSnapshotReads(entries)
  {
    if entries == [] {
    } else {
      CountsSnapshotReads(entries[1..]);
      SnapshotReadBehind(entries);
    }
  }

  lemma SnapshotReadBehind(entries: seq<WireEntry>)
    requires entries != []
    ensures (exists i | 0 <= i < |entries| :: IsSnapshotRead(entries[i]))
            <==> IsSnapshotRead(entries[0]) || exists i | 0 <= i < |entries[1..]| :: IsSnapshotRead(entries[1..][i])
    ensures TwoSnapshotReads(entries)
            <==> TwoSnapshotReads(entries[1..])
                 || (IsSnapshotRead(entries[0])
                     && exists i | 0 <= i < |entries[1..]| :: IsSnapshotRead(entries[1..][i]))
  {
    var tail := entries[1..];
    assert forall i | 0 <= i < |tail| :: tail[i] == entries[i + 1];
    if i :| 0 <= i < |tail| && IsSnapshotRead(tail[i]) { assert IsSnapshotRead(entries[i + 1]); }
    if i :| 0 <= i < |entries| && IsSnapshotRead(entries[i]) {
      if i > 0 { assert IsSnapshotRead(tail[i - 1]); }
    }
    if TwoSnapshotReads(entries) {
      var i, j :| 0 <= i < j < |entries| && IsSnapshotRead(entries[i]) && IsSnapshotRead(entries[j]);
      assert IsSnapshotRead(tail[j - 1]);
      if i > 0 { assert IsSnapshotRead(tail[i - 1]); }
    }
    if TwoSnapshotReads(tail) {
      var i, j :| 0 <= i < j < |tail| && IsSnapshotRead(tail[i]) && IsSnapshotRead(tail[j]);
      assert IsSnapshotRead(entries[i + 1]) && IsSnapshotRead(entries[j + 1]);
    }
  }

  ghost predicate IsCapture(b: Backend, captured: Result<Option<Snapshot>, RpcError>) {
    exists u :: b.capture(u) == captured
  }

  /** The entries from `i` to `j` were answered from one capture. */
  ghost predicate ReadTogether(b: Backend, responses: seq<Response>, entries: seq<WireEntry>, i: nat, j: nat) {
    i <= j <= |responses| == |entries| &&
    exists captured :: IsCapture(b, captured) && FromOneCapture(b, responses[i..j], entries[i..j], captured)
  }

  /**
    Wherever entries in a row, malformed ones aside, all call read-only methods, and two of them
    methods that use a snapshot, they are all answered from one capture.
   */
  ghost predicate Consistent(b: Backend, responses: seq<Response>, entries: seq<WireEntry>) {
    |responses| == |entries| &&
    forall i, j | 0 <= i <= j <= |entries| && TwoSnapshotReads(entries[i..j])
                  && (forall k | i <= k < j :: entries[k].Call? ==> entries[k].request.name in READ_ONLY) ::
      ReadTogether(b, responses, entries, i, j)
  }

  // ---------- the dispatcher ----------

  /** Nobody else changes the backend, and reads are faithful. */
  ghost predicate Quiet(b: Backend, others: Others) {
    FaithfulReads(b) && Still(others)
  }

  /** The entries that have finished, each with an answer of its own; when quiet, the expected one. */
  ghost predicate Finished(b: Backend, others: Others, s: BackendState, entries: seq<WireEntry>, view: Option<Snapshot>,
                           admitted: nat, t: BackendState, finished: map<nat, Response>) {
    && admitted <= |entries|
    && (forall i | i in finished :: i < admitted && AnswersEntry(finished[i], entries[i])
                                    && AnsweredFrom(b, finished[i], entries[i], view))
    && (Quiet(b, others) ==> t == s && SeesLive(b, s, view))
    && (Quiet(b, others) ==> forall i | i in finished :: finished[i] == DispatchEntry(b, s, entries[i], view).reply)
  }

  /** Any admitted entry may be the next to be executed, on whatever state it then finds. */
  method FinishOne(b: Backend, others: Others, now: nat, ghost s: BackendState, entries: seq<WireEntry>,
                   view: Option<Snapshot>, ghost admitted: nat, t: BackendState, finished: map<nat, Response>, i: nat)
    returns (t': BackendState, finished': map<nat, Response>)
    requires i < admitted && i !in finished && AllReadOnly(entries)
    requires Finished(b, others, s, entries, view, admitted, t, finished)
    ensures Finished(b, others, s, entries, view, admitted, t', finished')
    ensures finished'.Keys == finished.Keys + {i} && forall k | k in finished :: finished'[k] == finished[k]
  {
    var o := DispatchEntry(b, others(now, t), entries[i], view);
    EntryIsAnswered(b, others(now, t), entries[i], view);
    if Quiet(b, others) { ReadLeavesNoTrace(b, s, entries[i], view); }
    t', finished' := o.state, finished[i := o.reply];
  }

  function Unfinished(entries: seq<WireEntry>, finished: map<nat, Response>): set<nat> {
    set i: nat | i < |entries| && i !in finished
  }

  /** The first answers that have finished have left the window, which holds no more than 64 entries. */
  ghost predicate Window(entries: seq<WireEntry>, admitted: nat, finished: map<nat, Response>,
                         responses: seq<Response>, peak: nat) {
    && |responses| <= admitted <= |entries| && admitted - |responses| <= peak <= MAX_RPC_BATCH_CONCURRENCY
    && forall i | 0 <= i < |responses| :: i in finished && responses[i] == finished[i]
  }

  lemma NextIsAdmitted(b: Backend, others: Others, s: BackendState, entries: seq<WireEntry>, view: Option<Snapshot>,
                       admitted: nat, t: BackendState, finished: map<nat, Response>, responses: seq<Response>,
                       peak: nat)
    requires Finished(b, others, s, entries, view, admitted, t, finished)
    requires Window(entries, admitted, finished, responses, peak)
    requires admitted < |entries| && admitted - |responses| < MAX_RPC_BATCH_CONCURRENCY
    ensures Finished(b, others, s, entries, view, admitted + 1, t, finished)
    ensures Window(entries, admitted + 1, finished, responses, Higher(peak, admitted + 1 - |responses|))
  {
  }

  function Higher(a: nat, b: nat): nat { if a < b then b else a }

  lemma OneHasFinished(entries: seq<WireEntry>, admitted: nat, finished: map<nat, Response>,
                       finished': map<nat, Response>, responses: seq<Response>, peak: nat, i: nat)
    requires Window(entries, admitted, finished, responses, peak) && i < admitted && i !in finished
    requires finished'.Keys == finished.Keys + {i} && forall k | k in finished :: finished'[k] == finished[k]
    ensures Window(entries, admitted, finished', responses, peak)
    ensures Unfinished(entries, finished') < Unfinished(entries, finished)
  {
    assert i in Unfinished(entries, finished) && i !in Unfinished(entries, finished');
  }

  lemma FirstLeaves(entries: seq<WireEntry>, admitted: nat, finished: map<nat, Response>,
                    responses: seq<Response>, peak: nat)
    requires Window(entries, admitted, finished, responses, peak) && |responses| in finished
    requires forall i | i in finished :: i < admitted
    ensures Window(entries, admitted, finished, responses + [finished[|responses|]], peak)
  {
  }

  /** When all have left the window, every entry has its answer from the view. */
  lemma WindowIsEmpty(b: Backend, others: Others, s: BackendState, entries: seq<WireEntry>, view: Option<Snapshot>,
                      admitted: nat, t: BackendState, finished: map<nat, Response>, responses: seq<Response>, peak: nat)
    requires Finished(b, others, s, entries, view, admitted, t, finished)
    requires Window(entries, admitted, finished, responses, peak) && |responses| == |entries|
    ensures AllAnswered(responses, entries) && FromOneCapture(b, responses, entries, Ok(view))
    ensures Quiet(b, others) ==> responses == AnswerAll(b, s, entries, view)
  {
  }

  /**
    Entries are admitted in order while fewer than 64 are in the window, any admitted entry
    may be the next to finish, answers leave the window in order, and other clients may act
    before every step.
   */
  method AnswerFrom(b: Backend, others: Others, now: nat, ghost s: BackendState, met: BackendState,
                    entries: seq<WireEntry>, view: Option<Snapshot>)
    returns (t: BackendState, later: nat, responses: seq<Response>, ghost peak: nat)
    requires AllReadOnly(entries) && (Quiet(b, others) ==> met == s && SeesLive(b, s, view))
    ensures AllAnswered(responses, entries) && FromOneCapture(b, responses, entries, Ok(view))
    ensures Quiet(b, others) ==> t == s && responses == AnswerAll(b, s, entries, view)
    ensures peak <= 64
  {
    t, later, responses, peak := met, now, [], 0;
    var admitted := 0;
    var finished: map<nat, Response> := map[];
    while |responses| < |entries|
      invariant Finished(b, others, s, entries, view, admitted, t, finished)
      invariant Window(entries, admitted, finished, responses, peak)
      decreases |entries| - admitted, |entries| - |responses|, Unfinished(entries, finished)
    {
      if {
        case admitted < |entries| && admitted - |responses| < MAX_RPC_BATCH_CONCURRENCY =>
          NextIsAdmitted(b, others, s, entries, view, admitted, t, finished, responses, peak);
          admitted := admitted + 1;
          peak := Higher(peak, admitted - |responses|);
        case exists i | |responses| <= i < admitted :: i !in finished =>
          var i :| |responses| <= i < admitted && i !in finished;
          ghost var before := finished;
          t, finished := FinishOne(b, others, later, s, entries, view, admitted, t, finished, i);
          later := later + 1;
          OneHasFinished(entries, admitted, before, finished, responses, peak, i);
        case |responses| in finished =>
          FirstLeaves(entries, admitted, finished, responses, peak);
          responses := responses + [finished[|responses|]];
      }
    }
    WindowIsEmpty(b, others, s, entries, view, admitted, t, finished, responses, peak);
  }

  /**
    Whatever happens, each entry gets its answer in its place. If two of them use a snapshot,
    one is captured, and all are answered from it or all fail with the capture's error;
    otherwise all are answered live. If nobody else acts and reads are faithful, the answers are
    the specified ones and the backend is untouched.
   */
  method DispatchReadOnlyRun(b: Backend, others: Others, now: nat, s: BackendState, entries: seq<WireEntry>)
    returns (t: BackendState, later: nat, responses: seq<Response>, ghost peak: nat)
    requires AllReadOnly(entries)
    ensures AllAnswered(responses, entries)
    ensures FromOneCapture(b, responses, entries,
                           if TwoSnapshotReads(entries) then b.capture(others(now, s)) else Ok(None))
    ensures Quiet(b, others) ==> t == s && responses == ReadRun(b, s, entries)
    ensures peak <= 64
  {
    var met, view := others(now, s), None;
    CountsSnapshotReads(entries);
    if NeedsSnapshot(entries) {
      match b.capture(met) {
        case Err(e) => return met, now + 1, FailAll(entries, e), 0;
        case Ok(captured) => view := captured;
      }
    }
    t, later, responses, peak := AnswerFrom(b, others, now + 1, s, met, entries, view);
  }

  /** `responses` have been given, and `pending` on state `t` will complete the answers `all`. */
  ghost predicate OnCourse(b: Backend, all: Answers, t: BackendState, responses: seq<Response>,
                           pending: seq<WireEntry>) {
    var rest := Batch(b, t, pending);
    all == Answers(rest.state, responses + rest.responses)
  }

  /** The entries `past` have their answers, from one view a run; when quiet, those and the ones to come are `all`. */
  ghost predicate Progress(b: Backend, others: Others, all: Answers, t: BackendState, responses: seq<Response>,
                           past: seq<WireEntry>, pending: seq<WireEntry>) {
    && AllAnswered(responses, past) && Consistent(b, responses, past)
    && (Quiet(b, others) ==> OnCourse(b, all, t, responses, pending))
  }

  /** A run cannot go on behind these entries. */
  predicate EndsRun(past: seq<WireEntry>) { past == [] || !IsReadOnly(past[|past| - 1]) }

  lemma PartOfRun(b: Backend, responses: seq<Response>, run: seq<WireEntry>,
                  captured: Result<Option<Snapshot>, RpcError>, i: nat, j: nat)
    requires FromOneCapture(b, responses, run, captured) && i <= j <= |run|
    ensures FromOneCapture(b, responses[i..j], run[i..j], captured)
  {
  }

  lemma PartHasTwo(past: seq<WireEntry>, run: seq<WireEntry>, i: nat, j: nat)
    requires |past| <= i <= j <= |past + run| && TwoSnapshotReads((past + run)[i..j])
    ensures TwoSnapshotReads(run)
  {
    var part := (past + run)[i..j];
    var k, m :| 0 <= k < m < |part| && IsSnapshotRead(part[k]) && IsSnapshotRead(part[m]);
    assert IsSnapshotRead(run[i - |past| + k]) && IsSnapshotRead(run[i - |past| + m]);
  }

  /** Entries in a row that only read lie on one side of a barrier. */
  lemma ReadsStayApart(past: seq<WireEntry>, run: seq<WireEntry>, i: nat, j: nat)
    requires i <= j <= |past + run| && EndsRun(past)
    requires forall k | i <= k < j :: (past + run)[k].Call? ==> (past + run)[k].request.name in READ_ONLY
    ensures j <= |past| || |past| <= i
  {
    assert forall k | 0 <= k < |past| :: (past + run)[k] == past[k];
  }

  lemma RunIsConsistent(b: Backend, given: seq<Response>, past: seq<WireEntry>, flushed: seq<Response>,
                        run: seq<WireEntry>, captured: Result<Option<Snapshot>, RpcError>)
    requires Consistent(b, given, past) && EndsRun(past)
    requires FromOneCapture(b, flushed, run, captured) && (TwoSnapshotReads(run) ==> IsCapture(b, captured))
    ensures Consistent(b, given + flushed, past + run)
  {
    var responses, entries := given + flushed, past + run;
    forall i, j | 0 <= i <= j <= |entries| && TwoSnapshotReads(entries[i..j])
                  && (forall k | i <= k < j :: entries[k].Call? ==> entries[k].request.name in READ_ONLY)
      ensures ReadTogether(b, responses, entries, i, j)
    {
      ReadsStayApart(past, run, i, j);
      if j <= |past| {
        PastStaysTogether(b, given, past, flushed, run, i, j);
      } else {
        PartHasTwo(past, run, i, j);
        RunIsTogether(b, given, past, flushed, run, captured, i, j);
      }
    }
  }

  lemma PastStaysTogether(b: Backend, given: seq<Response>, past: seq<WireEntry>, flushed: seq<Response>,
                          run: seq<WireEntry>, i: nat, j: nat)
    requires Consistent(b, given, past) && i <= j <= |past| && TwoSnapshotReads((past + run)[i..j])
    requires forall k | i <= k < j :: (past + run)[k].Call? ==> (past + run)[k].request.name in READ_ONLY
    requires |flushed| == |run|
    ensures ReadTogether(b, given + flushed, past + run, i, j)
  {
    SliceOfFirst(past, run, i, j);
    SliceOfFirst(given, flushed, i, j);
    assert forall k | i <= k < j :: past[k] == (past + run)[k];
    assert ReadTogether(b, given, past, i, j);
  }

  lemma RunIsTogether(b: Backend, given: seq<Response>, past: seq<WireEntry>, flushed: seq<Response>,
                      run: seq<WireEntry>, captured: Result<Option<Snapshot>, RpcError>, i: nat, j: nat)
    requires |given| == |past| && FromOneCapture(b, flushed, run, captured) && IsCapture(b, captured)
    requires |past| <= i <= j <= |past + run|
    ensures ReadTogether(b, given + flushed, past + run, i, j)
  {
    var n := |past|;
    var rs, es := flushed[i - n..j - n], run[i - n..j - n];
    SliceOfSecond(past, run, i, j);
    SliceOfSecond(given, flushed, i, j);
    PartOfRun(b, flushed, run, captured, i - n, j - n);
    PartIsTogether(b, given + flushed, past + run, i, j, rs, es, captured);
  }

  lemma PartIsTogether(b: Backend, responses: seq<Response>, entries: seq<WireEntry>, i: nat, j: nat,
                       rs: seq<Response>, es: seq<WireEntry>, captured: Result<Option<Snapshot>, RpcError>)
    requires i <= j <= |responses| == |entries| && responses[i..j] == rs && entries[i..j] == es
    requires IsCapture(b, captured) && FromOneCapture(b, rs, es, captured)
    ensures ReadTogether(b, responses, entries, i, j)
  {
  }

  lemma BarrierIsConsistent(b: Backend, given: seq<Response>, past: seq<WireEntry>, r: Response, e: WireEntry)
    requires Consistent(b, given, past) && !IsReadOnly(e)
    ensures Consistent(b, given + [r], past + [e])
  {
    var responses, entries := given + [r], past + [e];
    assert entries[|past|] == e;
    forall i, j | 0 <= i <= j <= |entries| && TwoSnapshotReads(entries[i..j])
                  && (forall k | i <= k < j :: entries[k].Call? ==> entries[k].request.name in READ_ONLY)
      ensures ReadTogether(b, responses, entries, i, j)
    {
      assert |entries[i..j]| >= 2;
      PastStaysTogether(b, given, past, [r], [e], i, j);
    }
  }

  /** Runs what has been collected, if anything has. */
  method FlushRun(b: Backend, others: Others, now: nat, ghost all: Answers, s: BackendState, given: seq<Response>,
                  ghost past: seq<WireEntry>, run: seq<WireEntry>, ghost rest: seq<WireEntry>)
    returns (t: BackendState, later: nat, responses: seq<Response>)
    requires AllReadOnly(run) && (rest != [] ==> !IsReadOnly(rest[0]))
    requires Progress(b, others, all, s, given, past, run + rest) && EndsRun(past)
    ensures Progress(b, others, all, t, responses, past + run, rest)
  {
    if run == [] {
      assert run + rest == rest && past + run == past;
      return s, now, given;
    }
    if Quiet(b, others) {
      RunLengthOf(run, rest);
      assert (run + rest)[..|run|] == run && (run + rest)[|run|..] == rest;
      Associative(given, ReadRun(b, s, run), Batch(b, s, rest).responses);
    }
    var flushed;
    ghost var peak;
    t, later, flushed, peak := DispatchReadOnlyRun(b, others, now, s, run);
    responses := given + flushed;
    ghost var captured := if TwoSnapshotReads(run) then b.capture(others(now, s)) else Ok(None);
    RunIsConsistent(b, given, past, flushed, run, captured);
  }

  method RunBarrier(b: Backend, others: Others, now: nat, ghost all: Answers, s: BackendState, given: seq<Response>,
                    ghost past: seq<WireEntry>, e: WireEntry, ghost rest: seq<WireEntry>)
    returns (t: BackendState, later: nat, responses: seq<Response>)
    requires !IsReadOnly(e)
    requires Progress(b, others, all, s, given, past, [e] + rest)
    ensures Progress(b, others, all, t, responses, past + [e], rest)
  {
    if Quiet(b, others) {
      var o := DispatchEntry(b, s, e, None);
      Associative(given, [o.reply], Batch(b, o.state, rest).responses);
      StillEntry(b, others, now, s, e, None);
    }
    var o := EntryAmong(b, others, now, s, e, None);
    EntryIsAnsweredAmong(b, others, now, s, e, None);
    BarrierIsConsistent(b, given, past, o.reply, e);
    return o.state, now + Moments(e), given + [o.reply];
  }

  /** The reads in `run` were collected from entry `start` on; everything before is answered. */
  ghost predicate Collected(b: Backend, others: Others, all: Answers, entries: seq<WireEntry>, start: nat, i: nat,
                            t: BackendState, responses: seq<Response>, run: seq<WireEntry>)
  {
    && start <= i <= |entries| && run == entries[start..i] && AllReadOnly(run) && EndsRun(entries[..start])
    && Progress(b, others, all, t, responses, entries[..start], entries[start..])
  }

  /** One turn of the loop: a read is collected, everything else flushes the reads first. */
  method DispatchNext(b: Backend, others: Others, now: nat, ghost all: Answers, entries: seq<WireEntry>,
                      ghost start: nat, i: nat, s: BackendState, given: seq<Response>, run: seq<WireEntry>)
    returns (t: BackendState, later: nat, responses: seq<Response>, run': seq<WireEntry>, ghost start': nat)
    requires i < |entries| && Collected(b, others, all, entries, start, i, s, given, run)
    ensures Collected(b, others, all, entries, start', i + 1, t, responses, run')
  {
    if IsReadOnly(entries[i]) {
      t, later, responses, run', start' := s, now, given, run + [entries[i]], start;
    } else {
      SplitAt(entries, start, i);
      t, later, responses := FlushRun(b, others, now, all, s, given, entries[..start], run, entries[i..]);
      t, later, responses := RunBarrier(b, others, later, all, t, responses, entries[..i], entries[i],
          entries[i + 1..]);
      run', start' := [], i + 1;
    }
  }

  method DispatchWireEntries(b: Backend, others: Others, s: BackendState, entries: seq<WireEntry>)
    returns (t: BackendState, responses: seq<Response>)
    ensures AllAnswered(responses, entries) && Consistent(b, responses, entries)
    ensures Quiet(b, others) ==> Answers(t, responses) == Batch(b, s, entries)
  {
    ghost var all := Batch(b, s, entries);
    ghost var start: nat := 0;
    assert entries[0..] == entries;
    t, responses := s, [];
    var now, run: seq<WireEntry> := 0, [];
    for i := 0 to |entries|
      invariant Collected(b, others, all, entries, start, i, t, responses, run)
    {
      t, now, responses, run, start := DispatchNext(b, others, now, all, entries, start, i, t, responses, run);
    }
    SplitAt(entries, start, |entries|);
    t, now, responses := FlushRun(b, others, now, all, t, responses, entries[..start], run, []);
  }

  lemma SplitAt(entries: seq<WireEntry>, start: nat, i: nat)
    requires start <= i <= |entries|
    ensures i < |entries| ==> entries[start..] == entries[start..i] + entries[i..]
    ensures i < |entries| ==> entries[i..] == [entries[i]] + entries[i + 1..]
    ensures i == |entries| ==> entries[start..] == entries[start..i] + [] && entries[..i] == entries
    ensures entries[..i] == entries[..start] + entries[start..i]
    ensures i < |entries| ==> entries[..i + 1] == entries[..i] + [entries[i]]
  {
  }

  lemma {:induction false} RunLengthOf(run: seq<WireEntry>, rest: seq<WireEntry>)
    requires AllReadOnly(run) && (rest != [] ==> !IsReadOnly(rest[0]))
    ensures RunLength(run + rest) == |run|
  {
    if run == [] {
      assert run + rest == rest;
    } else {
      assert (run + rest)[1..] == run[1..] + rest;
      RunLengthOf(run[1..], rest);
    }
  }

  // ---------- the batch is a sequential execution ----------

  lemma AnswerAllCons(b: Backend, s: BackendState, entries: seq<WireEntry>, view: Option<Snapshot>)
    requires entries != []
    ensures AnswerAll(b, s, entries, view)
            == [DispatchEntry(b, s, entries[0], view).reply] + AnswerAll(b, s, entries[1..], view)
  {
  }

  lemma {:induction false} SequentialReads(b: Backend, s: BackendState, run: seq<WireEntry>, rest: seq<WireEntry>)
    requires FaithfulReads(b) && AllReadOnly(run)
    ensures Sequential(b, s, run + rest).state == Sequential(b, s, rest).state
    ensures Sequential(b, s, run + rest).responses == AnswerAll(b, s, run, None) + Sequential(b, s, rest).responses
  {
    if run == [] {
      assert run + rest == rest;
    } else {
      var first, others := run[0], run[1..];
      assert run == [first] + others;
      Associative([first], others, rest);
      assert SeesLive(b, s, None);
      ReadLeavesNoTrace(b, s, first, None);
      assert ([first] + (others + rest))[1..] == others + rest;
      SequentialReads(b, s, others, rest);
      AnswerAllCons(b, s, run, None);
      Associative([DispatchEntry(b, s, first, None).reply], AnswerAll(b, s, others, None),
                  Sequential(b, s, rest).responses);
    }
  }

  /**
    However the reads of a batch are interleaved, it answers and leaves the backend exactly
    as if its entries had been executed one after the other.
   */
  lemma {:induction false} BatchIsSequential(b: Backend, s: BackendState, entries: seq<WireEntry>)
    requires FaithfulReads(b) && CanCapture(b)
    ensures Batch(b, s, entries) == Sequential(b, s, entries)
    decreases |entries|
  {
    if entries == [] {
    } else {
      var n := RunLength(entries);
      if n > 0 {
        var run := entries[..n];
        assert entries == run + entries[n..];
        BatchIsSequential(b, s, entries[n..]);
        SequentialReads(b, s, run, entries[n..]);
        assert ReadRun(b, s, run) == AnswerAll(b, s, run, None) by {
          if NeedsSnapshot(run) {
            var view := b.capture(s).value;
            forall i | 0 <= i < n ensures AnswerAll(b, s, run, view)[i] == AnswerAll(b, s, run, None)[i] {
              ReadLeavesNoTrace(b, s, run[i], view);
            }
          }
        }
      } else {
        BatchIsSequential(b, DispatchEntry(b, s, entries[0], None).state, entries[1..]);
      }
    }
  }

  lemma RunIsAnswered(b: Backend, s: BackendState, run: seq<WireEntry>)
    ensures AllAnswered(ReadRun(b, s, run), run)
  {
    forall i, view | 0 <= i < |run| ensures AnswersEntry(DispatchEntry(b, s, run[i], view).reply, run[i]) {
      EntryIsAnswered(b, s, run[i], view);
    }
  }

  lemma AnsweredTogether(first: seq<Response>, run: seq<WireEntry>, others: seq<Response>, rest: seq<WireEntry>)
    requires AllAnswered(first, run) && AllAnswered(others, rest)
    ensures AllAnswered(first + others, run + rest)
  {
  }

  /** The specified batch, too, answers each entry in its place, captures that fail included. */
  lemma {:induction false} BatchAnswersEachEntry(b: Backend, s: BackendState, entries: seq<WireEntry>)
    ensures AllAnswered(Batch(b, s, entries).responses, entries)
    decreases |entries|
  {
    if entries == [] {
    } else {
      var n := RunLength(entries);
      if n > 0 {
        RunIsAnswered(b, s, entries[..n]);
        BatchAnswersEachEntry(b, s, entries[n..]);
        AnsweredTogether(ReadRun(b, s, entries[..n]), entries[..n], Batch(b, s, entries[n..]).responses, entries[n..]);
        assert entries[..n] + entries[n..] == entries;
      } else {
        var o := DispatchEntry(b, s, entries[0], None);
        EntryIsAnswered(b, s, entries[0], None);
        BatchAnswersEachEntry(b, o.state, entries[1..]);
        AnsweredTogether([o.reply], entries[..1], Batch(b, o.state, entries[1..]).responses, entries[1..]);
        assert entries[..1] + entries[1..] == entries;
      }
    }
  }

  // ---------- documents ----------

  /** Answers to the entries of a batch stand under the ids of its object elements, in element order. */
  lemma DocumentIsAnswered(elements: seq<Element>, entries: seq<WireEntry>, responses: seq<Response>)
    requires AreEntriesOf(entries, elements) && AllAnswered(responses, entries)
    ensures AnswersElements(responses, elements)
  {
    forall i | 0 <= i < |responses|
      ensures responses[i].id == IdOrNull(LastValue(Objects(elements)[i], "id")) && OneOutcome(responses[i])
    {
      assert AnswersEntry(responses[i], entries[i]);
      EntryKeepsId(Objects(elements)[i]);
    }
  }

  /** One response per object element, in element order, under that element's id and with one outcome. */
  ghost predicate AnswersElements(responses: seq<Response>, elements: seq<Element>) {
    |responses| == |Objects(elements)| &&
    forall i | 0 <= i < |responses| ::
      responses[i].id == IdOrNull(LastValue(Objects(elements)[i], "id")) && OneOutcome(responses[i])
  }

  datatype Body = Single(response: Response) | Many(responses: seq<Response>)

  /** From a document to the body of its answer, for every backend and whatever other clients do. */
  method AnswerDocument(b: Backend, others: Others, s: BackendState, document: Document)
    returns (t: BackendState, r: Body)
    ensures document.Malformed? ==> r == Single(Response(Null, None, Some(ErrorBody(-32700, "Parse error."))))
    ensures document.ScalarRoot? ==> r == Single(Response(Null, None, Some(ErrorBody(-32600, "Invalid Request."))))
    ensures document.ObjectRoot? ==>
              && r == Single(EntryAmong(b, others, 0, s, EntryOf(document.members), None).reply)
              && r.response.id == IdOrNull(LastValue(document.members, "id"))
              && OneOutcome(r.response)
    ensures document.ObjectRoot? && Still(others) ==>
              var alone := DispatchEntry(b, s, EntryOf(document.members), None);
              t == alone.state && r == Single(alone.reply)
    ensures document.ArrayRoot? ==> r.Many? && AnswersElements(r.responses, document.elements)
    ensures document.ArrayRoot? ==>
              exists entries :: AreEntriesOf(entries, document.elements) && Consistent(b, r.responses, entries)
    ensures document.ArrayRoot? && Quiet(b, others) && CanCapture(b) ==>
              exists entries :: AreEntriesOf(entries, document.elements)
                                && Answers(t, r.responses) == Sequential(b, s, entries)
  {
    t := s;
    var parsed := ParseWireDocument(document);
    match parsed {
      case Err(e) => r := Single(IntoResponse(e, None));
      case Ok(wire) =>
        if wire.isBatch {
          var responses;
          t, responses := DispatchWireEntries(b, others, s, wire.entries);
          DocumentIsAnswered(document.elements, wire.entries, responses);
          if Quiet(b, others) && CanCapture(b) {
            BatchIsSequential(b, s, wire.entries);
            assert AreEntriesOf(wire.entries, document.elements);
          }
          r := Many(responses);
        } else {
          var entry := wire.entries[0];
          EntryIsAnsweredAmong(b, others, 0, s, entry, None);
          EntryKeepsId(document.members);
          if Still(others) { StillEntry(b, others, 0, s, entry, None); }
          var o := EntryAmong(b, others, 0, s, entry, None);
          t := o.state;
          r := Single(o.reply);
        }
    }
  }

  ghost predicate AreEntriesOf(entries: seq<WireEntry>, elements: seq<Element>) {
    |entries| == |Objects(elements)| && forall i | 0 <= i < |entries| :: entries[i] == EntryOf(Objects(elements)[i])
  }
}
