# A verified model of the aria2 Rust port's stateful core

A Dafny 4.11 model of the small components of aria2 whose behaviour is hard to see from any one
function body: the RPC mutation gate and the batch dispatcher above it, the C callback listener,
the notification batcher and the event publisher, the rotating log writer, the wire codecs
(XML-RPC, XML escaping, Base64, percent-coding, URI lists) and the configuration store. All
members are proved by Dafny; `dafny verify dfyconfig.toml` checks the whole project. Nothing here
runs the original program.

## How the modules follow the program

| module | models |
|---|---|
| `MutationGate`, `MutationGateProgress` | ticket counter, turn, `Notify` and mutex as a transition system over any number of requests, with one step per atomic access, per creation of a `Notified`, per `notify_waiters`, per lock and unlock, and cancellation wherever a future is suspended |
| `JsonValue`, `JsonRpc`, `RpcEngine`, `OtherClients`, `RequestMeaning`, `BatchDispatch` | the JSON-RPC envelope, one request, `system.multicall`, and the dispatcher of batches; the backend is an uninterpreted state machine, which other clients may change before every backend call, those of one multicall included |
| `SerialBodies`, `SerialMutations`, `SerialReplies`, `SerialProgress` | the gate together with the bodies that run under it: a transition system in which jobs advance on a shared state one step at a time; with the jobs of real requests, which call the backend while others do what they like to it; finite and infinite runs |
| `CallbackQuiescence`, `CallbackProgress`, `CallbackDelivery` | `CDownloadEventListener` and the registration's `Drop`, with one step per lock, unlock, wait and notification, and spurious wake-ups |
| `NotificationBatcher`, `EventPublisher` | the queue-and-map batcher; the subscriber registry with one bounded lossy channel per subscriber |
| `RotatingLog` | the log writer over a file-system map, with a journal of the operations performed |
| `XmlEscape`, `XmlEvents`, `XmlText`, `XmlRpc`, `XmlRendering`, `XmlOrigin`, `XmlRoundTrip`, `XmlInputs`, `XmlCodec`, `JsonXml` | XML-RPC printing and parsing: the specification as functions on event lists, the loops over a mutable reader and a list of lines in `XmlCodec`, and the conversion to and from JSON |
| `Base64`, `PercentCoding`, `UriList` | the permissive Base64 decoder, percent-decoding, the URI list file |
| `Config`, `ConfigStore`, `ConfigInputs` | what each kind of change does to the option store; the parser and the manager as classes |
| `Strings`, `Numerals`, `Collections`, `Wrappers` | text functions of the Rust library, numerals, and shared small facts |

Methods with loops are proved equal to a specification function; the properties are then proved
of that function, or of every run of a transition system.

## Properties that fail, and when they hold

- A reserved mutation ticket is **not** always served: a waiter dropped before it gets its turn
  leaves its ticket in the queue for ever. `SomeTicketIsNeverServed` is a fair run in which that
  happens. `ServedIffNotAbandoned` gives the exact condition: in every fair run a ticket is served
  if and only if no request up to it is dropped while waiting.
- The backend is **not** always in the state that the gated requests, one after the other, lead to:
  methods outside the mutating class run without the turn, and `aria2.evictDhtNodes` is one of
  them although it changes the DHT engines (`aria2/src/app/rpc_backend/query.rs:624-640`);
  `EvictionIsNotSerial` shows it. `SerialExactly` gives the exact condition: for any set of methods
  called without the turn, all runs are serial if and only if none of these methods ever changes
  the backend. What needs no condition: the calls of gated requests never interleave
  (`CallsNeverInterleave`), and every request that is served is answered under its own id
  (`ServedIsAnswered`).
- A printed XML-RPC request is **not** always parsed back unchanged. `RequestRoundTrip` gives the
  exact condition, for every request: its name is not empty; in the name and the text of dates,
  which are printed unescaped, every end tag closes the innermost open element and none is left
  open (`WellNested`; text without `<` is); and the parameters hold integers of 32 bits, no
  doubles, and strings and non-empty member names without the five escaped characters.
  `AmpersandStaysEscaped` and `LargeIntegerShiftsParameters` show two losses.
- A JSON value converted to XML-RPC and back is itself if and only if all its numbers are signed
  64-bit integers (`JsonRoundTrip`).
- Two notifications can share a deduplication key although gid and method differ
  (`ColonsCollide`). Two methods can be confused, for some gids, if and only if one of them ends in
  a colon and the other (`MethodsCollideExactly`), so the six methods of aria2 never are.
- A cumulative option does **not** always hold just the accepted values. `KeepsAcceptedExactly`
  gives the exact condition on the history: no overriding change comes after an accepted value,
  and no default was loaded while the option was untouched, unless a later change overrides it.
  `DefaultIsNotReplaced` is a history in which it fails, for an option with a default like
  `bt-tracker-source` (`aria2-core/src/config/option_definitions/bittorrent.rs:343-350`): the
  accepted values follow the default instead of taking its place. `ContributionsAre` says, of every
  history, what an option is made up of.

## Where the code and its own words differ

- `aria2-core/src/config/parser.rs:396-399` says that the generic proxy variables have the lowest
  priority among the environment sources. They are applied last and win, and they are recorded as
  coming from the command line (`StartupPrecedence`). The same function says that environment
  variables override the configuration file; for a cumulative option they are appended to it.
- `aria2-rpc/src/websocket.rs:409-413` speaks of an auto-flush. The batch that `push` flushes is
  counted as sent, but its value is thrown away; `Push` keeps it apart in `discarded`.
- `aria2-core/src/config/mod.rs:156-157` calls `@file` on the command line a reference to a URI
  list. The file is read as a configuration file.
- An argument of the command line that is no option is skipped together with the argument after it
  (`aria2-core/src/config/parser.rs:261-264`), even if that is an option (`PositionalHidesNext`).
- `aria2-rpc/src/engine.rs:267-282` loads the turn a second time under the gate. The second load
  never disagrees with the first (`SecondLoadNeverFails`).

## Model

| member | source | states |
|---|---|---|
| MutationGate.TicketNamesTurn | aria2-rpc/src/engine.rs:263-271 | with fewer than 2^64 requests pending, the wrapped 64-bit turn equals a waiter's ticket exactly when it is that waiter's turn |
| MutationGate.StepKeepsInv | aria2-rpc/src/engine.rs:201-216 | every atomic step of any request keeps the gate's invariant: who may be in which phase, who holds the mutex, which wake-ups are on the way, which bodies have started |
| MutationGate.ReserveKeepsInv | aria2-rpc/src/engine.rs:263-265 | so does every new reservation, wrap-around of the counter included |
| MutationGate.CancelKeepsInv | aria2-rpc/src/engine.rs:207-216 | so does dropping a future wherever it is suspended |
| MutationGate.RunKeepsInv | aria2-rpc/src/engine.rs:201-296 | the invariant holds at every moment of every interleaving |
| MutationGate.MutualExclusionInTicketOrder | aria2-rpc/src/engine.rs:201-216 | in every reachable state at most one mutation body runs, the bodies that started are tickets 0, 1, 2, … with none skipped or repeated, and the value `Drop` swaps out is its own ticket, so the `debug_assert` holds |
| MutationGate.SecondLoadNeverFails | aria2-rpc/src/engine.rs:267-282 | once a waiter has the gate, the turn it loaded before is still its own: the branch that gives the gate back is never taken |
| MutationGateProgress.NoWakeupIsLost | aria2-rpc/src/engine.rs:267-282 | a sleeping waiter whose turn has come has already been notified, or its predecessor is about to notify it |
| MutationGateProgress.FrontCanStep | aria2-rpc/src/engine.rs:267-296 | while a reserved ticket is unserved and its owner has not been dropped, the holder of the gate or the owner of the turn can take a step |
| MutationGateProgress.NobodyHinders | aria2-rpc/src/engine.rs:201-282 | no step of anyone else raises the number of steps left before the turn is handed on |
| MutationGateProgress.TurnIsHandedOn | aria2-rpc/src/engine.rs:207-216 | in every weakly fair run the turn is handed on, whatever else arrives, unless its owner is dropped |
| MutationGateProgress.EventuallyServed | aria2-rpc/src/engine.rs:263-296 | in every weakly fair run without dropped predecessors a reserved ticket is served |
| MutationGateProgress.LostTicketBlocks | aria2-rpc/src/engine.rs:267-282 | once a waiter has been dropped, no later request ever runs its body |
| MutationGateProgress.ServedIffNotAbandoned | aria2-rpc/src/engine.rs:263-296 | in every weakly fair run a reserved ticket is served if and only if no request up to it is ever dropped while waiting |
| MutationGateProgress.SomeTicketIsNeverServed | aria2-rpc/src/engine.rs:267-296 | there is a weakly fair run in which a reserved ticket is never served, because the one before it was dropped while it waited for the gate |
| JsonRpc.ParseWireObject | aria2-rpc/src/json_rpc.rs:375-431 | the one-pass loop over an object's members keeps the last value of each; a missing id, a method that is no string and params that are no array become error entries, in that order |
| JsonRpc.ParseWireDocument | aria2-rpc/src/json_rpc.rs:526-603 | one entry per object element of a batch, in element order; other elements are left out; a scalar is an invalid request, malformed text a parse error |
| JsonRpc.EntryKeepsId | aria2-rpc/src/json_rpc.rs:375-431 | whatever is wrong with an object, its entry carries the object's own id, null when absent |
| JsonRpc.LastValueExactly | aria2-rpc/src/json_rpc.rs:375-431 | of members with one name the last counts, and only a name that does not occur is missing |
| JsonRpc.RequestIsRead | aria2-rpc/src/json_rpc.rs:375-431 | an object that says id and method is the request it spells, whatever other members it has and in whatever order; without params it has none |
| JsonRpc.MalformedIsRefused | aria2-rpc/src/json_rpc.rs:375-431 | a missing id, a method that is no string and params that are no array are answered with codes -32600 and -32602, under the id if there is one |
| JsonRpc.CodesOfErrors | aria2-rpc/src/json_rpc.rs:40-67 | the code of each kind of error, and the message of authentication failures |
| JsonRpc.ObjectsKeepOrder | aria2-rpc/src/json_rpc.rs:526-537 | the object elements of a document keep their order, and the others leave no gap |
| RpcEngine.ReadsDoNotMutate | aria2-rpc/src/engine.rs:29-79 | no method is classified both read-only and mutating |
| RpcEngine.ExecuteRequest | aria2-rpc/src/engine.rs:354-458 | a success always carries a result, never an error, under the request's id |
| RpcEngine.MutationsHoldTheTurn | aria2-rpc/src/engine.rs:309-352 | in the trace of any request, alone or a multicall, a mutating backend call happens only between taking and giving back the turn, and the turn is never taken while held |
| RpcEngine.AnswerCall | aria2-rpc/src/engine.rs:546-604 | for every sub-call exactly one value is pushed; the case of a response with neither result nor error, which would push nothing, never occurs |
| OtherClients.HandleMulticall | aria2-rpc/src/engine.rs:491-605 | the loop with its snapshot, failures and early exits computes the specified outcome, state and trace, whatever other clients do before the snapshot and before each sub-call; if nobody acts, those of the multicall alone |
| OtherClients.EachCallIsAnswered | aria2-rpc/src/engine.rs:546-605 | whatever other clients do between the sub-calls: one result per sub-call in call order, a one-element array exactly when it succeeded on the state it met, its code and message otherwise |
| OtherClients.AnsweredAmongOthers | aria2-rpc/src/engine.rs:309-352 | whatever other clients do, a request's response has its id and exactly one of result and error |
| OtherClients.MutationsHoldTheTurnAmong | aria2-rpc/src/engine.rs:309-352 | whatever other clients do, a request makes mutating calls only between taking and giving back the turn |
| OtherClients.StillEntry | aria2-rpc/src/engine.rs:115-128 | if nobody else acts, an entry is handled as if it were alone |
| RpcEngine.MulticallAnswersEachCall | aria2-rpc/src/engine.rs:546-605 | one result per sub-call in call order: a one-element array exactly when that sub-call, on the state its predecessors left, succeeded, and its code and message otherwise |
| RpcEngine.SubcallMatchesRequest | aria2-rpc/src/engine.rs:309-352 | a sub-call gives the same backend state, result, code and message as the request it spells would on its own |
| RpcEngine.AnswersUnderOwnId | aria2-rpc/src/engine.rs:309-352 | every response has its request's id and exactly one of result and error |
| RpcEngine.UnauthorisedDoesNothing | aria2-rpc/src/engine.rs:329-334 | with a secret set, a request without it changes nothing, calls nothing, does not queue for the turn, and is told only that it is unauthorized |
| RpcEngine.SubcallsAreGuarded | aria2-rpc/src/engine.rs:572-585 | apart from the capture of a snapshot, the backend sees of a multicall exactly the sub-calls that carry the secret |
| RpcEngine.AuthorisedExactly | aria2-rpc/src/server/auth.rs:181-193 | authentication succeeds exactly if there is no secret, or it stands behind `token:` as the first positional parameter, or is the parameter named `token` |
| RequestMeaning.ListedMethodsAreHandled | aria2-rpc/src/backend.rs:51-136 | exactly the methods that the engine lists are handled, each in one way |
| RequestMeaning.TokenOpens | aria2-rpc/src/rpc_helpers.rs:234-257 | with the secret's token in front of its parameters a request is what it would be without them if there were no secret |
| RequestMeaning.TokenOpensSubcall | aria2-rpc/src/engine.rs:567-585 | so is a sub-call of a multicall |
| RequestMeaning.NamedTokenOpens | aria2-rpc/src/rpc_helpers.rs:249-256 | a token among named parameters is checked and left in place |
| RequestMeaning.OnlyListsAreOpen | aria2-rpc/src/engine.rs:329-334 | without the secret only the two lists of names are answered; every other request changes nothing and is told `Unauthorized` with code 1 |
| RequestMeaning.RequestIsExecuted | aria2-rpc/src/engine.rs:354-458 | an authorised request is parsed under its name, executed once against its view, and answered with the result or with the error's code and message |
| RequestMeaning.FixedIsAnswered | aria2-rpc/src/engine.rs:354-458 | the two lists, the version and the session are answered without the backend |
| RequestMeaning.UnknownMethodIsRefused | aria2-rpc/src/engine.rs:354-458 | a method that is not listed changes nothing and is answered with code 1 and its name |
| RequestMeaning.MulticallOfReads | aria2-rpc/src/engine.rs:528-545 | whatever other clients do: a multicall that names no mutating method takes no turn, captures one snapshot, and answers each call from it in order, or fails as a whole with the capture's error |
| RequestMeaning.MulticallWithMutation | aria2-rpc/src/engine.rs:81-96 | a multicall with a call that mutates or names no method holds the turn from beginning to end and answers each call live, in order |
| RequestMeaning.MulticallWithoutCalls | aria2-rpc/src/engine.rs:497-526 | without a list of calls it is refused with code 1, missing and wrong parameters told apart |
| RequestMeaning.MulticallByName | aria2-rpc/src/engine.rs:510-521 | among named parameters the list is `p0`; such a multicall takes the turn whatever its calls are |
| RequestMeaning.RefusedCalls | aria2-rpc/src/engine.rs:548-571 | what is no object, names no method or is a multicall again is refused where it stands |
| RequestMeaning.MissingParametersAreNone | aria2-rpc/src/engine.rs:572-575 | a sub-call without a list of parameters has none |
| SerialBodies.ActionKeepsInv | aria2-rpc/src/engine.rs:284-296 | whatever the bodies under the gate do: every arrival, step and drop keeps state, jobs and calls those of running the jobs one after the other in ticket order |
| SerialBodies.ServedIsComplete | aria2-rpc/src/engine.rs:207-216 | a body whose turn has been handed on has done all its work, unless it was dropped in the middle |
| SerialBodies.RunIsSerial | aria2-rpc/src/engine.rs:284-352 | the same over whole runs, for any bodies: the state and the calls made are those of the serial execution, and calls of different tickets never interleave |
| SerialMutations.BodyIsHandling | aria2-rpc/src/engine.rs:284-296 | the steps of a body left to itself, one backend call per step, are the request's handling under the turn: same state, reply and calls |
| SerialMutations.OthersLeaveNoTrace | aria2-rpc/src/engine.rs:309-352 | whatever others do in a run, if it leaves the state it meets as it is, state, jobs and calls are those of the run of gate and bodies alone |
| SerialMutations.CallsNeverInterleave | aria2-rpc/src/engine.rs:284-352 | for every backend, in every interleaving and whatever others do to the backend: the calls of gated requests come in ticket order, those of one never between those of another, and only from requests that have had their turn or have it |
| SerialMutations.MutationsAreSerial | aria2-rpc/src/engine.rs:284-352 | in every interleaving in which what others do leaves the state it meets as it is: the backend has the state, and has seen the calls, of the gated requests performed one after the other in ticket order, each as far as it has got; a request that was not dropped has replied what it would have alone after its predecessors |
| SerialMutations.SerialExactly | aria2-rpc/src/engine.rs:52-79 | for any set of methods called without the turn: all runs, from any state, are serial in state and calls if and only if no call of these methods ever changes the backend |
| SerialMutations.EvictionIsNotSerial | aria2-rpc/src/engine.rs:395 | where `aria2.evictDhtNodes` changes anything, not all runs are serial |
| SerialMutations.UngatedRequestsOnlyRead | aria2-rpc/src/engine.rs:309-352 | a request that takes no ticket makes no mutating call |
| SerialMutations.ServedRunIsSequential | aria2-rpc/src/engine.rs:284-352 | once all turns are handed on, if nothing was dropped and nobody disturbed the run, state and replies are those of handling the requests one at a time |
| SerialReplies.ServedIsAnswered | aria2-rpc/src/engine.rs:309-352 | for every backend, in every interleaving and whatever others do: a gated request that has handed on its turn and was not dropped in the middle has replied under its own id and with exactly one of result and error |
| SerialProgress.FinishedExactly | aria2-rpc/src/engine.rs:263-296 | in every weakly fair infinite run, whatever others do: a gated request that has arrived finishes if and only if it is never dropped, nor any earlier one while it waits |
| SerialProgress.EventuallyAnswered | aria2-rpc/src/engine.rs:284-352 | such a request ends, for good, with a reply under its own id and with one outcome |
| SerialProgress.EventuallyReplied | aria2-rpc/src/engine.rs:284-352 | if nobody disturbs the run, it ends, for good, with the very reply it would have got alone after its predecessors |
| BatchDispatch.ReadLeavesNoTrace | aria2-rpc/src/engine.rs:115-128 | a read-only or malformed entry leaves the backend alone and answers from a snapshot as it does live |
| BatchDispatch.ReadsNeedNoTurn | aria2-rpc/src/engine.rs:29-50 | a read-only entry neither takes the turn nor calls a mutating method |
| BatchDispatch.SnapshotAnswersAlike | aria2-rpc/src/engine.rs:531-545 | a multicall of read-only methods answers from its snapshot as it would live and changes nothing |
| BatchDispatch.DispatchReadOnlyRun | aria2-rpc/src/engine.rs:130-159 | for every backend, whichever of the entries in flight finishes next and whatever other clients do before each step: never more than 64 are in flight, and every entry gets its answer in its place; if two entries use a snapshot, all are answered from the one that was captured, or all fail with the capture's error, and otherwise all are answered live; if nobody else acts and reads are faithful, the answers are those from one view of an unchanged backend, or all the error of a failed capture |
| BatchDispatch.DispatchWireEntries | aria2-rpc/src/engine.rs:161-187 | for every backend and whatever other clients do: one answer per entry, in order, under the entry's id and with one outcome; wherever entries in a row only read and two of them use a snapshot, all of them are answered from one capture; if nobody else acts and reads are faithful, answers and final state are the specified ones |
| BatchDispatch.BatchIsSequential | aria2-rpc/src/engine.rs:130-187 | the batch answers and leaves the backend exactly as if its entries had been executed one after the other, left to right |
| BatchDispatch.BatchAnswersEachEntry | aria2-rpc/src/engine.rs:115-187 | the specified batch, too, answers every entry in its place for every backend, failing captures included |
| BatchDispatch.DocumentIsAnswered | aria2-rpc/src/json_rpc.rs:526-537 | answers to the entries of a batch, in order, are answers to its object elements, in element order, each under that element's id |
| BatchDispatch.AnswerDocument | aria2-rpc/src/server/http_handlers.rs:274-291 | from a document to the body of its answer, for every backend and whatever other clients do: one response per object element, in element order, under its id and with one outcome; unreadable documents are answered under null; if nobody else acts, reads are faithful and captures succeed, the answer is that of sequential execution |
| CallbackQuiescence.StepKeepsInv | aria2-core/src/c_api/events.rs:36-51 | every step of an event thread keeps the mutex owner, the exact count and the sleeping finaliser's reason to be woken |
| CallbackQuiescence.OthersKeepInv | aria2-core/src/c_api/events.rs:53-66 | so does every step of the finaliser, every new event and every spurious wake-up |
| CallbackQuiescence.CounterIsExact | aria2-core/src/c_api/events.rs:36-66 | in every interleaving the counter is the number of threads inside the callback, never underflows, and is positive while the finaliser sleeps, unless a thread is about to notify it |
| CallbackQuiescence.NoCallbackAfterDrop | aria2-core/src/c_api/events.rs:136-142 | once `Drop` has returned no thread is inside the callback and none ever will be, whatever is still delivered |
| CallbackProgress.SomeoneCanMove | aria2-core/src/c_api/events.rs:57-66 | until `Drop` has returned some thread or the finaliser can take a step: no deadlock |
| CallbackProgress.OwnStepDescends | aria2-core/src/c_api/events.rs:71-100 | every step of a thread or the finaliser lowers a rank |
| CallbackProgress.DropReturns | aria2-core/src/c_api/events.rs:136-142 | from every reachable state, if no further event arrives and the condition variable does not wake up for nothing, `Drop` returns within a bounded number of steps, in whatever order threads and finaliser take them |
| CallbackProgress.MutexIsFreed | aria2-core/src/c_api/events.rs:30-34 | whoever holds the mutex lets go of it |
| CallbackProgress.CallbacksEnd | aria2-core/src/c_api/events.rs:45-51 | once disabled, the callbacks in flight run out, although events keep arriving |
| CallbackProgress.DropReturnsInFairRuns | aria2-core/src/c_api/events.rs:136-142 | in every strongly fair infinite run a `Drop` that has begun returns, with events arriving and spurious wake-ups happening for ever |
| CallbackProgress.SomeRunIsFair | aria2-core/src/c_api/events.rs:57-66 | there is such a run, in which the registration is dropped and events arrive for ever |
| CallbackDelivery.EnabledListenerCalls | aria2-core/src/c_api/events.rs:36-43 | a matching event that finds the listener enabled is inside the callback next, and counted; one that finds it disabled is not |
| CallbackDelivery.FirstEventIsCalled | aria2-core/src/c_api/events.rs:71-100 | on a live registration the first matching event is inside the callback after three steps |
| CallbackDelivery.NotMatchingNeverCalled | aria2-core/src/c_api/events.rs:78-99 | an event outside the scope never enters the callback |
| CallbackDelivery.MatchingEventIsCalledOnce | aria2-core/src/c_api/events.rs:36-51 | in every strongly fair infinite run each matching event comes to look whether the listener is enabled, and enters the callback then and never again if the finaliser has not disabled it, and otherwise never |
| CallbackDelivery.LiveRegistrationHearsAll | aria2-core/src/c_api/events.rs:71-100 | while the registration lives every matching event enters the callback exactly once, and leaves it |
| NotificationBatcher.SharedKeys | aria2-rpc/src/websocket.rs:418 | any two pairs of gid and method share a key exactly if they are equal or one method ends in a colon and the other, and the gids make up for the difference |
| NotificationBatcher.MethodsCollideExactly | aria2-rpc/src/websocket.rs:418 | for any two methods there are gids with which they are confused if and only if one ends in a colon and the other |
| NotificationBatcher.KeyNamesGidAndMethod | aria2-rpc/src/websocket.rs:137-144 | methods without colons give the same key exactly for the same gid and method, colons in gids notwithstanding |
| NotificationBatcher.KnownMethodsHaveNoColon | aria2-rpc/src/websocket.rs:66-76 | the six method names contain no colon |
| NotificationBatcher.ColonsCollide | aria2-rpc/src/websocket.rs:418 | a method with a colon can share its key with another gid and method |
| NotificationBatcher.GidIsRead | aria2-rpc/src/websocket.rs:137-147 | the gid of a notification is the text `gid` of its first parameter, empty if there is none |
| NotificationBatcher.KeysAreExactlyPushed | aria2-rpc/src/websocket.rs:414-430 | the queue of any history of pushes has no duplicates and holds exactly the keys with a latest event |
| NotificationBatcher.KeysQueueByFirstPush | aria2-rpc/src/websocket.rs:420-430 | keys queue in the order of their first push, wherever their last push falls |
| NotificationBatcher.LatestIsLast | aria2-rpc/src/websocket.rs:420-431 | what a key's place in the batch holds is the last event pushed under it |
| NotificationBatcher.NotificationBatcher.FlushInternal | aria2-rpc/src/websocket.rs:457-470 | a flush yields, for each distinct key in first-push order, the last event pushed under it, and empties queue and map |
| NotificationBatcher.NotificationBatcher.Push | aria2-rpc/src/websocket.rs:414-439 | after a push the batch is the one of the longer history, or it was full, has been counted as sent and is thrown away; pushes = sent + deduplicated + pending |
| NotificationBatcher.NotificationBatcher.MaybeFlush | aria2-rpc/src/websocket.rs:447-454 | flushes exactly when the interval has elapsed and something waits, and hands the batch to the caller |
| EventPublisher.Channel.Recv | aria2-rpc/src/websocket.rs:192-204 | each result is the next accepted event or the number of events lost because more than the capacity were waiting; together the results account for every accepted event in order |
| EventPublisher.EventPublisher.Subscribe | aria2-rpc/src/websocket.rs:230-256 | a fresh channel under the id; a registration it replaces loses its sender |
| EventPublisher.EventPublisher.Unsubscribe | aria2-rpc/src/websocket.rs:277-283 | removes the id's registration, whose channel can then be drained and closes |
| EventPublisher.EventPublisher.Drop | aria2-rpc/src/websocket.rs:206-212 | removes the registration of its id and its receiver |
| EventPublisher.EventPublisher.Publish | aria2-rpc/src/websocket.rs:292-318 | every registered channel has been sent exactly the events its filter accepts among those published since it registered, and the result is the number of registered subscribers that accept this one |
| EventPublisher.CountIsCardinality | aria2-rpc/src/websocket.rs:301-317 | counting along any order of the hash map gives the number of accepting subscribers |
| EventPublisher.OnlyAcceptedAreKept | aria2-rpc/src/websocket.rs:302-315 | what a channel is sent of a history is exactly the accepted part: a rejected event never takes a place in its buffer |
| EventPublisher.AcceptedByKind | aria2-rpc/src/websocket.rs:301-307 | without a filter everything is accepted, with one the events whose kind it contains, in their order |
| EventPublisher.CapacityIsPowerOfTwo | aria2-rpc/src/websocket.rs:249 | a channel holds the least power of two of events that is not below the capacity asked for |
| EventPublisher.ReceivedInOrder | aria2-rpc/src/websocket.rs:193-204 | lagged or not, received events stand at strictly increasing positions among the accepted ones |
| EventPublisher.DrainedWithoutLagReceivedAll | aria2-rpc/src/websocket.rs:193-204 | a subscriber that has not lagged has received exactly the accepted events up to its position, in order |
| RotatingLog.AfterPrefix | aria2-core/src/log.rs:82-112 | the descending chain of renames is, after every one of its operations, a simultaneous shift by one of the slots reached so far |
| RotatingLog.InterruptedRotationKeepsSuffix | aria2-core/src/log.rs:82-112 | a rotation interrupted after any operation keeps everything, or everything but the oldest file, in order, and touches no other file |
| RotatingLog.RotationKeepsHistory | aria2-core/src/log.rs:82-112 | at every moment the files from oldest to newest, then the active file, spell a suffix of everything ever logged |
| RotatingLog.NoSlotBeyondLimit | aria2-core/src/log.rs:89-98 | no rotated file beyond `max_files` is ever created |
| RotatingLog.SlotsAreDistinct | aria2-core/src/log.rs:74-78 | the active path and the numbered paths are all different |
| RotatingLog.RotatedNames | aria2-core/src/log.rs:74-78 | rotated files are called after the log, with a dot and their number |
| RotatingLog.SizeRotatingWriter.constructor | aria2-core/src/log.rs:61-71 | opening resumes whatever log it finds: nothing is lost, the size is the file's, and at least one rotated file is kept |
| RotatingLog.SizeRotatingWriter.Rotate | aria2-core/src/log.rs:82-112 | afterwards all slots have moved up by one at once, the oldest is gone and the active file is empty |
| RotatingLog.SizeRotatingWriter.Write | aria2-core/src/log.rs:116-131 | rotates exactly when a non-empty file would overflow; the log stays a suffix of the history, and the active file fits `max_size` or is a prefix of this record |
| XmlEscape.ChainIsOnePass | aria2-rpc/src/xml_rpc.rs:183-189 | the five chained replacements equal one substitution per character |
| XmlEscape.UnescapeInvertsEscape | aria2-rpc/src/xml_rpc.rs:183-189 | an entity decoder undoes escaping on every string |
| XmlEscape.EscapedHasNoMarkup | aria2-rpc/src/xml_rpc.rs:183-189 | every markup character left is an ampersand that begins an entity |
| XmlEscape.EscapeIsIdentityOnPlain | aria2-rpc/src/xml_rpc.rs:183-189 | escaping changes nothing exactly when none of the five characters occurs |
| XmlEscape.BareAmpersandIsRefused | aria2-rpc/src/xml_rpc.rs:513-519 | a text with an ampersand that begins none of the five entities is refused |
| XmlText.LexInvertsRender | aria2-rpc/src/xml_rpc.rs:320-333 | events without markup in their text and without adjacent texts are read back from their rendering |
| XmlText.RenderInvertsLex | aria2-rpc/src/xml_rpc.rs:424-427 | writing down what was read gives the document again |
| XmlText.ReadTextStands | aria2-rpc/src/xml_rpc.rs:424-427 | raw text read from an element of any document stands there up to the end tag, and is read back unchanged from an element of its own |
| XmlText.ClosedTextIsSound | aria2-rpc/src/xml_rpc.rs:193-203 | whatever an unescaped text contains, a reader gets through it up to the end tag printed behind it |
| XmlText.SelfContainedExactly | aria2-rpc/src/xml_rpc.rs:424-427 | a text is read back whole from its element if and only if its own markup is complete: every end tag closes the innermost open element and none is left open; the tag does not matter |
| XmlText.PlainTextIsWellNested | aria2-rpc/src/xml_rpc.rs:424-427 | text without `<` is complete |
| XmlRendering.PrintedCallIsRead | aria2-rpc/src/xml_rpc.rs:191-232 | a reader gets exactly the intended events from any printed request, whatever its texts contain and at any nesting |
| XmlOrigin.ParsedIsFromWire | aria2-rpc/src/xml_rpc.rs:620-668 | a request parsed from any document whatsoever has no doubles, and a name and dates whose markup is complete |
| XmlRoundTrip.ValueIsRead | aria2-rpc/src/xml_rpc.rs:460-536 | a printed value of any shape and nesting is parsed to its normal form, or to nothing, and the reader stops right behind it |
| XmlRoundTrip.MembersAreRead | aria2-rpc/src/xml_rpc.rs:563-618 | the members of a printed structure are read in order; those without a name or a value are left out |
| XmlRoundTrip.PrintedCallParses | aria2-rpc/src/xml_rpc.rs:620-668 | what a printed request is parsed to, an empty method name being refused, if the markup in its unescaped texts is complete |
| XmlRoundTrip.NormIsExact | aria2-rpc/src/xml_rpc.rs:419-458 | a value keeps its identity exactly when it is faithful: 32-bit integers, no doubles, dates whose markup is complete, plain strings and non-empty plain names throughout |
| XmlRoundTrip.WideIntegerIsRead | aria2-rpc/src/xml_rpc.rs:438-440 | every 64-bit integer is read under `i8`, white space around it or not |
| XmlRoundTrip.ShortIntegerIsRead | aria2-rpc/src/xml_rpc.rs:430-437 | under `int` and `i4` a 64-bit integer is a value exactly if it fits 32 bits |
| XmlRoundTrip.ImplicitStringIsUnescaped | aria2-rpc/src/xml_rpc.rs:520-531 | text directly inside a value is unescaped, so that any non-empty string written there escaped is read back |
| XmlInputs.TruthIsRead | aria2-rpc/src/xml_rpc.rs:441-445 | with any white space around it, `1` and `true` are read as true, `0` and `false` as false, and any other text as no value |
| XmlInputs.BlankIsNoTruth | aria2-rpc/src/xml_rpc.rs:441-445 | white space alone is no truth value |
| XmlInputs.IntegerIsRead | aria2-rpc/src/xml_rpc.rs:430-440 | under `int`, `i4` and `i8` digits with either sign or none, and white space around them, are the integer if it fits the type |
| XmlInputs.DigitsMean | aria2-rpc/src/xml_rpc.rs:430-440 | leading zeros do not count |
| XmlInputs.OtherTextIsNoInteger | aria2-rpc/src/xml_rpc.rs:430-440 | text that is not digits behind at most one sign is no integer |
| XmlInputs.TextIsKept | aria2-rpc/src/xml_rpc.rs:446-452 | strings and doubles are the text of their element as it stands, and so are dates |
| XmlInputs.EmptyElementIsRead | aria2-rpc/src/xml_rpc.rs:493-508 | what each empty element is |
| XmlInputs.OtherEmptyElementIsNone | aria2-rpc/src/xml_rpc.rs:500-508 | empty numbers, truth values and unknown elements are no values |
| XmlInputs.EmptyValueIsNone | aria2-rpc/src/xml_rpc.rs:520-531 | a value with nothing in it is none |
| XmlInputs.ElementIsNoValue | aria2-rpc/src/xml_rpc.rs:487-491 | an element whose text is no value of its type leaves the value empty and the reader behind it |
| XmlInputs.ScalarIsPrinted | aria2-rpc/src/xml_rpc.rs:191-211 | the printed forms of values without parts |
| XmlInputs.ArrayIsPrinted | aria2-rpc/src/xml_rpc.rs:212-219 | items stand on lines of their own, two columns further in |
| XmlInputs.StructIsPrinted | aria2-rpc/src/xml_rpc.rs:220-233 | names and values of members stand on lines of their own, the member's end no further in than the structure |
| XmlInputs.RequestIsPrinted | aria2-rpc/src/xml_rpc.rs:320-333 | a request with its declaration, each part on a line of its own |
| XmlInputs.LinesAreIndented | aria2-rpc/src/xml_rpc.rs:192 | a line begins with as many blanks as it is indented |
| XmlRoundTrip.RequestRoundTrip | aria2-rpc/src/xml_rpc.rs:320-333 | any request is read back unchanged from its printed form if and only if its name is not empty, the markup in its name is complete, and all its parameters are faithful |
| XmlRoundTrip.AmpersandStaysEscaped | aria2-rpc/src/xml_rpc.rs:446-449 | a string parameter `&` comes back as `&amp;` |
| XmlRoundTrip.LargeIntegerShiftsParameters | aria2-rpc/src/xml_rpc.rs:430-437 | an integer outside 32 bits vanishes and the next parameter takes its place |
| XmlCodec.ValueToXml | aria2-rpc/src/xml_rpc.rs:191-232 | pushing lines and joining them prints the value |
| XmlCodec.RequestToXml | aria2-rpc/src/xml_rpc.rs:320-333 | pushing lines and joining them prints the request |
| XmlCodec.ParseXmlValue | aria2-rpc/src/xml_rpc.rs:460-536 | the loop over the reader yields the specified value, or nothing, and leaves the reader behind the value |
| XmlCodec.ParseXmlArray | aria2-rpc/src/xml_rpc.rs:538-561 | the same for arrays |
| XmlCodec.ParseXmlStruct | aria2-rpc/src/xml_rpc.rs:563-618 | the same for structures |
| XmlCodec.ParseXmlRequest | aria2-rpc/src/xml_rpc.rs:620-668 | the loop over a document yields the specified request or error |
| JsonXml.ToJsonValue | aria2-rpc/src/xml_rpc.rs:242-272 | the loops over items and members build the specified JSON value, the later of two members with one name winning |
| JsonXml.FromJsonValue | aria2-rpc/src/xml_rpc.rs:274-303 | in whatever order an object's entries come, each becomes one member |
| JsonXml.ThereAndBack | aria2-rpc/src/xml_rpc.rs:242-303 | the way back gives the value with its other numbers as text, independently of the order of members |
| JsonXml.JsonRoundTrip | aria2-rpc/src/xml_rpc.rs:242-303 | the conversion is undone if and only if all numbers, at any depth, are signed 64-bit integers |
| JsonXml.OtherTypesBecomeText | aria2-rpc/src/xml_rpc.rs:246-258 | binary data become text from which they are decoded again, dates and doubles the text they are |
| Base64.DecodeInvertsEncode | aria2-rpc/src/xml_rpc.rs:204-207 | the standard encoding of any bytes is decoded to them |
| Base64.EncodeInvertsDecode | aria2-rpc/src/rpc_helpers.rs:58-60 | whatever the strict decoder accepts is the encoding of what it yields |
| Base64.DecodesExactly | aria2-rpc/src/rpc_helpers.rs:20-61 | for every input: non-empty data come out exactly when the input without foreign bytes is their encoding, followed by anything if padded and by at most one alphabet character if not |
| Base64.ForeignBytesAreSkipped | aria2-rpc/src/rpc_helpers.rs:23-36 | foreign bytes anywhere in an encoding do not disturb it |
| Base64.SymbolsAreInOrder | aria2-rpc/src/xml_rpc.rs:204-207 | the alphabet of RFC 4648 in its order |
| Base64.ExamplesOfTheStandard | aria2-rpc/src/xml_rpc.rs:204-207 | the first examples of section 10 of RFC 4648 |
| PercentCoding.PercentDecode | aria2-rpc/src/rpc_helpers.rs:65-83 | the index loop decodes every well-formed escape and copies everything else |
| PercentCoding.DecodeInvertsEncode | aria2-rpc/src/rpc_helpers.rs:65-92 | every encoding that escapes at least the percent signs, in digits of either case, is decoded to the original bytes |
| PercentCoding.DecodeIsIdentity | aria2-rpc/src/rpc_helpers.rs:65-83 | an input is left alone exactly when it contains no well-formed escape |
| PercentCoding.EscapesAreHexadecimal | aria2-rpc/src/rpc_helpers.rs:65-92 | an escape is the byte whose hexadecimal digits it shows, the high one first, in either case |
| UriList.UriListFile.Parse | aria2-core/src/config/uri_list.rs:81-138 | the line loop appends the specified entries to those already there |
| Strings.LinesAreCut | aria2-core/src/config/uri_list.rs:86 | lines end at a line feed, together with one carriage return before it |
| Strings.WhiteSpaceCharacters | aria2-core/src/config/uri_list.rs:87 | what is trimmed are the 25 characters with the Unicode property White_Space |
| UriList.AllUrisAreTheTokens | aria2-core/src/config/uri_list.rs:153-158 | for every input the URIs of all entries are, in order, the tab-separated tokens of the unindented non-comment lines: none lost, invented, doubled or moved |
| UriList.EntriesAreValid | aria2-core/src/config/uri_list.rs:130-135 | every entry has a URI |
| UriList.BlockIsRead | aria2-core/src/config/uri_list.rs:86-128 | the lines of a block make its entry, options before the URI line going to an entry under way if there is one |
| UriList.EntriesRoundTrip | aria2-core/src/config/uri_list.rs:81-138 | entries written with their options before or after the URI line, in any order, with or without blank lines between, are read back |
| UriList.CommentSaysNothing | aria2-core/src/config/uri_list.rs:87-99 | a comment line, indented or not, changes nothing |
| UriList.BlankLineEnds | aria2-core/src/config/uri_list.rs:89-99 | a line of white space ends the entry under way and forgets options that belong to none |
| UriList.IndentedSetsOption | aria2-core/src/config/uri_list.rs:101-109 | behind a space or a tab, `name=value` sets an option, white space around either left out |
| UriList.IndentedWithoutEquals | aria2-core/src/config/uri_list.rs:101-109 | indented text without an equals sign says nothing |
| UriList.UriLineBegins | aria2-core/src/config/uri_list.rs:111-128 | any other line ends the entry under way and begins one with the tab-separated parts that are not blank |
| UriList.PartIsToken | aria2-core/src/config/uri_list.rs:111-128 | each part is taken without the white space around it |
| Config.SameKeys | aria2-core/src/config/parser.rs:73-163 | after any sequence of changes the value map and the source map have the same keys |
| Config.RejectedChangesNothing | aria2-core/src/config/parser.rs:78-87 | a change is rejected exactly when it records an error, and then changes no value and no source |
| Config.OthersUntouched | aria2-core/src/config/parser.rs:98-163 | a change leaves every option it does not touch alone |
| Config.AdditionIsStored | aria2-core/src/config/parser.rs:98-163 | an accepted raw value takes the old one's place or joins it behind the delimiter, under the canonical name; an unknown name is kept as it is spelt; a refused value is recorded with its source |
| Config.ReplacementIsStored | aria2-core/src/config/parser.rs:73-92 | a typed value goes through its text, takes the old one's place and counts as coming from the command line |
| Config.ComplaintIsRecorded | aria2-core/src/config/parser.rs:217-223 | an option without its value is recorded as an error of the command line |
| Config.DefaultsFillGaps | aria2-core/src/config/parser.rs:369-384 | defaults go only where nothing is, and only to supported options that have one |
| Config.HistoryDecides | aria2-core/src/config/parser.rs:98-163 | every option holds exactly what the history of changes contributes to it, with the latest contribution's source |
| Config.LastValueWins | aria2-core/src/config/parser.rs:369-384 | an option that does not accumulate holds its last accepted value, else its default, whenever the defaults were loaded |
| Config.AccumulatesSince | aria2-core/src/config/parser.rs:109-136 | after the last overriding change everything accepted is added, in order |
| Config.ContributionsAre | aria2-core/src/config/parser.rs:98-163 | of every history: an option is made up of its default, if that was loaded while it was untouched and has not been overridden, and of everything accepted since it was last overridden, in order |
| Config.KeepsAcceptedExactly | aria2-core/src/config/parser.rs:109-136 | an option is made up of the accepted values and nothing else if and only if no overriding change comes after an accepted value and no default was loaded while it was untouched, unless overridden later |
| Config.ListHolds | aria2-core/src/config/parser.rs:118-126 | after any history a cumulative list holds the items of all that it is made up of, and is absent if that is nothing |
| Config.TextHolds | aria2-core/src/config/parser.rs:127-132 | the same for a cumulative text, joined with the delimiter |
| Config.CumulativeListHolds | aria2-core/src/config/parser.rs:118-126 | a cumulative list holds the items of the last replacement and of everything accepted since |
| Config.CumulativeTextHolds | aria2-core/src/config/parser.rs:127-132 | a cumulative text holds them joined with the delimiter |
| Config.AddedListHolds | aria2-core/src/config/parser.rs:109-152 | under the exact condition of `KeepsAcceptedExactly` a cumulative list holds the accepted items in order, and is absent if there are none |
| Config.AddedTextHolds | aria2-core/src/config/parser.rs:109-152 | the same for a cumulative text, joined with the delimiter |
| Config.DefaultedListHolds | aria2-core/src/config/parser.rs:369-384 | with its default loaded, anywhere in the history, before anything was accepted, a cumulative list holds the default's items followed by the accepted ones |
| Config.DefaultedTextHolds | aria2-core/src/config/parser.rs:369-384 | the same for a cumulative text |
| Config.DefaultIsNotReplaced | aria2-core/src/config/option_definitions/bittorrent.rs:343-350 | loading the defaults and then accepting a value leaves such an option with both |
| ConfigStore.ConfigParser.Set | aria2-core/src/config/parser.rs:73-92 | a typed set replaces under the canonical name or records an error |
| ConfigStore.ConfigParser.SetRawFrom | aria2-core/src/config/parser.rs:98-163 | a raw set merges into a cumulative option, replaces any other, keeps an unknown name as it is spelt, or records an error |
| ConfigStore.ConfigParser.ApplyDefaults | aria2-core/src/config/parser.rs:369-384 | in whatever order the definitions come, exactly the missing options with a default are filled |
| ConfigStore.ConfigParser.ParseFile | aria2-core/src/config/parser.rs:268-328 | the line loop makes the specified assignments, and every error it causes is tied to the line whose assignment was rejected |
| ConfigInputs.FileIsRead | aria2-core/src/config/parser.rs:268-328 | lines `name=value` with white space anywhere around, names alone, remarks and blank lines, in any order: exactly the assignments they spell, in order; booleans alone mean true, unsupported options and unknown names alone nothing |
| ConfigInputs.ConfFileIsRead | aria2-core/src/config/parser.rs:385-395 | the file that `conf-path` names is the one that is read |
| ConfigStore.ConfigParser.ParseEnvVars | aria2-core/src/config/parser.rs:330-338 | the loop over the variables sets the options named by those with the prefix |
| ConfigStore.VariableNamesOption | aria2-core/src/config/parser.rs:333-335 | the variable made of the prefix and an option's name in capitals with underscores names that option |
| ConfigInputs.EnvironmentIsInOrder | aria2-core/src/config/parser.rs:330-338 | variables count in their order |
| ConfigInputs.OtherVariablesSayNothing | aria2-core/src/config/parser.rs:330-338 | a variable without the prefix says nothing |
| ConfigStore.ConfigParser.ParseProxyEnvVars | aria2-core/src/config/parser.rs:350-367 | the loop over the five proxies sets the options of those that are set and not empty, a lower-case variable hiding the upper-case one |
| ConfigInputs.ProxiesAreRead | aria2-core/src/config/parser.rs:340-367 | the five proxies, each under its option's name if its variable is set and not empty, the lower-case variable first |
| ConfigStore.ConfigParser.ParseCliArgs | aria2-core/src/config/parser.rs:187-266 | the index loop over the arguments makes the specified changes and complaints, values taken from the next argument and files included |
| ConfigStore.AssignmentsAreAdds | aria2-core/src/config/parser.rs:191-199 | any list of options written as `--name=value` is read back as just these options, whatever the values contain |
| ConfigStore.SeparateValueIsTaken | aria2-core/src/config/parser.rs:210-228 | `--name value` means the same as `--name=value` for every option that is not boolean and every value that does not look like an option |
| ConfigStore.PositionalHidesNext | aria2-core/src/config/parser.rs:261-264 | an argument that is no option hides the argument after it |
| ConfigInputs.FlagTurnsOn | aria2-core/src/config/parser.rs:210-212 | `--name` turns a boolean option on |
| ConfigInputs.NegationTurnsOff | aria2-core/src/config/parser.rs:200-209 | `--no-name` turns it off, unless an option is called just that, which it turns on |
| ConfigInputs.NegationIgnoresValue | aria2-core/src/config/parser.rs:192-196 | so does `--no-name=value`, whatever the value |
| ConfigInputs.ValueIsMissing | aria2-core/src/config/parser.rs:213-228 | an option without its value is complained of if it is known, and set to nothing if it is not; the next argument is read on its own |
| ConfigInputs.ShortFlagTurnsOn | aria2-core/src/config/parser.rs:244-249 | `-c` turns a boolean option on |
| ConfigInputs.ShortOptionTakesValue | aria2-core/src/config/parser.rs:235-243 | `-c value` sets any other option |
| ConfigInputs.ShortOptionWithoutValue | aria2-core/src/config/parser.rs:250-257 | without a value it is complained of; an unknown short option says nothing |
| ConfigInputs.ReferenceReadsFile | aria2-core/src/config/parser.rs:259-260 | `@path` reads a configuration file |
| ConfigStore.ConfigParser.LoadDefaultsFirst | aria2-core/src/config/parser.rs:386-400 | defaults, the file they name, the environment and the proxy variables are applied in this order |
| ConfigStore.StartupPrecedence | aria2-core/src/config/parser.rs:386-400 | after start-up a non-cumulative option holds the generic proxy variable's value, else the environment's, else the file's, else its default |
| ConfigStore.ConfigManager.constructor | aria2-core/src/config/mod.rs:124-139 | a new manager serves what start-up, or the defaults alone, made of an empty store |
| ConfigStore.ConfigManager.SyncGlobal | aria2-core/src/config/mod.rs:178-183 | copying entry by entry makes the live map equal to the parser's |
| ConfigStore.ConfigManager.LoadFile | aria2-core/src/config/mod.rs:165-168 | the live map equals the parser's map, and both what the longer history makes of an empty store |
| ConfigStore.ConfigManager.LoadCli | aria2-core/src/config/mod.rs:158-162 | the same for a command line |
| ConfigStore.ConfigManager.LoadEnv | aria2-core/src/config/mod.rs:173-176 | the same for the environment's variables |
| ConfigStore.ConfigManager.SetGlobalOption | aria2-core/src/config/mod.rs:241-264 | an accepted value is in the live map and in the parser under the canonical name and is announced with the value it replaced; a rejected one changes nothing, not even the errors |
| ConfigStore.ConfigManager.SetTaskOption | aria2-core/src/config/mod.rs:307-323 | changes one option of one gid and no other gid's options |
| ConfigStore.ConfigManager.GetTaskDefault | aria2-core/src/config/mod.rs:296-305 | a gid's own value comes before the global one |
| ConfigStore.ConfigManager.GetTaskOptions | aria2-core/src/config/mod.rs:342-354 | all options at once say the same as asking one by one |
| ConfigStore.ConfigManager.RemoveTask | aria2-core/src/config/mod.rs:356-359 | the gid falls back to the global options, other gids keep theirs |

## Assumptions

- Memory orderings: atomic accesses are sequentially consistent; each is one step.
- `Notify`: a `Notified` created before `notify_waiters` is woken by it even if it was not polled.
- Fewer than 2^64 mutation requests are pending at once. The ticket arithmetic wraps, as it does
  without overflow checks.
- `BatchIsSequential`: no other client acts during the batch, read-only methods leave the backend
  as it is and answer from a snapshot as they answer live, and snapshots can be captured. That each
  entry is answered needs none of this. One backend call is one step.
- `DropReturnsInFairRuns`: the mutex is fair, that is, a thread that can lock it again and again
  does so in the end.
- A callback returns at some time, and fewer than 2^64 callbacks are in flight at once.
- The publisher's registry lock excludes `subscribe` and `Drop` from a `publish` in progress, but
  not another `publish`: two may overlap, each reaching the channels one by one. Each channel takes
  one event at a time, so what is said of a subscriber holds with the order of events of its own
  channel; two channels may then differ in that order. Subscription ids
  are distinct while in use for the accounting of a subscriber; re-use is modelled as replacement.
- Option registries are those `register` admits: canonical names only, and alias resolution is
  idempotent. Parsing and printing of an option value are uninterpreted functions.

## Left out

- EventPublisher.EventPublisher.Publish: one call at a time; of overlapping calls only the order within each channel is covered, by `Channel.Send`, not the return values and the order between channels.
- XmlRoundTrip.PrintedCallParses: of requests with incomplete markup in a name, date or double it is proved how they are tokenised (`PrintedCallIsRead`) and, for names and dates, that they do not come back (`RequestRoundTrip`), not what else they are parsed to.
- Sockets, HTTP and WebSocket framing, TLS, the tokio runtime and thread spawning.
- A finaliser run from inside its own callback, which would wait for itself.
- The parameter parsers of the individual RPC methods and the conversion of backend answers: one uninterpreted function each.
- `aria2.getTrackers`, `aria2.getDhtStatus`, `aria2.saveDhtState` and `aria2.evictDhtNodes` are neither read-only nor mutating in the source; they are modelled as they are, running without the turn.
- JSON text: documents are modelled after lexing, with the members of objects in text order.
- The differences from JSON-RPC 2.0 that aria2's wire format asks for (an object without an id is an error answered under null, an empty batch is answered with an empty array) follow the code.
- File-system failures: operations succeed, except that renaming a missing file does nothing; a write may accept only part of a record.
- Restarting the log with a smaller `max_files`, which leaves older rotated files behind.
- quick-xml internals: attributes, namespace prefixes, comments and CDATA sections when lexing, numeric character references, and, outside of text that is read raw, the check that end tags match. They matter only for documents that aria2 does not print; of the text printed unescaped, only for text that itself contains markup.
- A double is its printed text; formatting and parsing of floating-point numbers are not modelled.
- XML-RPC responses and faults: printed only, and by the same functions.
- `String::from_utf8_lossy` after percent-decoding: the model stops at the bytes.
- Names of environment variables are taken to be ASCII; the values are given in the order the environment lists them.
- `error_context` for errors that no file caused, and the list of sources that have been read.
- The builders of `NotificationBatcher`, `stats`, `valid_entries` and `filter_by_option`: easy members.
- The PID file, netrc, credential store, checksums, retry policy, user interface and the rest of the C API.
