# Verification of a charging station's OCPP stack, browser RPC and test framework

A Dafny model of three parts of the repository, with proofs of what they promise. Every file
belongs to the project; `dafny verify dfyconfig.toml` checks all of it.

## The OCPP-J runtime

`Json` is JSON text as RapidJSON prints and reads it. `RpcFrame` is the three message structures
of section 4.2 of OCPP-J 1.6 as the code splices and decodes them. `RpcBase` is one end of a
connection, with its queues, as classes. Three step systems put the ends into motion, each atomic
action of each thread being one step, in any order:

* `RpcPool`: any number of workers over one queue, and connections that start, receive, disconnect
  and stop (section 4.1.1 of OCPP-J 1.6 is about the order this must keep).
* `RpcCalls`: all the callers of one connection against a peer that answers late, repeatedly or
  never (sections 4.1.1 and 4.1.4).
* `RpcPeers`: two ends wired together and anybody injecting frames.

`MessageDispatcher` decides what a request is answered with. `RequestFifo` and `MessageSender` are
the store-and-forward of the charge point, with the drain of the FIFO and its copy in the database.
`WebsocketFactory` chooses the pool of a new client.

## The test framework

`Subcases` is the re-run traversal: a test body is a tree of subcases, `Leaves` is the reference, a
class with the framework's fields does the traversal. `Wildcard` is the glob matcher, `DocString`
the string with its small buffer, `CommaArgs` the tokeniser of options, `XmlWriter` the writer of
the XML reporter against a scanner for well-nested documents, `RangeExecution` the split of the
tests over several processes.

## The browser

`WebServer` is the JSON-RPC of the web server with its write buffers, `BrowserRpc` the client in the
browser and both together over a connection that may come and go. `UrlCodec` pairs the library's
percent encoding with the server's decoding.

## What the code does not keep

Each of these is a lemma; the condition under which the code does keep the property is proved with it.

* Identifiers, actions, codes and messages are spliced into frames without escaping. A frame means
  what was meant exactly if none of them needs an escape (`CallRoundTripIff`, `ResultRoundTripIff`,
  `ErrorRoundTripIff`, `AnswerReachesItsCall`).
* After 2^32 calls the transaction identifier has come round, and a late reply is taken for that of
  a later call; before, it never is (`StaleReplyIff`).
* Two or more workers may reorder the requests of one connection (`OrderIffOneWorker`).
* `processDisconnected` reads the owner of its connection three times, and nothing makes `stop` wait
  for it. If `stop` gives up the owner in between, the next read finds none, or the owner of a later
  session, which is then retired and unlocked instead. Runs without such a step, and without
  `processDisconnected` on a connection that was never started, are called orderly. No class of the
  repository starts a connection again while that callback may still be running, but the destructor
  of a client, which disconnects and stops it (3rdparty/ocpp/src/rpc/RpcServer.cpp:147-155), does not
  wait for the callback either (`SafeIffCareful`, `GuardIsLost`, `OvertakenDisconnectionBlocksThePool`).
* The web server sends its whole write buffer as one websocket frame. Whenever that holds more than
  one message, the browser cannot parse it and the calls it answers stay pending for ever. The
  commands that announce a change always queue the announcement before their own reply, so they
  never settle in the browser that sent them (`SettlesIffUncrowded`, `WhoAnnounces`).
* A hash of the path tells the framework which subcases are finished. Two siblings whose names
  differ by one in the last character and whose lines are 32 apart have the same hash, and the
  second one is silently never run (`SubcaseLostToCollision`, `EveryLeafExactlyOnce`).
* Subcase filters limited to fewer levels than the tree has can make the re-run loop endless or end
  it before all wanted leaves were run (`ShallowFilterNeverEnds`, `ShallowFilterLosesLeaf`,
  `FiltersActAsWantedIff`).
* The XML encoder protects `]]>` only from the fourth character of a text on, because it compares
  the index with `> 2`, and it lets U+000B, U+000C, U+FFFE and U+FFFF through, which section 2.2 of
  XML 1.0 forbids (`BracketsAtTheStart`, `VerticalTabIsLetThrough`, `WriteText`).
* The range script counts with the extra filters of its command line but does not hand them to the
  workers, which then execute the wrong tests (`ExtraFiltersIff`, `WrongTestExecuted`).
* Bytes from 128 on are encoded with eight hexadecimal digits and do not come back (`RoundTripIff`).

## Model

| member | source | states |
|---|---|---|
| `RpcPool.ProcessingIsGuarded` | 3rdparty/ocpp/src/rpc/RpcPool.cpp:60-74 | In every orderly run, a worker that processes a request holds the lock of the request's own session, which is operational and current; no two requests of one connection are processed at once |
| `RpcPool.StoppedConnectionIsLeftAlone` | 3rdparty/ocpp/src/rpc/RpcBase.cpp:244-293 | Once `stop` has passed its lock section in an orderly run, no worker ever processes a request of that session again, nor any of that connection before it is started again, however the run goes on |
| `RpcPool.ConnectionWithoutSessionIsLeftAlone` | 3rdparty/ocpp/src/rpc/RpcBase.cpp:244-276 | After an orderly run, no worker processes a request of a connection that has no session, however the run goes on, until it is started |
| `RpcPool.DeadStaysDead` | 3rdparty/ocpp/src/rpc/RpcBase.cpp:217-276 | In every run, a connection without an operational session gets none except by being started |
| `RpcPool.DisabledForever` | 3rdparty/ocpp/src/rpc/RpcBase.cpp:279-293 | In every run, a session's operational flag is never set again |
| `RpcPool.StepKeepsInv` | 3rdparty/ocpp/src/rpc/RpcPool.cpp:53-77 | Every step that is not careless, of any worker, connection or pool control, keeps the agreement between program counters, locks, flags, handles and queued requests |
| `RpcPool.RunKeepsInv` | 3rdparty/ocpp/src/rpc/RpcPool.cpp:36-113 | So does every orderly interleaving |
| `RpcPool.StepConserves` | 3rdparty/ocpp/src/rpc/RpcPool.cpp:53-113 | A step neither loses nor doubles a request; only a reception adds one |
| `RpcPool.EachRequestHasOneFate` | 3rdparty/ocpp/src/rpc/RpcPool.cpp:53-113 | In every run, each received request is in exactly one place, once: queued, carried by a worker, processed, dropped or flushed |
| `RpcPool.DropsAreJustified` | 3rdparty/ocpp/src/rpc/RpcPool.cpp:63-73 | In every run, a request is dropped only if it came without a session or for one that is no longer operational |
| `RpcPool.OneWorkerKeepsOrder` | 3rdparty/ocpp/src/rpc/RpcPool.cpp:53-77 | With pools of one worker, requests are processed in the order of their arrival, in every run |
| `RpcPool.SeveralWorkersMayReorder` | 3rdparty/ocpp/src/rpc/RpcPool.cpp:60-74 | With two workers or more, a run exists in which two requests of one connection are processed in the other order |
| `RpcPool.OrderIffOneWorker` | 3rdparty/ocpp/src/rpc/RpcPool.cpp:36-77 | Pools of n workers keep the order of arrival in all runs if and only if n is 1 |
| `RpcPool.StoppingUsesUpEffort` | 3rdparty/ocpp/src/rpc/RpcPool.cpp:94-101 | While the pool stops, each worker's step uses up a bounded effort and nobody adds to it |
| `RpcPool.StoppingNeverStuck` | 3rdparty/ocpp/src/rpc/RpcPool.cpp:94-101 | And where an orderly run leads, until all workers have exited, one of them or a holder of a lock can move |
| `RpcPool.SafeIffCareful` | 3rdparty/ocpp/src/rpc/RpcBase.cpp:244-293 | After an orderly run, a step keeps it so that nothing can crash and whatever is processed is guarded, if and only if the step is not careless: `stop` gives up the owner while `processDisconnected` is at work, or that is called without a session |
| `RpcPool.GuardIsLost` | 3rdparty/ocpp/src/rpc/RpcBase.cpp:279-293 | A run, not orderly, in which a session is retired while a worker processes a request of it |
| `RpcPool.AbandonedLockBlocks` | 3rdparty/ocpp/src/rpc/RpcPool.cpp:65-74 | A worker that waits for the lock of a session which an agent holds and no connection leads to waits for ever, and a pool that is being stopped never gets there |
| `RpcPool.OvertakenDisconnectionBlocksThePool` | 3rdparty/ocpp/src/rpc/RpcBase.cpp:279-293 | A run in which `stop` and `start` overtake `processDisconnected`: it retires the new session, never unlocks the old one, and the pool can never be stopped |
| `Json.ParsePrint` | 3rdparty/ocpp/3rdparty/rapidjson/include/rapidjson/reader.h:559-598 | Parsing what the writer prints gives the value back, for every value whose numbers are JSON numbers |
| `Json.ReadEscaped` | 3rdparty/ocpp/3rdparty/rapidjson/include/rapidjson/reader.h:991-1061 | A string that was escaped is read back, up to its closing quotation mark |
| `Json.TwoObjectsDoNotParse` | 3rdparty/ocpp/3rdparty/rapidjson/include/rapidjson/reader.h:576-586 | Two printed objects one after the other are not a document |
| `Json.PrintHasNoNul` | 3rdparty/ocpp/3rdparty/rapidjson/include/rapidjson/writer.h:383-440 | What the writer prints contains no NUL, so it survives being handled as a C string |
| `RpcFrame.CallRoundTrip` | 3rdparty/ocpp/src/rpc/RpcBase.cpp:81-87 | A CALL frame is decoded to the identifier, action and payload it was built from |
| `RpcFrame.ResultRoundTrip` | 3rdparty/ocpp/src/rpc/RpcBase.cpp:192-197 | A CALLRESULT frame is decoded to what it was built from |
| `RpcFrame.ErrorRoundTrip` | 3rdparty/ocpp/src/rpc/RpcBase.cpp:478-493 | A CALLERROR frame is decoded to what it was built from |
| `RpcFrame.CallRoundTripIff` | 3rdparty/ocpp/src/rpc/RpcBase.cpp:81-87 | It is if and only if identifier and action need no escape |
| `RpcFrame.ResultRoundTripIff` | 3rdparty/ocpp/src/rpc/RpcBase.cpp:192-197 | It is if and only if the identifier needs no escape |
| `RpcFrame.ErrorRoundTripIff` | 3rdparty/ocpp/src/rpc/RpcBase.cpp:478-493 | It is if and only if identifier, code and message need no escape |
| `RpcFrame.OnlyPlainReadsBack` | 3rdparty/ocpp/src/rpc/RpcBase.cpp:84-85 | A string spliced between quotation marks comes back only if it needs no escape, whatever follows it |
| `RpcFrame.ResultIsNoCall` | 3rdparty/ocpp/src/rpc/RpcBase.cpp:192-197 | A CALLRESULT frame is never decoded as a CALL, whatever is spliced into it |
| `RpcFrame.ErrorIsNoCall` | 3rdparty/ocpp/src/rpc/RpcBase.cpp:478-493 | Nor is a CALLERROR frame |
| `RpcBase.RpcBase.ProcessReceivedData` | 3rdparty/ocpp/src/rpc/RpcBase.cpp:296-389 | A received text has exactly the one effect its meaning calls for: one request queued, one reply queued, or one ProtocolError sent |
| `RpcBase.RpcBase.DecodeCall` | 3rdparty/ocpp/src/rpc/RpcBase.cpp:405-435 | A request is queued with its session, in the pool's queue if there is a pool, if and only if the types fit |
| `RpcBase.RpcBase.DecodeCallResult` | 3rdparty/ocpp/src/rpc/RpcBase.cpp:438-453 | A reply is queued if and only if the types fit |
| `RpcBase.RpcBase.DecodeCallError` | 3rdparty/ocpp/src/rpc/RpcBase.cpp:456-475 | An error reply is queued with its code and message if and only if the types fit |
| `RpcBase.RpcBase.ProcessIncomingRequest` | 3rdparty/ocpp/src/rpc/RpcBase.cpp:178-214 | A processed request has one reply frame sent, or none when it is rejected without a code |
| `RpcBase.RpcBase.SendCallError` | 3rdparty/ocpp/src/rpc/RpcBase.cpp:478-493 | Exactly one CALLERROR frame is sent |
| `RpcBase.AnswerReachesItsCall` | 3rdparty/ocpp/src/rpc/RpcBase.cpp:178-214 | There is exactly one reply frame unless a request is rejected without a code; it says what was decided about that request if and only if the identifier, and the code and message of a rejection, need no escape |
| `RpcBase.CallAndAnswer` | 3rdparty/ocpp/src/rpc/RpcBase.cpp:59-155 | What a caller sends is queued by its peer as that request, and the peer's answer is queued by the caller under the identifier it waits for |
| `RpcBase.RpcBase.Call` | 3rdparty/ocpp/src/rpc/RpcBase.cpp:59-155 | A call sends one frame with the current identifier, counts it up, and returns what the reply loop finds, leaving queued what that loop leaves |
| `RpcBase.AwaitTakesFirstOwn` | 3rdparty/ocpp/src/rpc/RpcBase.cpp:101-148 | The reply loop returns the first reply with its own identifier, drops exactly the replies before it, and leaves all later ones queued; it fails only on timeout, on a disabled queue, or when nothing is left |
| `RpcBase.IdTextInjective` | 3rdparty/ocpp/src/rpc/RpcBase.cpp:84-99 | Different transaction identifiers print differently |
| `RpcBase.RpcBase.Start` | 3rdparty/ocpp/src/rpc/RpcBase.cpp:217-241 | A session begins only if none is running: new identifier sequence, queues enabled, a new owner or a reception thread |
| `RpcBase.RpcBase.Stop` | 3rdparty/ocpp/src/rpc/RpcBase.cpp:244-276 | A session ends with both queues disabled and empty and its owner not operational; the pool's queue is left alone |
| `RpcBase.RpcBase.ProcessDisconnected` | 3rdparty/ocpp/src/rpc/RpcBase.cpp:279-293 | Both queues are disabled and the owner is not operational, but nothing queued is lost |
| `RpcBase.Queue.Pop` | 3rdparty/ocpp/src/tools/helpers/Queue.h:151-171 | A pop takes the first item, if the queue is enabled and not empty, and otherwise nothing |
| `RpcBase.Queue.Push` | 3rdparty/ocpp/src/tools/helpers/Queue.h:124-143 | A push appends, even while the queue is disabled |
| `RpcBase.Queue.Clear` | 3rdparty/ocpp/src/tools/helpers/Queue.h:174-184 | Clearing empties the queue and leaves it enabled or disabled |
| `RpcCalls.NoStaleReply` | 3rdparty/ocpp/src/rpc/RpcBase.cpp:69-154 | In every interleaving of callers and replies: at most one call is outstanding, every successful call returned a reply with its identifier, none returned twice; and as long as at most 2^32 identifiers were taken, the peer meant that reply for that very call |
| `RpcCalls.StepKeepsInv` | 3rdparty/ocpp/src/rpc/RpcBase.cpp:69-154 | Each step of a caller, of the peer or of a disconnection keeps the agreement between mutex, identifier, outstanding call and queued replies |
| `RpcCalls.StaleReplyIff` | 3rdparty/ocpp/src/rpc/RpcBase.cpp:113-118 | 2^32 is exactly the number of calls up to which no run returns a stale reply, whatever the first identifier |
| `RpcCalls.StaleReplyRun` | 3rdparty/ocpp/src/rpc/RpcBase.cpp:69-154 | A run whose call number 2^32 returns the late reply to call number 0 |
| `RpcCalls.IdsComeRound` | 3rdparty/ocpp/src/rpc/RpcBase.cpp:150-151 | Identifiers come round after 2^32 calls and not before |
| `RpcPeers.NoPingPong` | 3rdparty/ocpp/src/rpc/RpcBase.cpp:296-389 | With two ends wired together, each injected frame triggers at most two further frames and at most four further steps |
| `RpcPeers.StepPays` | 3rdparty/ocpp/src/rpc/RpcBase.cpp:178-214 | Every delivery and every served request pays for its frame and its step out of what is owed |
| `MessageDispatcher.MessageDispatcher.RegisterHandler` | 3rdparty/ocpp/src/messages/MessageDispatcher.cpp:41-67 | A registration succeeds exactly if the action has a schema and either has no handler yet or may be replaced; the registry keeps the winner of all attempts |
| `MessageDispatcher.WinnerIs` | 3rdparty/ocpp/src/messages/MessageDispatcher.cpp:45-58 | The winner is the last registration that was allowed to replace, or else the first one |
| `MessageDispatcher.MessageDispatcher.DispatchMessage` | 3rdparty/ocpp/src/messages/MessageDispatcher.cpp:74-109 | A message goes to the handler of its action after validation, or is refused with the standard code |
| `MessageDispatcher.Handle` | 3rdparty/ocpp/src/messages/GenericMessageHandler.h:51-76 | A generic handler succeeds exactly if both conversions and the handling do, and leaves the error code of the stage where it stopped |
| `MessageDispatcher.SilenceIsTheHandlers` | 3rdparty/ocpp/src/rpc/RpcBase.cpp:203-210 | A request stays unanswered exactly if its own handler stopped somewhere without giving a code; it never has more than one answer |
| `MessageDispatcher.UnknownActionIsReported` | 3rdparty/ocpp/src/messages/MessageDispatcher.cpp:102-106 | There is one answer to an unknown action, and the peer reads it as NotImplemented for its call if and only if the identifier needs no escape |
| `MessageDispatcher.InvalidPayloadIsReported` | 3rdparty/ocpp/src/messages/MessageDispatcher.cpp:95-100 | There is one answer to an invalid payload, and the peer reads it as TypeConstraintViolation for its call if and only if identifier and message need no escape |
| `RequestFifo.RequestFifo.Push` | 3rdparty/ocpp/src/ocpp16/chargepoint/requestfifo/RequestFifo.cpp:40-72 | A request is appended once, printed, with the next identifier, in memory and, once the queries exist, in the table |
| `RequestFifo.RequestFifo.Front` | 3rdparty/ocpp/src/ocpp16/chargepoint/requestfifo/RequestFifo.cpp:75-94 | The first entry is returned, and stays |
| `RequestFifo.RequestFifo.PopFront` | 3rdparty/ocpp/src/ocpp16/chargepoint/requestfifo/RequestFifo.cpp:97-112 | The first entry leaves memory and, once the queries exist, the table |
| `RequestFifo.RequestFifo.Load` | 3rdparty/ocpp/src/ocpp16/chargepoint/requestfifo/RequestFifo.cpp:145-177 | The rows of the table, in the order of their identifiers, become the FIFO, and the next identifier comes after the last one |
| `RequestFifo.RequestFifo.InitDatabaseTable` | 3rdparty/ocpp/src/ocpp16/chargepoint/requestfifo/RequestFifo.cpp:122-142 | The FIFO becomes persistent and takes over what the table has from earlier |
| `RequestFifo.RequestFifo.Reboot` | 3rdparty/ocpp/src/ocpp16/chargepoint/requestfifo/RequestFifo.cpp:30-37 | After a new start over the same database the FIFO is what it was |
| `RequestFifo.OneListing` | 3rdparty/ocpp/src/ocpp16/chargepoint/requestfifo/RequestFifo.cpp:154-169 | A table can be listed in the order of its identifiers in one way only |
| `RequestFifo.ReadWhatWasPushed` | 3rdparty/ocpp/src/ocpp16/chargepoint/requestfifo/RequestFifo.cpp:75-94 | An entry gives back the connector, action and payload that were pushed |
| `MessageSender.MessageSender.Call` | 3rdparty/ocpp/src/messages/GenericMessageSender.h:126-203 | The request is queued, once and last, exactly if something is waiting or the RPC fails; every other result leaves the FIFO alone and no RPC is executed while something waits |
| `MessageSender.MessageSender.CallJson` | 3rdparty/ocpp/src/messages/GenericMessageSender.h:213-260 | A queued request is settled exactly by a reply without error that is valid and can be converted |
| `MessageSender.MessageSender.ProcessFront` | 3rdparty/ocpp/src/ocpp16/chargepoint/requestfifo/RequestFifoManager.cpp:114-253 | A turn removes the first request if it was answered well or failed once too often, and otherwise removes nothing and counts the failure |
| `MessageSender.MessageSender.ProcessFifoRequest` | 3rdparty/ocpp/src/ocpp16/chargepoint/requestfifo/RequestFifoManager.cpp:102-276 | The drain terminates and stops only when the FIFO is empty, a retry is scheduled or the connection is gone |
| `MessageSender.MessageSender.Reboot` | 3rdparty/ocpp/src/ocpp16/chargepoint/requestfifo/RequestFifo.cpp:122-177 | A reboot loses and doubles nothing that was issued, and the count of failures starts again |
| `MessageSender.EndedThenQueued` | 3rdparty/ocpp/src/messages/GenericMessageSender.h:146-198 | In every run, across reboots, the requests that ended followed by those queued are those issued, in order; no RPC is executed for a request after one for a later request |
| `WebServer.WebSocketConnection.Send` | src/web/WebServer.cpp:67-80 | A message is appended to the buffer; frames followed by buffer remain the concatenation of the messages |
| `WebServer.WebSocketConnection.Writable` | src/web/WebServer.cpp:310-325 | The whole buffer goes out as one frame |
| `WebServer.WebServer.Broadcast` | src/web/WebServer.cpp:230-234 | Every connection is queued the message once |
| `WebServer.WebServer.SendToConnection` | src/web/WebServer.cpp:236-241 | Only that connection is queued the message |
| `WebServer.WebServer.Announce` | src/web/WebServer.cpp:875-900 | Every connection is queued one notification for each change, in order |
| `WebServer.WebServer.Connect` | src/web/WebServer.cpp:443-475 | A new connection gets a new identifier and the welcome message |
| `WebServer.WebServer.HandleRpcMessage` | src/web/WebServer.cpp:903-994 | A text has the notifications of its changes queued for everybody and then exactly one reply for its sender |
| `BrowserRpc.RpcClient.Call` | web/js/rpc-client.js:69-98 | A call takes the next identifier and is pending if it could be sent, rejected if not; without a connection nothing changes |
| `BrowserRpc.RpcClient.HandleMessage` | web/js/rpc-client.js:100-130 | A message settles the pending call whose identifier it carries, and nothing else |
| `BrowserRpc.RpcClient.OnMessage` | web/js/rpc-client.js:42-50 | Data that is no JSON text changes nothing |
| `BrowserRpc.ServerUnderstands` | src/web/WebServer.cpp:768-816 | The server reads the client's request as it was meant, if its identifier fits into 32 bits, and otherwise refuses it |
| `BrowserRpc.FrameReads` | src/web/WebServer.cpp:310-325 | A frame with one message is read as that message; one with several is not a JSON text |
| `BrowserRpc.ReplyId` | src/web/WebServer.cpp:819-833 | The client finds the request's identifier in the reply |
| `BrowserRpc.CallsSettleOnce` | web/js/rpc-client.js:69-130 | In every run, the identifiers 1 to requestId are partitioned into pending, resolved and rejected, and whatever settled a call is the server's one reply to it |
| `BrowserRpc.StepKeepsInv` | web/js/rpc-client.js:69-130 | Every step of browser, server and network keeps that |
| `BrowserRpc.LoneReplySettles` | web/js/rpc-client.js:115-125 | A reply delivered in a frame of its own settles its call |
| `BrowserRpc.LostReplyNeverSettles` | src/web/WebServer.cpp:310-325 | A call whose reply can no longer arrive in a frame of its own stays pending for ever |
| `BrowserRpc.CrowdedReplyIsLost` | src/web/WebServer.cpp:903-994 | A pending call never settles, however the run goes on, if it is served by a command that announces a change, or while something waits in the buffer, or with an identifier beyond 32 bits |
| `BrowserRpc.UncrowdedReplySettles` | src/web/WebServer.cpp:903-994 | In every other case the call settles if the buffer is flushed next and the frames on their way are received |
| `BrowserRpc.SettlesIffUncrowded` | src/web/WebServer.cpp:903-994 | Wherever a run leads, a pending call that is served then can still settle if and only if it is not served in such a situation |
| `BrowserRpc.FirstCallMayBeCrowded` | src/web/WebServer.cpp:443-475 | A run in which the first call, of any command, is served with the welcome message still in the buffer |
| `BrowserRpc.AnnouncingCallIsCrowded` | src/web/WebServer.cpp:920-975 | A run with nothing else going on that serves a first call of any announcing command |
| `BrowserRpc.WhoAnnounces` | src/web/WebServer.cpp:920-975 | Which requests announce a change: a condition on command and parameters alone, whatever values the server has |
| `Wildcard.WildCmp` | 3rdparty/ocpp/3rdparty/doctest/doctest/doctest.h:4138-4172 | The two-pointer loop returns true exactly if the glob relation holds, and terminates |
| `Wildcard.OlderStarIsRedundant` | 3rdparty/ocpp/3rdparty/doctest/doctest/doctest.h:4145-4166 | Backtracking to the last star loses no match |
| `Wildcard.MatchesAny` | 3rdparty/ocpp/3rdparty/doctest/doctest/doctest.h:4176-4183 | A name passes a list of patterns if one matches, or if the list is empty and that is allowed |
| `Subcases.ContextState.CheckFilters` | 3rdparty/ocpp/3rdparty/doctest/doctest/doctest.h:4222-4230 | A subcase is cut exactly if its level is filtered and its name is not wanted or unwanted |
| `Subcases.ContextState.OpenSubcase` | 3rdparty/ocpp/3rdparty/doctest/doctest/doctest.h:4232-4262 | The constructor enters on the way down, re-enters the open path, or proposes the next path, once |
| `Subcases.ContextState.CloseSubcase` | 3rdparty/ocpp/3rdparty/doctest/doctest/doctest.h:4268-4298 | The destructor marks the leaf, and every ancestor whose children are finished |
| `Subcases.ContextState.RunBlock` | 3rdparty/ocpp/3rdparty/doctest/doctest/doctest.h:4232-4298 | A block of subcases enters, closes and marks exactly what the one-run semantics says |
| `Subcases.ContextState.RunTestCase` | 3rdparty/ocpp/3rdparty/doctest/doctest/doctest.h:7014-7059 | The re-run loop terminates when the filters are tame for the test; what the reporters see is the wanted leaves in depth-first order, each once, when no path hash is taken |
| `Subcases.ContextState.RunRounds` | 3rdparty/ocpp/3rdparty/doctest/doctest/doctest.h:7014-7059 | Any number of rounds of the loop, under any filters, leave the state and tell the reporters what the semantics of the loop says |
| `Subcases.LeavesAreTheLeafPaths` | 3rdparty/ocpp/3rdparty/doctest/doctest/doctest.h:4232-4298 | The reference list of leaves contains exactly the leaf paths |
| `Subcases.NoLeafTwice` | 3rdparty/ocpp/3rdparty/doctest/doctest/doctest.h:4232-4298 | And each of them once |
| `Subcases.RunIsRight` | 3rdparty/ocpp/3rdparty/doctest/doctest/doctest.h:4232-4298 | One run executes the first leaf not yet reached and proposes the path to the next one whose hash is free |
| `Subcases.EveryLeafExactlyOnce` | 3rdparty/ocpp/3rdparty/doctest/doctest/doctest.h:7014-7059 | The runs are the leaves, each once, depth first, if and only if no subcase whose turn comes hashes like a path reached before |
| `Subcases.FilteredRunIsPrunedRun` | 3rdparty/ocpp/3rdparty/doctest/doctest/doctest.h:4222-4230 | Filters that reach the whole depth act as if what they cut were not there |
| `Subcases.TameRunIsWantedRun` | 3rdparty/ocpp/3rdparty/doctest/doctest/doctest.h:4222-4230 | So do filters without a level to act on, or that treat all names alike: a run under tame filters is a run of the wanted subcases without any |
| `Subcases.FiltersActAsWantedIff` | 3rdparty/ocpp/3rdparty/doctest/doctest/doctest.h:4222-4276 | All tests of at most some height run their wanted subcases as if there were no others, if and only if the filters reach below that height, or have no level to act on, or treat all names alike |
| `Subcases.SubcaseLostToCollision` | 3rdparty/ocpp/3rdparty/doctest/doctest/doctest.h:4186-4219 | Two siblings whose names differ by one in the last character and whose lines are 32 apart hash alike, and the second one is never run |
| `Subcases.ShallowFilterNeverEnds` | 3rdparty/ocpp/3rdparty/doctest/doctest/doctest.h:4222-4230 | A filter for the first level that rejects the second of two siblings: after any number of rounds it is still the one proposed, and the loop goes on |
| `Subcases.ShallowFilterLosesLeaf` | 3rdparty/ocpp/3rdparty/doctest/doctest/doctest.h:4232-4276 | A filter for two levels that rejects the second of three inner siblings: the loop ends, the third one is never run, and the outer subcase is run as a leaf |
| `DocString.DocString.Append` | 3rdparty/ocpp/3rdparty/doctest/doctest/doctest.h:3667-3715 | Appending concatenates, keeps the terminator and moves to the heap exactly when the contents outgrow the object; an outgrown block is doubled, or just large enough when twice is not enough or wraps at 2^32 |
| `DocString.DocString.Copy` | 3rdparty/ocpp/3rdparty/doctest/doctest/doctest.h:3625-3631 | A copy has the same contents and shares nothing |
| `DocString.DocString.Assign` | 3rdparty/ocpp/3rdparty/doctest/doctest/doctest.h:3656-3665 | So does an assigned string, also from itself |
| `DocString.DocString.MoveFrom` | 3rdparty/ocpp/3rdparty/doctest/doctest/doctest.h:3723-3732 | A moved string takes over the contents and leaves the other one empty |
| `DocString.DocString.Store` | 3rdparty/ocpp/3rdparty/doctest/doctest/doctest.h:3603-3616 | Any bytes are stored, in the object or on the heap, followed by a terminator |
| `DocString.DocString.Shrink` | 3rdparty/ocpp/3rdparty/doctest/doctest/doctest.h:3758-3764 | A substring in place |
| `DocString.DocString.Substr` | 3rdparty/ocpp/3rdparty/doctest/doctest/doctest.h:3766-3769 | A substring as a new string |
| `DocString.DocString.Find` | 3rdparty/ocpp/3rdparty/doctest/doctest/doctest.h:3771-3778 | The first occurrence from a position on, or npos if there is none |
| `DocString.DocString.Size` | 3rdparty/ocpp/3rdparty/doctest/doctest/doctest.h:3745-3749 | The flag byte or the stored size gives the length of the contents |
| `DocString.DocString.Capacity` | 3rdparty/ocpp/3rdparty/doctest/doctest/doctest.h:3752-3756 | The capacity exceeds the size |
| `CommaArgs.ParseCommaSepArgs` | 3rdparty/ocpp/3rdparty/doctest/doctest/doctest.h:6534-6569 | The tokeniser computes the non-empty words between unprotected commas, with escapes resolved |
| `CommaArgs.RoundTrip` | 3rdparty/ocpp/3rdparty/doctest/doctest/doctest.h:6534-6569 | Words that are escaped and joined are found again, except empty ones |
| `CommaArgs.WordsSurvive` | 3rdparty/ocpp/3rdparty/doctest/doctest/doctest.h:6534-6569 | Non-empty words survive the round trip |
| `XmlWriter.EncodeTo` | 3rdparty/ocpp/3rdparty/doctest/doctest/doctest.h:5202-5242 | The loop computes the encoding of a text or an attribute |
| `XmlWriter.EncodedText` | 3rdparty/ocpp/3rdparty/doctest/doctest/doctest.h:5206-5242 | An encoded text is well-formed content of its element, unless `]]>` ends within its first three characters or one of the four characters is in it that the encoder lets through and XML forbids |
| `XmlWriter.EncodedValue` | 3rdparty/ocpp/3rdparty/doctest/doctest/doctest.h:5206-5242 | An encoded value never ends its attribute, and breaks it only with such a character |
| `XmlWriter.BracketsAtTheStart` | 3rdparty/ocpp/3rdparty/doctest/doctest/doctest.h:5212-5218 | A text that begins with `]]>` breaks the document |
| `XmlWriter.VerticalTabIsLetThrough` | 3rdparty/ocpp/3rdparty/doctest/doctest/doctest.h:5228-5238 | So does one with a vertical tab |
| `XmlWriter.XmlWriter.StartElement` | 3rdparty/ocpp/3rdparty/doctest/doctest/doctest.h:5339-5347 | The document stays well nested, with one more open element, indented by two spaces per open element |
| `XmlWriter.XmlWriter.EndElement` | 3rdparty/ocpp/3rdparty/doctest/doctest/doctest.h:5355-5368 | The innermost element is closed and the document stays well nested |
| `XmlWriter.XmlWriter.WriteAttribute` | 3rdparty/ocpp/3rdparty/doctest/doctest/doctest.h:5370-5374 | An attribute right after a start keeps the document well formed if and only if its value has no such character; an empty one is not written |
| `XmlWriter.XmlWriter.WriteText` | 3rdparty/ocpp/3rdparty/doctest/doctest/doctest.h:5387-5397 | A text keeps the document well formed if and only if no `]]>` is completed within its first three characters and it has no such character |
| `XmlWriter.XmlWriter.EnsureTagClosed` | 3rdparty/ocpp/3rdparty/doctest/doctest/doctest.h:5416-5421 | An open start tag is closed, and the scanner is then inside its element |
| `XmlWriter.XmlWriter.WriteDeclaration` | 3rdparty/ocpp/3rdparty/doctest/doctest/doctest.h:5423-5425 | The declaration leaves the document well formed |
| `XmlWriter.XmlWriter.Destroy` | 3rdparty/ocpp/3rdparty/doctest/doctest/doctest.h:5334-5337 | The destructor completes the document, closing what is open innermost first |
| `RangeExecution.PiecesPartition` | 3rdparty/ocpp/3rdparty/doctest/examples/range_based_execution.py:26-30 | The pieces are consecutive, not longer than planned, and end with the last test |
| `RangeExecution.RangesPartition` | 3rdparty/ocpp/3rdparty/doctest/examples/range_based_execution.py:26-33 | The ranges are at most as many as there are cores and cover each number once |
| `RangeExecution.Run` | 3rdparty/ocpp/3rdparty/doctest/doctest/doctest.h:6943-7000 | The loop executes exactly the passing tests whose number is in the window |
| `RangeExecution.EachPassingTestOnce` | 3rdparty/ocpp/3rdparty/doctest/examples/range_based_execution.py:36-43 | Without extra filters, each passing test is executed by exactly one worker and no other test is |
| `RangeExecution.ExecutedByOne` | 3rdparty/ocpp/3rdparty/doctest/examples/range_based_execution.py:36-43 | Whatever the script counted, the workers execute the first that many of the tests that pass their own filters, each once |
| `RangeExecution.ExtraFiltersIff` | 3rdparty/ocpp/3rdparty/doctest/examples/range_based_execution.py:15-43 | With extra filters the right tests are executed if and only if each wanted one is among the first as many of all |
| `RangeExecution.WrongTestExecuted` | 3rdparty/ocpp/3rdparty/doctest/examples/range_based_execution.py:36-38 | When only the second of two tests is wanted, the first one is executed and the second is not |
| `UrlCodec.Encode` | 3rdparty/ocpp/src/websockets/Url.cpp:76-119 | The loop, with its inner search, computes the encoding |
| `UrlCodec.UrlDecode` | src/web/WebServer.cpp:559-581 | The loop computes the decoding, with everything a stream accepts as a hexadecimal integer |
| `UrlCodec.RoundTripIff` | 3rdparty/ocpp/src/websockets/Url.cpp:84-116 | Decoding an encoded text gives it back if and only if all its bytes are below 128 |
| `UrlCodec.EncodedIsWellEncoded` | 3rdparty/ocpp/src/websockets/Url.cpp:84-116 | The encoding consists of unreserved characters and triplets |
| `UrlCodec.EncodingIsInjective` | 3rdparty/ocpp/src/websockets/Url.cpp:84-116 | Different texts are encoded differently, whatever their bytes |
| `WebsocketFactory.WebsocketFactory.NewClientFromPool` | 3rdparty/ocpp/src/websockets/WebsocketFactory.cpp:54-72 | A new client goes to the first of the pools with the fewest clients |
| `WebsocketFactory.WebsocketFactory.SetClientPoolCount` | 3rdparty/ocpp/src/websockets/WebsocketFactory.cpp:81-96 | The pools are created once, all empty |
| `WebsocketFactory.RoundRobin` | 3rdparty/ocpp/src/websockets/WebsocketFactory.cpp:54-72 | As long as no client goes away, the n-th allocation goes to pool n mod k and the counts differ by at most one |
| `WebsocketFactory.NoPoolIsOverloaded` | 3rdparty/ocpp/src/websockets/libwebsockets/LibWebsocketClientPool.cpp:265-280 | However clients come and go, no pool ever has more than its fair share of the most clients there ever were |

## Left out

- MessageDispatcher.MessageDispatcher.DispatchMessage: handlers and validators are functions of the message; a handler's own state is not modelled, and the null check of the validator is not needed because none is ever stored.
- RpcBase.RpcBase.Call: what happens around each turn of the reply loop is a parameter, with the deadline as a choice; the overflow of the identifier, undefined in C++, wraps round, here and in `RpcCalls`.
- RpcBase.RpcBase.Stop: the locking of the owner is in `RpcPool`, not in the class; the wait for the reception thread of a connection without a pool is left out.
- RpcBase.RpcBase.ProcessReceivedData: spies are not modelled, nor is the rounding of numbers in payloads to one decimal when they are printed.
- Json.ParsePrint: a number keeps its characters, so the conversion to binary and back is left out, and so are text encodings and the reader's limits; strings are Unicode characters.
- RpcPool.SafeIffCareful: an owner that nobody holds any more stays in the model's list; that a thread which still waits for its lock then waits for freed memory is part of what makes the step careless. Two calls of `stop` on one connection at the same time are left out, and so is a connection object that is destroyed and replaced.
- RpcPool.StoppingNeverStuck: handlers return, so a worker inside a request can always finish it.
- MessageSender.MessageSender.Call: converters produce payloads whose numbers are JSON numbers, so not infinite ones.
- MessageSender.MessageSender.ProcessFront: the replacement of a negative transaction identifier before a stored request is sent, and what a StartTransaction response does to connectors and tags, are left out.
- MessageSender.MessageSender.ProcessFifoRequest: the state of the connection and the replies are a parameter for each turn; timers fire when `TimerFires` is called.
- RequestFifo.RequestFifo.Load: the database is a table that lists its rows in the order of their identifiers; after 2^32 requests these come round and the order is no longer promised. A query that fails is left out.
- WebServer.WebServer.HandleRpcMessage: the results of the commands on stations and metrics, and how a number that is no 32-bit integer is shown, are parameters; the wording of parse errors is shortened.
- BrowserRpc.CallsSettleOnce: the welcome message is taken to be some JSON object without an identifier; its text is in `WebServer`. Event handlers are not modelled. A number in a message counts as an identifier when it is written with digits only.
- Subcases.ContextState.RunTestCase: the filters have to be tame, since otherwise the loop may not end; what it does then is said by `RunRounds` and `FiltersActAsWantedIff`. Siblings have different signatures, which they do unless a loop opens the same one twice; tests that leave by an exception or stop after too many failures are left out. A level limit of zero cannot be given on the command line, where it reads as no limit.
- XmlWriter.EncodeTo: the check of UTF-8 sequences, and the hexadecimal escape of invalid ones, are left out: a text is a sequence of Unicode characters. The attribute variants for other types and scoped elements are left out.
- DocString.DocString.Append: not to itself; `rfind`, comparison and construction from a stream are left out.
- RangeExecution.RangesPartition: the ceiling is exact, as it is for fewer than 2^53 tests.
- UrlCodec.UrlDecode: a stream reads a lone `0x` as a failure, as the GNU library does.
- CommaArgs.ParseCommaSepArgs: locating the option on the command line is left out.
- WebsocketFactory.WebsocketFactory.NewClientFromPool: connections, and clients that are not taken from a pool, are left out.
- libwebsockets, SQLite, TLS and credentials, the URL parser, dates, static files, pages and configuration: foreign code, or nothing hard to prove.
- The order in which concurrent broadcasts reach different connections, and the memory of objects: what is proved about stopped sessions is that no worker enters them.
- Assertion macros, signals, timers and the console reporters of the test framework.
