# Verified models of the telematics reference applications

Dafny models of four stateful parts of the repository, with the properties that hold over every
run of them, and of two text codecs.

* **Power event queue** (`PowerEventModel`, `PowerEventProofs`, `PowerEventListeners`,
  `PowerEventManager`). Requests for TCU states are queued, coalesced and overridden, one command
  is kept in flight and a wake lock is held while there is work. The model is a state machine over
  pushes, command responses and slave acknowledgements; class `EventManager` works on event
  objects, a queue and a listener table, and each of its methods is proved to take one step of it.
* **Remote-SIM link** (`SimConnectionModel`, `SimConnection`, `KeepaliveTiming`, `RemoteSimCodec`,
  `RemoteSimDaemonModel`, `RemoteSimDaemon`, `CardControlModel`, `CardControl`). Descriptors and
  keepalive of the daemon, the timing of both ends over an integer clock, the byte messages, the
  notifications to the modem and the client next to the card.
* **eCall client** (`ECallModel`, `ECallProofs`, `ECallCauses`, `TelClient`). Dial duration, redial and the cached
  call of ERA-GLONASS eCalls, and the scan-fail handler with its per-slot map. A log records what
  the client was told and did; the properties are about the log of every run, and `ECallCauses` says
  which callback makes which entry and changes which part of the state.
* **Codecs** (`HexCodec`, `ConfigParser`). The hex parser and printer, and the key=value reader.

Where the source updates fields, the model is a class whose methods equate the new field values with
a step function of the old ones; the theorems about all runs are proved of the step functions. Each
class has a predicate `Valid()` which its methods require and keep: for `TelClient` that its state is
the end of a run of the model, for the others the invariant behind the theorems. So what is proved of
every run holds of the object at any time. `ECallProofs.Reachable` means the end of a run.
Module `Common` holds what several modules share.

## Assumptions

* Each callback is one step. A command to the TCU-activity manager is answered once, and
  acknowledged once after a successful answer unless it was RESUME. Events are distinct, listeners
  stay alive and do not call back into the manager.
* Results of sockets, poll, accept, the clock, the modem and the call manager are inputs. One read
  is one message. Opening the card connection, with its wait, is one step.
* The beginning of a timer's wait, its end and what follows are separate steps and may come in any
  order, so the theorems hold for every interleaving of timers.

## Findings

* A processed event is announced under the trigger type of the event at the head of the queue, not
  its own (`RouteExactly`). A catch-all listener can therefore hear twice of an event with a specific
  trigger type (`SpecificEventHeardTwice`); it hears once exactly when the head's type, or for a
  rejected event its own, is specific (`CatchAllHearsOnce`).
* A successful RESUME drops the wake lock although the next event was just started
  (`LockLostWithWork`); that is the only way to lose it while work is queued (`WakeLockLostExactly`).
* The keepalive constants leave three seconds for two polling gaps and two message delays, no more
  (`KeepaliveBoundIsExact`). With the round trip taken as down + gap + up, that is one more gap
  plus the round trip within three seconds.
* A keepalive left pending by a read or poll error makes the daemon drop the next silent client
  without asking it (`DroppedUnasked`). A client that timed out was asked exactly if no keepalive
  was pending when it was accepted, or it sent a message (`AskedBeforeTimeout`).
* The client never closes a socket whose connect was refused (`RefusedSocketLeaks`): of all sockets it
  leaves open exactly those and the current one (`RefusedSocketsStayOpen`).
* A listening socket on which listen fails is closed twice (`StartListening`).
* The APDU parser accepts more messages than the encoder produces (`AcceptedNotEncoded`,
  `ParserAcceptsExactly`).
* Closing the card connection has no part in the connected flag (`FlagsExactly`): after a close, card
  requests still go out, with no new open, exactly until the card is removed (`SentAfterCloseExactly`).
* A map entry that a scan failure creates counts as successfully reported, so a restart can happen
  without any start or MSD report (`RestartWithoutReport`). A restart is preceded by an MSD success
  exactly if its entry was made by a start or any report came (`RestartExactly`).
* A new standard start does not forget an earlier automatic hangup when it comes to clearing the
  cached call (`StartInheritsHangup`, `CacheKeptExactly`). The comment at
  apps/reference/ecall_app/TelClient.hpp:536-538 describes the flag as belonging to one call.
* A call back is answered automatically exactly while T9 runs and the answer window is open
  (`CallBackAnsweredExactly`). The comment at apps/reference/ecall_app/TelClient.cpp:195-196 asks for
  one of the two; a run with T9 active and no answer is `CallBackUnanswered`.
* A hangup that finds no call makes the client hang up the redials that follow if one is announced at
  that moment, and ends an earlier resolve to do so if none is (`HungUpOnDiallingExactly`).

## Model

| member | source | states |
|---|---|---|
| PowerEventProofs.QueueShape | apps/reference/power_ref_app/EventManager.cpp:179-215 | in every reachable state the queue is empty or k >= 1 events of one state followed by events of one other state |
| PowerEventProofs.OverrideKeepsHeadBlock | apps/reference/power_ref_app/EventManager.cpp:181-198 | the override loop removes the whole trailing block or nothing, and never the head |
| PowerEventProofs.PushKeepsHead | apps/reference/power_ref_app/EventManager.cpp:181-200 | a push keeps the event in progress at the head and the command in flight; an accepted event goes last |
| PowerEventProofs.OneCommandInFlight | apps/reference/power_ref_app/EventManager.cpp:199-237 | the queue is non-empty exactly when one command is outstanding, and it is the head's, over all interleavings |
| PowerEventProofs.Conservation | apps/reference/power_ref_app/EventManager.cpp:76-146 | pushed events are queued plus settled as multisets; no event is settled twice or while queued |
| PowerEventProofs.SettledForGood | apps/reference/power_ref_app/EventManager.cpp:76-146 | settlements are never undone and a terminal status never changes |
| PowerEventProofs.AcceptedExactly | apps/reference/power_ref_app/EventManager.cpp:157-217 | a push is accepted iff its machine is listed, there is no list or it is for all machines, and something is queued or the service is up; otherwise it is settled at once and nothing else changes |
| PowerEventProofs.QueuedStatusExactly | apps/reference/power_ref_app/EventManager.cpp:157-237 | a queued event is in progress iff it is the head and its command was answered well, else initialized if it was pushed onto an empty queue, else waiting |
| PowerEventProofs.SettledForAReason | apps/reference/power_ref_app/EventManager.cpp:157-217 | which events a push rejects and a completion settles, and with which status; an acknowledgement that expired counts as timed out, any other failed one as failed |
| PowerEventProofs.LastRequestWins | apps/reference/power_ref_app/EventManager.cpp:297-321 | when the queue has drained, the last state commanded is that of the last accepted push |
| PowerEventProofs.SuccessMeansLatest | apps/reference/power_ref_app/EventManager.cpp:302-309 | an event is reported processed with success iff it asked for the state of the most recently accepted push |
| PowerEventProofs.CompletionsTakeBlocks | apps/reference/power_ref_app/EventManager.cpp:290-325 | without pushes the number of equal-state blocks plus the completions so far is constant |
| PowerEventProofs.BoundedDrain | apps/reference/power_ref_app/EventManager.cpp:290-325 | at most two completions empty the queue; one does iff head and back agree |
| PowerEventProofs.AlwaysDrains | apps/reference/power_ref_app/EventManager.cpp:311-321 | the queue never gets stuck: any run can be continued by as many completions as there are blocks until it is empty |
| PowerEventProofs.WakeLockLostExactly | apps/reference/power_ref_app/EventManager.cpp:210-231 | held implies non-empty; non-empty and not held iff a successful RESUME left work and the queue has not been empty since |
| PowerEventProofs.LockLostWithWork | apps/reference/power_ref_app/EventManager.cpp:226-231 | a run that ends with an event queued, its command in flight and the wake lock released |
| PowerEventProofs.RunKeepsInvariants | apps/reference/power_ref_app/EventManager.cpp:157-325 | every step of every run keeps the control invariant and the event ledger |
| PowerEventListeners.HeardPerSettlement | apps/reference/power_ref_app/EventManager.cpp:76-128 | a listener hears of a settled event once per registration for all triggers and once per registration for its route |
| PowerEventListeners.ToldInOrder | apps/reference/power_ref_app/EventManager.cpp:76-128 | the calls are those about the settlements in order, each to the catch-all listeners and then to those of its route, in order of registration |
| PowerEventListeners.ToldAsSettled | apps/reference/power_ref_app/EventManager.cpp:98-128 | in every run each call about a settled event carries its final status and its outcome |
| PowerEventListeners.RouteExactly | apps/reference/power_ref_app/EventManager.cpp:89-139 | an event settled by any step is announced under its own trigger type if a push rejected it, under that of the head of the queue if a completion processed it |
| PowerEventListeners.CatchAllHearsOnce | apps/reference/power_ref_app/EventManager.cpp:81-123 | in every run a catch-all listener hears of a settled event exactly once iff the trigger type that the step announces it under, known before the step, is specific |
| PowerEventListeners.SpecificListenerHears | apps/reference/power_ref_app/EventManager.cpp:89-123 | a listener for one trigger type hears of a settled event once iff the step announces it under that type, else never |
| PowerEventListeners.SpecificEventHeardTwice | apps/reference/power_ref_app/EventManager.cpp:133-139 | a run in which an SMS event is announced twice to a catch-all listener |
| PowerEventManager.EventSource.NewEvent | apps/reference/power_ref_app/Event.cpp:37-53 | a new event has the next id modulo 2^64, is initialized and carries the given state, machine and trigger |
| PowerEventManager.EventManager.RegisterListener | apps/reference/power_ref_app/EventManager.cpp:240-250 | the listener is appended under its trigger type and nothing else changes |
| PowerEventManager.EventManager.HeardSinceRegistration | apps/reference/power_ref_app/EventManager.cpp:76-128 | of each event settled since the last registration, the object called a listener once per catch-all registration and once per registration for its route |
| PowerEventManager.EventManager.HeardAsSettled | apps/reference/power_ref_app/EventManager.cpp:98-128 | each call that the object made since the last registration carries a settlement made since, with its status and outcome |
| PowerEventManager.EventManager.NotifyOnEventRejected | apps/reference/power_ref_app/EventManager.cpp:76-96 | the status is set and the catch-all listeners, then those of the event's trigger type, are called |
| PowerEventManager.EventManager.NotifyAndEraseEventProcessed | apps/reference/power_ref_app/EventManager.cpp:98-131 | the leading block is marked, announced and removed, and the rest of the queue stays |
| PowerEventManager.EventManager.RejectOverridden | apps/reference/power_ref_app/EventManager.cpp:181-198 | what stays is the events of the two states in order; the others are rejected and announced in order |
| PowerEventManager.EventManager.PushEvent | apps/reference/power_ref_app/EventManager.cpp:157-217 | one push step of the model, its invariants and the calls to listeners |
| PowerEventManager.EventManager.ProcessedEventHandler | apps/reference/power_ref_app/EventManager.cpp:290-325 | settles the head block and starts the next event or releases the wake lock |
| PowerEventManager.EventManager.OnCommandFailed | apps/reference/power_ref_app/EventManager.cpp:219-225 | the completion step of a refused command |
| PowerEventManager.EventManager.OnCommandOk | apps/reference/power_ref_app/EventManager.cpp:226-237 | RESUME completes and drops the wake lock; other commands wait for their acknowledgement |
| PowerEventManager.EventManager.OnSlaveAckStatusUpdate | apps/reference/power_ref_app/EventManager.cpp:327-363 | the completion step of an acknowledgement, with the status its report stands for |
| SimConnectionModel.ConnectionConsistent | apps/reference/remote_sim/SimConnection.cpp:113-189 | over every run: connected iff the descriptor is not -1, polled descriptor equal to it once accepted, each accept matched by one close except the current one, pending iff the keepalive is the latest event, keepalives sent only when none is pending and timeouts only when one is |
| SimConnectionModel.KeptExactly | apps/reference/remote_sim/SimConnection.cpp:127-189 | in every run a client is kept iff the socket is not broken and it is not silent past 13 s after a keepalive; and when a message is noted, a keepalive sent, a descriptor closed |
| SimConnectionModel.ClockExactly | apps/reference/remote_sim/SimConnection.cpp:139-186 | in every run the clock stands at the client's accept or last message |
| SimConnectionModel.GivenUpExactly | apps/reference/remote_sim/SimConnection.cpp:198-241 | in every run the client gives up its connection, and closes the socket once, iff the socket is broken or nothing was read for more than 13 s |
| SimConnectionModel.ConnectsFirst | apps/reference/remote_sim/SimConnection.cpp:235-240 | the first attempt that connects provides the socket |
| SimConnectionModel.AskedBeforeTimeout | apps/reference/remote_sim/SimConnection.cpp:161-175 | in every run a client that timed out was asked since its accept iff no keepalive was pending at the accept or it sent a message |
| SimConnectionModel.DroppedUnaskedAt | apps/reference/remote_sim/SimConnection.cpp:161-175 | a silent client accepted with a keepalive pending is never asked and is dropped at the first poll past 13 s |
| SimConnectionModel.DroppedUnasked | apps/reference/remote_sim/SimConnection.cpp:154-186 | a run in which the second client is dropped without being asked |
| SimConnectionModel.RefusedSocketsStayOpen | apps/reference/remote_sim/SimConnection.cpp:434-453 | over every run of the client each socket is closed once, except the current one and the refused ones, which never are |
| SimConnectionModel.RefusedSocketLeaks | apps/reference/remote_sim/SimConnection.cpp:441-446 | a run of two connects whose refused socket is never closed |
| SimConnectionModel.PendingSurvivesDisconnect | apps/reference/remote_sim/SimConnection.cpp:139-159 | a pending keepalive outlives exactly the disconnects by read or poll error without a message |
| SimConnection.SimConnection.SetupDaemonSocket | apps/reference/remote_sim/SimConnection.cpp:64-93 | succeeds iff it listens; opened and closed listening sockets stay balanced iff listen did not fail |
| SimConnection.SimConnection.StartListening | apps/reference/remote_sim/RemoteSimDaemon.cpp:75-78 | a failed start-up closes the listening socket as often as it was opened, and once more iff listen failed |
| SimConnection.SimConnection.AcceptClientConnection | apps/reference/remote_sim/SimConnection.cpp:113-125 | accept is retried until it yields a descriptor, which becomes the client's and the polled one |
| SimConnection.SimConnection.HandleClientConnection | apps/reference/remote_sim/SimConnection.cpp:127-189 | one poll or accept step of the daemon's end, and whether a message came |
| SimConnection.SimConnection.ConnectUntilSuccess | apps/reference/remote_sim/SimConnection.cpp:105-108 | connect is retried until it succeeds, each refused socket being left open |
| SimConnection.SimConnection.HandleDaemonConnection | apps/reference/remote_sim/SimConnection.cpp:191-244 | one poll or connect step of the client's end, and whether a message came |
| SimConnection.SimConnection.TearDownClientConnection | apps/reference/remote_sim/SimConnection.cpp:256-268 | after teardown every accepted descriptor and listening socket has been closed as often as opened; a second call closes nothing |
| SimConnection.SimConnection.TearDownDaemonConnection | apps/reference/remote_sim/SimConnection.cpp:270-277 | the client's current socket is closed once |
| KeepaliveTiming.StepStaysOnTime | apps/reference/remote_sim/SimConnection.cpp:161-175 | within the bound every step keeps at most one keepalive message under way and both ends in time |
| KeepaliveTiming.RunStaysOnTime | apps/reference/remote_sim/SimConnection.cpp:222-227 | within the bound no run from an on-time link loses the connection |
| KeepaliveTiming.KeepaliveBoundIsExact | apps/reference/remote_sim/SimConnection.cpp:49-53 | neither end of an idle link ever times out iff two polling gaps and both delays fit into 3 s |
| RemoteSimCodec.SendApduRequest | apps/reference/remote_sim/SimConnection.cpp:279-292 | the buffer is type, low byte of the id and the APDU |
| RemoteSimCodec.SendApduResponse | apps/reference/remote_sim/SimConnection.cpp:334-348 | the buffer is type, id, low byte of the length and the values cut to eight bits |
| RemoteSimCodec.SendAtr | apps/reference/remote_sim/SimConnection.cpp:350-378 | the buffer is type, low byte of the length and the values cut to eight bits |
| RemoteSimCodec.ReadApdu | apps/reference/remote_sim/CardControl.cpp:288-327 | the parser's result for any received bytes, with every access inside them |
| RemoteSimCodec.ApduRoundTrip | apps/reference/remote_sim/CardControl.cpp:268-335 | in all four command cases parsing the encoding recovers id, header, Lc, data and Le |
| RemoteSimCodec.CanonicalExactly | apps/reference/remote_sim/CardControl.cpp:270-281 | a message is an encoded command iff its length fits its type and Lc |
| RemoteSimCodec.AcceptedNotEncoded | apps/reference/remote_sim/CardControl.cpp:300-327 | messages with a byte after an Lc of zero are accepted, with that byte as Le, and no encoder produces them |
| RemoteSimCodec.ParserAcceptsExactly | apps/reference/remote_sim/CardControl.cpp:288-313 | which messages the parser accepts, which of them no encoder produces, and how it reads those |
| RemoteSimCodec.HandleClientMsg | apps/reference/remote_sim/RemoteSimDaemon.cpp:329-363 | the request that a client message makes to the modem, if any |
| RemoteSimCodec.ForwardedExactly | apps/reference/remote_sim/RemoteSimDaemon.cpp:229-313 | an APDU or ATR is forwarded iff the message encodes at most 255 byte values, and then those |
| RemoteSimCodec.NotForwardedExactly | apps/reference/remote_sim/RemoteSimDaemon.cpp:315-363 | the modem is told of a removal iff the message is a removal, and of nothing iff the message is none of the four kinds of answer |
| RemoteSimCodec.AnswersGetThroughExactly | apps/reference/remote_sim/SimConnection.cpp:334-378 | the card's answers reach the modem, cut to eight bits, iff they have at most 255 values |
| RemoteSimDaemonModel.ModemHearsInTurn | apps/reference/remote_sim/RemoteSimDaemon.cpp:84-118 | available and unavailable strictly alternate over every run; an iteration ends with equal views |
| RemoteSimDaemonModel.ToldExactly | apps/reference/remote_sim/RemoteSimDaemon.cpp:84-118 | in every run what the modem believes after each loop turn and each service status, with one request iff that changes |
| RemoteSimDaemon.RemoteSimDaemon.constructor | apps/reference/remote_sim/RemoteSimDaemon.cpp:202-213 | loop entry: one client accepted and the modem told |
| RemoteSimDaemon.RemoteSimDaemon.NotifyModemConnAvailable | apps/reference/remote_sim/RemoteSimDaemon.cpp:100-108 | a request is sent only if the modem was not told yet |
| RemoteSimDaemon.RemoteSimDaemon.NotifyModemConnUnavailable | apps/reference/remote_sim/RemoteSimDaemon.cpp:110-118 | a request is sent only if the modem was told available |
| RemoteSimDaemon.RemoteSimDaemon.Iterate | apps/reference/remote_sim/RemoteSimDaemon.cpp:84-95 | one loop iteration of the model and what it forwards |
| RemoteSimDaemon.RemoteSimDaemon.OnServiceStatusChange | apps/reference/remote_sim/RemoteSimDaemon.cpp:395-407 | one service-status step of the model |
| RemoteSimDaemon.RemoteSimDaemon.DeInit | apps/reference/remote_sim/RemoteSimDaemon.cpp:219-227 | from any reachable state the modem is last told unavailable and every descriptor is closed as often as opened |
| CardControlModel.CardSafety | apps/reference/remote_sim/CardControl.cpp:71-79 | in every reachable state connected implies present, card requests went out only while the connected flag was set, opens only while it was not, every callback carries its key |
| CardControlModel.FlagsExactly | apps/reference/remote_sim/CardControl.cpp:445-474 | in every run the connected flag is set iff an open of a card that was there succeeded and no removal came since; a close plays no part |
| CardControlModel.RequestsExactly | apps/reference/remote_sim/CardControl.cpp:337-454 | in every run each step sends exactly the card requests it has a reason for, each once, an open first and an ATR request last |
| CardControlModel.PendingExactly | apps/reference/remote_sim/CardControl.cpp:100-106 | in every run a callback is held for an id iff an APDU with it is unanswered, and answers with that id |
| CardControlModel.ApduEndToEnd | apps/reference/remote_sim/CardControl.cpp:100-106 | a command reaches an open card unchanged and its answer returns under the same id iff it has at most 255 values |
| CardControlModel.SentAfterCloseExactly | apps/reference/remote_sim/CardControl.cpp:350-360 | after a close request in any run, exactly the APDU, reset or power-off asked for is sent, with no new open in between, iff the card was not removed |
| CardControl.CardControl.OpenConn | apps/reference/remote_sim/CardControl.cpp:445-474 | opening needs a present card and succeeds iff the card manager opens the connection |
| CardControl.CardControl.SendApdu | apps/reference/remote_sim/CardControl.cpp:283-335 | a parsed APDU is stored under its id and transmitted, only when connected |
| CardControl.CardControl.PowerUp | apps/reference/remote_sim/CardControl.cpp:362-369 | power-on after opening, then the ATR request |
| CardControl.CardControl.OnDaemonMsg | apps/reference/remote_sim/SapCardProvider.cpp:147-175 | one message step of the client |
| CardControl.CardControl.OnCardInfoChanged | apps/reference/remote_sim/CardControl.cpp:53-83 | card removal and insertion, with the connection attempt after insertion |
| CardControl.CardControl.OnApduResponse | apps/reference/remote_sim/CardControl.cpp:100-106 | the answered callback is forgotten |
| CardControl.CardControl.OnResetResponse | apps/reference/remote_sim/CardControl.cpp:144-151 | a successful reset asks for the ATR |
| ECallProofs.AutoHangupOnlyUnstopped | apps/reference/ecall_app/TelClient.cpp:744-760 | the client hangs up by itself only if no active call, exhausted redial or connected call came since the last standard start |
| ECallCauses.NoAutoHangupAfterStop | apps/reference/ecall_app/TelClient.cpp:264-273 | in every ERA-GLONASS run, after an active call or one of the two final redial reports the client does not hang up by itself before a standard start |
| ECallCauses.LoggedForACause | apps/reference/ecall_app/TelClient.cpp:184-517 | in every run each step makes exactly the log entries it has a cause for, the cause being the callback and the history |
| ECallCauses.StateFollows | apps/reference/ecall_app/TelClient.cpp:204-314 | in every run which call is tracked and the progress, listener, incoming, private and expiry flags after each step, as begun or ended by it |
| ECallProofs.HungUpOnDiallingExactly | apps/reference/ecall_app/TelClient.cpp:215-263 | in every ERA-GLONASS run an emergency call that dials is hung up iff some hangup found no call while a redial was announced, with neither a standard start nor a hangup without call and announced redial since; else it is announced if none was tracked |
| ECallProofs.DialDurationGuarantee | apps/reference/ecall_app/TelClient.cpp:744-760 | after expiry without a live call, every emergency call that dials is hung up and not announced, until a standard start or a hangup that finds neither a call nor an announced redial |
| ECallProofs.CacheKeptExactly | apps/reference/ecall_app/TelClient.cpp:275-302 | in every run the cached call survives its end iff the latest redial report since the last standard start announces one and no automatic hangup came since the cache was last cleared |
| ECallProofs.StartInheritsHangup | apps/reference/ecall_app/TelClient.cpp:695-705 | a run in which a new start keeps an old automatic hangup and its own call leaves the cache at its end though a redial is announced |
| ECallProofs.CallBackAnsweredExactly | apps/reference/ecall_app/TelClient.cpp:184-201 | in every run a call back is answered automatically iff T9 runs and the answer window has not ended since the last standard start |
| ECallProofs.CallBackUnanswered | apps/reference/ecall_app/TelClient.cpp:195-199 | a run with T9 active in which a call back is not answered |
| ECallProofs.AutoAnswerOnlyInWindow | apps/reference/ecall_app/TelClient.cpp:384-451 | each automatic answer comes after T9 was reported running, with neither its end nor a standard start since, and with a standard start after any end of the window |
| ECallProofs.RestartExactly | apps/reference/ecall_app/EcallScanFailHandler.cpp:106-145 | in every run each restart has its start's parameters or else the default ones, was triggered, and follows an MSD success iff its entry came from a start or a report came |
| ECallProofs.SwitchRestartsExactly | apps/reference/ecall_app/EcallScanFailHandler.cpp:115-138 | a successful switch restarts a slot iff an answer named another slot while this was the lowest failed one, and the latest MSD report is a success or neither start nor report came; and with which parameters |
| ECallProofs.ScanFailHistory | apps/reference/ecall_app/EcallScanFailHandler.cpp:106-145 | a restart reuses its start's parameters and is preceded since then by a scan failure, an answer naming another slot while no lower slot had failed, and an MSD success |
| ECallProofs.OneRestartPerScanFailure | apps/reference/ecall_app/EcallScanFailHandler.cpp:171-221 | on each slot successful restarts never outnumber scan failures |
| ECallProofs.RestartWithoutReport | apps/reference/ecall_app/EcallScanFailHandler.cpp:262-285 | without a start or a report, a scan failure and an answer suffice for a successful restart with default parameters |
| ECallProofs.RunKeepsInv | apps/reference/ecall_app/TelClient.cpp:204-314 | every step of every run keeps the log justified and the flags equal to what the log says |
| TelClient.TelClient.StartECall | apps/reference/ecall_app/TelClient.cpp:629-719 | a start caches its parameters and, in ERA-GLONASS mode, resets the dial and call-back flags except the clear flag |
| TelClient.TelClient.StartSelfTestOrIms | apps/reference/ecall_app/TelClient.cpp:813-875 | other starts only change progress, the private flag and the listener |
| TelClient.TelClient.OnMakeCallResponse | apps/reference/ecall_app/TelClient.cpp:463-478 | the call is cached, or the listener told and progress ended |
| TelClient.TelClient.Hangup | apps/reference/ecall_app/TelClient.cpp:949-994 | whether a live call matches, and the deferred hangup flag if none does |
| TelClient.TelClient.Answer | apps/reference/ecall_app/TelClient.cpp:907-946 | the first incoming or waiting call on the phone is answered and tracked |
| TelClient.TelClient.IncomingCall | apps/reference/ecall_app/TelClient.cpp:184-201 | one incoming-call step of the model |
| TelClient.TelClient.HlapTimerEvent | apps/reference/ecall_app/TelClient.cpp:418-450 | whether T9 runs, in ERA-GLONASS mode |
| TelClient.TelClient.AnswerTimerWakes | apps/reference/ecall_app/TelClient.cpp:421-442 | the answer window ends only while T9 still runs |
| TelClient.TelClient.OnAnswerRefused | apps/reference/ecall_app/TelClient.cpp:496-517 | the listener is told and dropped and the cache cleared |
| TelClient.TelClient.OnDialingCall | apps/reference/ecall_app/TelClient.cpp:215-263 | a dialling call is tracked and announced, or hung up |
| TelClient.TelClient.OnEndedCall | apps/reference/ecall_app/TelClient.cpp:275-313 | an ended call is announced and the cache cleared or kept |
| TelClient.TelClient.CallInfoChange | apps/reference/ecall_app/TelClient.cpp:204-314 | one call-state step of the model |
| TelClient.TelClient.RedialAnnounced | apps/reference/ecall_app/TelClient.cpp:360-381 | the redial flag, and the timer stopped for the two final reasons |
| TelClient.TelClient.DialTimerBegins | apps/reference/ecall_app/TelClient.cpp:721-722 | the expiry flag is cleared when the wait begins |
| TelClient.TelClient.DialTimerWakes | apps/reference/ecall_app/TelClient.cpp:727-742 | the expiry flag is set only if time is up and the timer is not stopped |
| TelClient.TelClient.AutoHangup | apps/reference/ecall_app/TelClient.cpp:744-760 | one automatic-hangup step of the model |
| TelClient.TelClient.MsdTransmissionStatus | apps/reference/ecall_app/TelClient.cpp:328-334 | the slot's MSD status, in a default entry if there was none |
| TelClient.TelClient.OnEmergencyNetworkScanFail | apps/reference/ecall_app/EcallScanFailHandler.cpp:262-285 | the slot is marked, and erased again if the request is not sent |
| TelClient.TelClient.FindFailedSlot | apps/reference/ecall_app/EcallScanFailHandler.cpp:188-194 | the first slot in key order with a failed scan |
| TelClient.TelClient.RequestHighCapabilityResponse | apps/reference/ecall_app/EcallScanFailHandler.cpp:171-232 | one high-capability answer step of the model |
| TelClient.TelClient.HandlerCallInfoChange | apps/reference/ecall_app/EcallScanFailHandler.cpp:287-315 | an ended call on a triggered slot asks for the switch |
| TelClient.TelClient.SetHighCapabilityResponse | apps/reference/ecall_app/EcallScanFailHandler.cpp:106-145 | every triggered and reported slot is called again, in key order |
| HexCodec.ConvertHexToBytes | apps/common/utils/Utils.cpp:543-570 | the bytes of any string, stale nibbles included, with no byte overflow |
| HexCodec.ParsedExactly | apps/common/utils/Utils.cpp:543-570 | each half of each byte is the last hex digit at its place or the same half of an earlier byte, or 0 |
| HexCodec.PrintPayload | apps/reference/ecall_app/TelClient.cpp:1239-1243 | two upper-case digits per byte |
| HexCodec.ParsePrint | apps/common/utils/Utils.cpp:543-570 | parsing the printed form of any bytes returns them |
| HexCodec.PrintParse | apps/common/utils/Utils.cpp:543-570 | printing the parse gives the string back in upper case iff it is an even number of hex digits |
| ConfigParser.Parser.ReadConfigFile | apps/common/ConfigParser.cpp:106-133 | the settings after reading any content |
| ConfigParser.FileReadsBack | apps/common/ConfigParser.cpp:113-132 | a file of entries, comments, stray and blank lines, with any spacing, reads back as its entries mean |
| ConfigParser.CarriageReturnsIgnored | apps/common/ConfigParser.cpp:114-116 | any content reads as it does without its carriage returns |
| ConfigParser.CommentsChangeNothing | apps/common/ConfigParser.cpp:119-122 | comment, stray and blank lines anywhere change nothing |
| ConfigParser.LastLineWins | apps/common/ConfigParser.cpp:124-129 | the last line for a key with a non-empty right side decides its value |
| ConfigParser.MapRoundTrip | apps/common/ConfigParser.cpp:78-86 | a map of clean keys and values, printed and read back, gives the same value for every key |

## Left out

- NewEvent: does not model the time stamps, because no decision depends on them.
- StartECall: covers the standard and the custom-number start in one method; the prompts for durations are left out.
- Expired weak pointers to listeners: every registered listener is taken to be alive.
- Start-up of the services and the initial RESUME command of the power daemon.
- Sockets, sysfs writes, signals and prompts: only their results or effects appear.
- HLAP timers other than T9, which are only printed.
- Updates and encoding of MSD contents: the parameters of a start are compared, not interpreted.
- The file search of the configuration parser: it reads a character sequence.
- Data races inside a callback and replaced promises in the card control.
- Console menus, audio, location, thermal and telephony string tables: no state worth a theorem.
