# PhoneBridge: a verified model

PhoneBridge shares one Android phone with one remote viewer through a browser link. The Go
server hands the viewer a lease, answers WebRTC offers, forwards the phone's encoder stream
and types input into the phone's shell; the browser page negotiates, recovers and, on plain
HTTP, derives a login proof with its own cryptography. The interesting logic is where several
of these overlap in time or where bytes have to survive a detour. This project models that
logic in Dafny and proves what it is for.

Every protocol module has the same shape. A datatype holds the state that the code shares; a
function `Step` gives the effect of one atomic piece of the code (a critical section, a
channel operation, a callback, the stretch between two awaits); the main lemmas speak about
all runs of such steps, in any order. Beside them stand lemmas that say what each step does in
the protocol's own numbers, bytes and fields, without the functions and constants that several
steps share. A class then carries the code in its own imperative
form, and each of its methods is proved to change the fields exactly as the step function
says, or states its whole new state outright. Code that transforms data is a method with the
loops and arrays of the original, proved equal to a definition that does not follow the code
(a standard, or a history of packets).

| module | what it is |
|---|---|
| `Sessions`, `SessionServer` | one owner, one leased viewer, peers answered in two critical sections, lazy expiry, the session file and restarts |
| `SessionReplies` | what every request is answered and leaves behind, by the session its link names, the time and the session's fields |
| `SessionPeers` | peer connections from the answer to the close: which are left open, and what their input does |
| `Recovery`, `RecoveryCallbacks` | the browser's negotiation rounds, retry timer, offer watchdog and circuit breaker |
| `Scrcpy`, `ScrcpyBytes` | the encoder stream: packets, key-frame prefixes, durations, truncation |
| `Mailbox` | the one-slot mailbox between encoder and track |
| `FrameChunks` | frames cut into chunks by the server and put together by the page |
| `Fips180`, `FirstPrimes`, `Fips180Bits`, `Rfc8018` | SHA-256 (FIPS 180-4), HMAC (RFC 2104) and PBKDF2 (RFC 8018) as the standards define them |
| `AppCrypto` | the browser's own SHA-256, HMAC and PBKDF2, over arrays and signed 32-bit operators |
| `Utf8` | the browser's UTF-8 encoder against RFC 3629 |
| `Base64` | the two salt decoders and the browser's encoder against RFC 4648 |
| `SdpRewrite` | the port rewrite of host candidates (RFC 8839, section 5.1) |
| `ShellQuote` | quoting of shell arguments against the Shell Command Language, sections 2.2.1, 2.2.2 and 2.3 |
| `Challenge` | the one-shot login challenge and its rate limit |
| `UdpForward` | discovery, recovery and advertisement of the public UDP mapping |
| `BigEndians`, `JsNumbers`, `GoStrings`, `Options` | shared definitions |

## What turned out not to hold

The code was kept as it is; each point has a lemma with the input that shows it, and where a
condition decides, the condition.

- A joined viewer can be stranded: no data channel, no round, no retry or watchdog armed, and
  no breaker shown either. A step does this if and only if there is no data channel and a round
  returns with nothing pending, a manual retry takes the breaker down because an old frame is
  still decoded, or the connection comes up again and takes back the retry armed for its lost
  channel (`Recovery.RecoveryKeptExactly`, with the runs `Recovery.ReclaimDuringRoundStalls`,
  `Recovery.RetryBehindOldFrameStalls` and `Recovery.ChannelLossStalls`). From there nothing
  starts by itself (`Recovery.NothingByItself`); joining again or a manual retry does, and coming
  back to the page exactly when no recovery was spent yet (`Recovery.WaysOut`).
- A takeover while the offer is being made leaves the round waiting on a closed connection
  (`Recovery.ReclaimDuringOfferHangs`). If the operation rejects, recovery goes on
  (`Recovery.HungRoundRejects`); if it never settles, no event starts another round
  (`Recovery.HungForGood`).
- The failed-offer path writes the connection mode without asking whether a newer peer is
  registered; it is the only writer besides that peer (`Sessions.ModeWriters`,
  `Sessions.FailedOfferOverwritesNewerPeer`).
- Input is accepted under another viewer's lease. A peer whose lease is gone is still heard if
  and only if the session takes input and either the handler that took the peer out of the
  registry has not closed it yet, which it does after the unlock, or another answer of its
  session displaced it, which closes nothing (`SessionPeers.ForeignInputExactly`). Both are runs
  from the empty server (`SessionPeers.ClosingPeerControlsUnderNewLease`,
  `SessionPeers.OrphanControlsUnderNewLease`). While offers are answered one at a time only the
  first can happen (`SessionPeers.ForeignInputOneAtATime`).
- The retry's exponential backoff and its 30 s cap are never reached: with one automatic
  recovery every armed retry is due within 1.6 s (`Recovery.TimersStayNear`).
- Gaps between timestamps are kept modulo 2^64 nanoseconds. A gap of a second or more counts as
  one frame interval if and only if what is left of it is nothing, a second or more, or that very
  interval (`Scrcpy.LongGapIsOneInterval`); a gap of about 584 years passes for 384 ns
  (`Scrcpy.HugeGapWraps`).
- The two base64 decoders differ outside canonical encodings. The browser accepts more
  (`Base64.BrowserAcceptsExactly`, `Base64.ServerAcceptsExactly`). Where the server succeeds the
  browser does too, but U+0085, which only the server trims, is a zero to the browser: the bytes
  are the same if and only if the U+0085s around the salt are harmless
  (`Base64.BrowserExtendsServer`; a salt decoded differently in `Base64.DecodersDiffer`).
- A blank host passes discovery and is advertised; a fresh advertisement is valid exactly when
  its host is not blank (`UdpForward.AdvertisedValidExactly`, `UdpForward.BlankHostIsAdvertised`).
- A call writes the copy of the settings it took, whatever happened since: a Sync, an ordinary
  save, and a discovery that found a new mapping. The write goes behind what memory holds if and
  only if the last write to memory's mapping in between, a discovery or another call's store,
  wrote a different one (`UdpForward.StaleWriteExactly`, `UdpForward.StaleWriteAfterDiscoveries`,
  and `UdpForward.WriteExactly` for any copy). Runs: `UdpForward.StaleSyncErases`,
  `UdpForward.StaleSaveErases` and `UdpForward.CrossedWrites`; the second is an ordinary save,
  which the comment at public_access.go:542 says never erases the mapping. Finding the same
  mapping again never repairs the file (`UdpForward.OnlyASyncRepairs`). Without overlap a mapping
  is lost exactly by saving manual settings (`UdpForward.CallKeepsSettled`).
- The UTF-8 encoder writes a lone surrogate as three bytes that are not UTF-8; its output is
  UTF-8 if and only if the string's surrogates are paired (`Utf8.EncoderIsUtf8Exactly`,
  `Utf8.LoneSurrogateIsNotUtf8`).
- A key event may carry a NUL, which ends up in the line typed into the phone's shell; what the
  shell then reads is not the command (`ShellQuote.QuotingRoundTrip`, `ShellQuote.NulKeyIsNotRead`).

## Model

| member | source | states |
|---|---|---|
| Sessions.StepKeepsInv | internal/app/server.go:519-840 | every critical section keeps: ids and tokens name each other, at most one live session and it is the active one, leases minted once, registered peers under the current lease, file and memory agree on every live session |
| Sessions.RunKeepsInv | internal/app/server.go:519-840 | the same after any interleaving of create, join, both halves of an offer, peer callbacks and input, control, profile choices, stop, expiry and restart |
| Sessions.RegisteredPeerHoldsCurrentLease | internal/app/webrtc.go:219-262 | in every reachable state a registered peer was answered for an offer made under its session's current viewer token |
| Sessions.TakeoverKillsOldLease | internal/app/server.go:645-696 | a join that does not present the current lease makes that lease dead |
| Sessions.TakeoverRefusesOffersInFlight | internal/app/webrtc.go:248-262 | when a join takes a session over, every offer in flight for it, under whatever lease, is unregistered in every later state and refused should its handler come to register it |
| Sessions.OutlawedForGood | internal/app/webrtc.go:266-278 | an offer made under a lease its session no longer honours stays so after any further steps, restarts included |
| Sessions.DeadLeaseRefused | internal/app/webrtc.go:219-236 | a dead lease begins no offer and controls nothing; the registry is untouched |
| Sessions.DeadLeaseForGood | internal/app/webrtc.go:248-262 | a dead lease stays dead for the rest of the run, restarts included, and an offer begun under it is never registered |
| Sessions.LeaseMintedOnlyByJoin | internal/app/server.go:645-690 | a session gets a new lease only from a join through its own link that presents its code where one is required, and the lease is the one newly drawn |
| Sessions.PointerMovers | internal/app/webrtc.go:749-769 | a pointer's start changes only by a request of the connected lease holder where control is allowed, by input from some peer's data channel to a live, controllable session, or by a restart |
| Sessions.LeavingIsDeparting | internal/app/webrtc.go:231-232 | a peer that leaves the registry by any step has no handler left that could register it |
| Sessions.DepartedForGood | internal/app/webrtc.go:733-747 | such a peer is never registered again and none of its callbacks changes anything in any later state |
| Sessions.SecondAnswerReplacesFirst | internal/app/webrtc.go:261-262 | two simultaneous offers of one viewer: the second answer replaces the first, registered peer |
| Sessions.ExpiryKeepsThePeer | internal/app/server.go:824-840 | expiry alone leaves the peer registered, and nothing it reports changes the world |
| Sessions.SingleLiveSession | internal/app/server.go:530-574 | in every reachable state any two live sessions are the same, the active one; states pair up legally; the token index finds each session |
| Sessions.TerminalIsEnded | internal/app/session.go:132-141 | a stopped or expired session is ended in memory and in the file |
| Sessions.EndedForGood | internal/app/server.go:808-840 | an ended session never becomes live again, not even through a restart |
| Sessions.RestartKeepsExactlyTheLive | internal/app/session_store.go:22-48 | loading the file later gives exactly the sessions still live then, unchanged but for lease, pointer start and a possibly stale mode, the token index inverse to the ids, the active id exactly when it is still live |
| Sessions.RestartUnleases | internal/app/session_store.go:50-62 | after a restart no session carries a lease |
| Sessions.NobodyOwnsUntilJoin | internal/app/server.go:920-922 | from there on no request owns a session, whatever it presents, until a join |
| Sessions.ModeWriters | internal/app/webrtc.go:716-747 | while a peer stays registered for a live session, the mode changes if and only if that peer reports a new one or an older offer fails |
| Sessions.FailedOfferOverwritesNewerPeer | internal/app/webrtc.go:238-247 | from any state with a connected viewer: a run in which a failing older offer overwrites the mode of a registered, connected peer |
| SessionPeers.OpenOkStep | internal/app/webrtc.go:231-262 | every step keeps: a registered peer is open and nobody is about to close it, a peer about to be closed is out of the registry, an open peer has no handler left |
| SessionPeers.HowPeersLeave | internal/app/server.go:676-699 | a registered peer leaves the registry to be closed, with the process, or unclosed; and unclosed exactly when another answer of its session takes its place |
| SessionPeers.OrphanStep | internal/app/webrtc.go:256-262 | a step leaves a peer open outside the registry if and only if it displaces it, or it was so before and the process goes on |
| SessionPeers.OrphansExactly | internal/app/webrtc.go:219-264 | in every reachable state the open peers that are neither registered nor about to be closed are exactly those displaced by another answer since the process started |
| SessionPeers.ClosingStep | internal/app/server.go:676-699 | a step leaves a peer about to be closed if and only if it takes it out of the registry, or it was so before and neither its close returned nor the process ended |
| SessionPeers.ClosingExactly | internal/app/server.go:676-699 | in every reachable state the peers about to be closed are exactly those taken out of the registry whose close has not returned |
| SessionPeers.ForeignInputExactly | internal/app/webrtc.go:749-769 | in every reachable state a peer whose lease is not its session's is heard if and only if the session takes input and the peer's close has not returned or it was displaced; what is heard moves the current viewer's pointer |
| SessionPeers.NoOrphansOneAtATime | internal/app/webrtc.go:219-264 | in runs that begin no offer while another is being answered every open peer is registered or about to be closed |
| SessionPeers.ForeignInputOneAtATime | internal/app/webrtc.go:749-769 | in such runs a peer whose lease is gone is heard if and only if the session takes input and the peer's close has not returned |
| SessionPeers.OrphanControlsUnderNewLease | internal/app/server.go:676-699 | a run from the empty server: two answered offers, a takeover, the newer peer closed, and the older one moves the pointer of the new lease holder |
| SessionPeers.ClosingPeerControlsUnderNewLease | internal/app/server.go:676-699 | a run from the empty server with one offer: it is answered, a second viewer joins, and before the close the first peer moves the new lease holder's pointer |
| SessionReplies.LookupExactly | internal/app/server.go:808-822 | a link finds its session if and only if that is live at the time; otherwise that session alone is marked as over if it is past its end |
| SessionReplies.JoinExactly | internal/app/server.go:635-701 | a join succeeds if and only if the link names a live session, the code is its own where one is required, and the request brings its lease or a new one was drawn; every other case has its reply; the session is then connected, in its mode, under that lease, its peer taken out and the file written |
| SessionReplies.RightCodeJoins | internal/app/server.go:654-658 | whoever brings the session's own code gets in |
| SessionReplies.BeginOfferExactly | internal/app/webrtc.go:219-236 | an offer is begun if and only if its sender holds the non-empty lease of a live, connected session, with the reply of every other case and the whole new state |
| SessionReplies.FinishOfferExactly | internal/app/webrtc.go:250-278 | an answered offer is registered if and only if its session is there, not over, connected and still under its lease, with the reply of every other case |
| SessionReplies.FailedOfferExactly | internal/app/webrtc.go:241-246 | a failed offer leaves a session that is not over on screenshots and in the file |
| SessionReplies.ReportExactly | internal/app/webrtc.go:733-747 | a report of the registered peer sets and stores the mode of a session that is not over; any other, and the same mode again, changes nothing |
| SessionReplies.ControlExactly | internal/app/server.go:703-758 | a request's press is accepted and recorded if and only if it comes from the lease holder of a live, connected session that may be controlled, with the reply of every other case |
| SessionReplies.PeerControlExactly | internal/app/webrtc.go:749-769 | a data channel's press is recorded if and only if the session is not over, connected and controllable |
| SessionReplies.ProfileExactly | internal/app/webrtc.go:101-123 | a profile choice is accepted, and the file written, if and only if it comes from the lease holder of a live, connected session |
| SessionReplies.PollExactly | internal/app/server.go:824-840 | exactly the sessions past their end expire, and the active id is dropped if its session is not live |
| SessionReplies.PollWritesFile | internal/app/server.go:824-840 | if one did, the file holds what memory holds |
| SessionReplies.CreateExactly | internal/app/server.go:519-576 | the reply of every case of a creation, and what is created: a waiting session with the device, code, control and end asked for, the active one, reached by its token and in the file |
| SessionReplies.StopExactly | internal/app/server.go:594-620 | a stop ends the session that has the id, whatever its state, takes its peer out and writes the file; an unknown id is answered not found |
| SessionReplies.StopEndsForGood | internal/app/server.go:594-620 | a stopped session is live in no later state of any run |
| SessionReplies.RestartExactly | internal/app/session_store.go:22-75 | a restart brings back exactly the live sessions, with every field but lease, pointer start and mode |
| SessionReplies.LoadsExactly | internal/app/session_store.go:34-44 | from a file of any content a session is loaded if and only if it has an id and a token and is live |
| SessionServer.SaveSessionStore | internal/app/session_store.go:50-75 | the loop writes exactly the live sessions, stripped of lease and pointer start, ids and tokens distinct |
| SessionServer.LoadSessionStore | internal/app/session_store.go:22-48 | the loop fills the two maps with the sessions that load and keeps the active id exactly when it is among them |
| SessionServer.LoadIsRestart | internal/app/session_store.go:22-75 | for any saved file, loading equals the restart the protocol theorems speak about, and the token map is the inverse of the ids |
| SessionServer.Server.PersistSessionsLocked | internal/app/server.go:121-125 | the file on disk becomes the abstract store of the current sessions |
| SessionServer.Server.SessionByTokenLocked | internal/app/server.go:808-822 | the lookup refreshes the one session it finds, persists nothing, and finds exactly what `Lookup` says |
| SessionServer.Server.RefreshSessionsLocked | internal/app/server.go:824-840 | every session is refreshed, a stale active id dropped, the file written exactly when something expired |
| SessionServer.Server.HandleCreateSession | internal/app/server.go:519-576 | reply and whole new state are those of the protocol's create: unknown devices, devices not ready, unsupported custom profiles and failing random draws are told apart and create nothing |
| SessionServer.Server.HandleJoinSession | internal/app/server.go:635-701 | reply, lease handed out and whole new state are those of the protocol's join; a lease that cannot be drawn changes nothing |
| SessionServer.Server.BeginWebRTCOffer | internal/app/webrtc.go:219-236 | the first critical section of an offer |
| SessionServer.Server.FinishWebRTCOffer | internal/app/webrtc.go:238-264 | the second critical section, with the conflict check of offerConflictStatus |
| SessionServer.Server.SetWebRTCState | internal/app/webrtc.go:716-731 | mode and file change exactly when the session is live and the mode differs |
| SessionServer.Server.SetSessionState | internal/app/webrtc.go:733-747 | the same, only for the peer that is registered |
| SessionServer.Server.HandleControlEvent | internal/app/server.go:703-758 | ownership check and pointer start as in the protocol's control event |
| SessionServer.Server.HandleStreamProfile | internal/app/webrtc.go:102-117 | only the connected lease holder's choice is accepted, and it writes the file |
| SessionServer.Server.HandlePeerControl | internal/app/webrtc.go:749-769 | input from a peer: the whole new state, with no question about the peer |
| SessionServer.Server.HandleStopSession | internal/app/server.go:594-620 | the session is stopped and persisted, its peer removed |
| SessionServer.Server.Restart | internal/app/server.go:78-119 | memory is what the file restores, nothing is in flight |
| Recovery.RunKeepsInv | internal/app/web/controller.js:985-1110 | after every order of events: at most one round, no retry armed while a round starts or the breaker is open, every connection ever made closed except the current one, watchdog and channel belong to the current one |
| Recovery.ClosedForGood | internal/app/web/controller.js:1009-1082 | a closed connection stays closed, and its channel and state callbacks change nothing for the rest of the run |
| Recovery.BlockedViewerStartsNothing | internal/app/web/controller.js:159-174 | while the takeover overlay is up no order of events starts a round |
| Recovery.RecoveryBudget | internal/app/web/controller.js:675-739 | for every run: rounds started are at most 1, plus what joins, manual retries and healthy connections allow, plus one per full 30 s |
| Recovery.UnattendedRecoveryBudget | internal/app/web/controller.js:675-739 | one join and only failures after it: at most 2 + floor(T / 30000) rounds by T ms |
| Recovery.TimersStayNear | internal/app/web/controller.js:695-709 | in every run an armed retry is due within 1.6 s and an armed watchdog within 35 s |
| Recovery.OneAutomaticRetry | internal/app/web/controller.js:699-709 | the first loss arms one retry exactly 1.6 s away, a loss after that one opens the breaker |
| Recovery.VisibilityReopensExactly | internal/app/web/controller.js:683-692 | with the breaker open, becoming visible leads to a new round if and only if 30 s have passed, and otherwise changes nothing |
| Recovery.RecoveryKeptExactly | internal/app/web/controller.js:1020-1110 | a step strands a joined viewer (no data channel, nothing automatic due or under way, no breaker shown) if and only if, without a data channel, a round returns with nothing pending, a manual retry is made behind a decoded frame, or the connection reports that it is up |
| Recovery.NeverStalls | internal/app/web/controller.js:675-718 | a run without those steps never strands a viewer |
| Recovery.NothingByItself | internal/app/web/controller.js:695-718 | with no round, data channel or retry left no run starts a round until somebody joins, asks for video or comes back to the page, or a connection still there reports its loss |
| Recovery.WaysOut | internal/app/web/controller.js:242-260 | from a stranded page: joining and a manual retry without a decoded frame start a round; coming back, or the loss of a connection still there, arms a retry if and only if no recovery was spent, and otherwise opens the breaker |
| Recovery.WaysOutOfTheBreaker | internal/app/web/controller.js:242-260 | behind the breaker: joining and a manual retry start a round, a manual retry behind a decoded frame strands the viewer |
| Recovery.DueRetryStarts | internal/app/web/controller.js:709-717 | an armed retry may fire exactly when its time has come, and starts a round unless media is back |
| Recovery.PendingRoundReturns | internal/app/web/controller.js:1104-1109 | a round that returns with a recovery pending leads to a retry at once or to the breaker |
| Recovery.HungForGood | internal/app/web/controller.js:985-990 | while a round waits for an operation on a closed connection that does not reject, no run starts another round |
| Recovery.HungRoundRejects | internal/app/web/controller.js:1092-1109 | if it rejects, a joined viewer gets a retry at once or the breaker |
| Recovery.DroppedRoundReturns | internal/app/web/controller.js:1086-1110 | a round gathering candidates whose connection was dropped with nothing pending posts its offer, is answered, returns and schedules nothing |
| Recovery.ReclaimDuringRoundStalls | internal/app/web/controller.js:117-140 | a run from the loaded page: takeover while candidates are gathered, reclaim, and the viewer ends stranded |
| Recovery.ReclaimDuringOfferHangs | internal/app/web/controller.js:1084-1085 | a run from the loaded page: takeover while the offer is made, reclaim, and the round waits on a closed connection |
| Recovery.RetryBehindOldFrameStalls | internal/app/web/controller.js:242-260 | a run from the loaded page, event by event: the connection comes up and its channel does not, the watchdog drops it, coming back opens the breaker, and a manual retry behind the last frame ends stranded |
| Recovery.ChannelLossStalls | internal/app/web/controller.js:1020-1061 | a run from the loaded page, event by event: the channel closes while the connection is interrupted, and the connection coming up again takes back the retry and ends stranded |
| Recovery.Controller.ScheduleWebRTCRecovery | internal/app/web/controller.js:675-718 | guards, cooldown, backoff and breaker: the whole new state is that of `Schedule` |
| Recovery.Controller.OpenWebRTCCircuit | internal/app/web/controller.js:720-733 | opening the breaker, whole new state |
| Recovery.Controller.ResetWebRTCCircuit | internal/app/web/controller.js:735-739 | closing it, whole new state |
| Recovery.Controller.CleanupWebRTC | internal/app/web/controller.js:746-782 | timers cleared, channel and connection dropped and closed, whole new state |
| Recovery.Controller.StartWebRTC | internal/app/web/controller.js:985-990 | a round starts unless one is running or the viewer is blocked, whole new state |
| Recovery.Controller.OnConfigReply | internal/app/web/controller.js:992-1082 | the synchronous stretch that builds the connection and arms the watchdog, or opens the breaker and returns |
| Recovery.Controller.OnAwaitDone | internal/app/web/controller.js:1084-1091 | each resumption, with the check that the connection is still the current one; an operation on a closed connection does not succeed |
| Recovery.Controller.OnAwaitFailed | internal/app/web/controller.js:1092-1110 | the catch and finally blocks |
| Recovery.Controller.OnWatchdog | internal/app/web/controller.js:1065-1082 | the offer watchdog drops its own connection only and schedules a recovery |
| Recovery.Controller.OnDataChannelOpen | internal/app/web/controller.js:1009-1019 | guarded: only the current connection clears watchdog and counter |
| Recovery.Controller.OnDataChannelClose | internal/app/web/controller.js:1020-1031 | guarded: only the current connection's closing schedules a recovery |
| Recovery.Controller.OnConnectionStateChange | internal/app/web/controller.js:1048-1061 | guarded: connected clears timer and counter, failure schedules |
| Recovery.Controller.PerformJoin | internal/app/web/controller.js:117-140 | joining lifts the block and starts a round outside the demo |
| Recovery.Controller.RetryLowLatencyVideo | internal/app/web/controller.js:242-260 | a manual retry closes the breaker and starts a round unless video is already decoded |
| Recovery.Controller.OnVisibilityChange | internal/app/web/controller.js:1264-1270 | becoming visible schedules at once unless media is there |
| Recovery.Controller.OnRetryTimer | internal/app/web/controller.js:709-717 | the armed retry starts a recovery round unless media is there |
| Recovery.Controller.DisplayTakeover | internal/app/web/controller.js:159-174 | takeover: blocked, cleaned up, not joined |
| Recovery.Controller.LeaveSession | internal/app/web/controller.js:1183-1194 | the session's end: cleaned up, not joined, not blocked |
| RecoveryCallbacks.TakeoverAnswer | internal/app/web/controller.js:1093-1096 | a takeover answer blocks the page, ends the join, closes the connection, clears every timer and starts nothing |
| RecoveryCallbacks.GoneAnswer | internal/app/web/controller.js:1097-1100 | an answer that the session is gone does the same without blocking |
| RecoveryCallbacks.NoticeOrEnd | internal/app/web/controller.js:159-174 | the same two outside a round |
| RecoveryCallbacks.ScheduleExactly | internal/app/web/controller.js:675-718 | what a loss leads to in every state, in milliseconds: nothing, a note, a retry after 1600 or at once, the breaker, or its end after 30000 |
| RecoveryCallbacks.ConfigNegotiates | internal/app/web/controller.js:1004-1082 | a config reply builds the next connection and its channel and gives them 35000 ms |
| RecoveryCallbacks.ConfigRefuses | internal/app/web/controller.js:998-1003 | without a real-time path the breaker opens and the round returns |
| RecoveryCallbacks.RoundGoesOn | internal/app/web/controller.js:1084-1110 | the awaits of a round in order, where it returns, and what a pending recovery then does |
| RecoveryCallbacks.RoundFails | internal/app/web/controller.js:1101-1109 | any other failure of a joined viewer's round is a loss once it has returned |
| RecoveryCallbacks.WatchdogDrops | internal/app/web/controller.js:1065-1082 | the watchdog, never before its time, closes the current connection, and that is a loss |
| RecoveryCallbacks.LinkCallbacks | internal/app/web/controller.js:1009-1061 | the callbacks of the current connection and its channel, field by field; those of any other change nothing |
| RecoveryCallbacks.JoinAndRetry | internal/app/web/controller.js:117-140 | joining lifts the block and begins a round; a manual retry closes the breaker and begins one unless a frame is decoded |
| RecoveryCallbacks.RetryAndReturn | internal/app/web/controller.js:709-717 | a due retry begins a round and coming back is a loss at once, exactly when a joined viewer lacks connection, channel or picture |
| RecoveryCallbacks.Delays | internal/app/web/controller.js:707 | the delays in milliseconds; the doubling ends at 12800, so the limit of 30000 never decides |
| RecoveryCallbacks.NothingUnasked | internal/app/web/controller.js:675-680 | in every order of events a page that nobody joins and nobody asks for video starts no round and makes no connection |
| Scrcpy.SampleOfPacket | internal/app/scrcpy_stream.go:352-405 | one sample per non-empty media packet, in order; each key frame carries the most recent non-empty configuration before it, no other frame does |
| Scrcpy.ForwardOfStream | internal/app/scrcpy_stream.go:309-406 | for every sequence of well-formed packets, reading its encoding yields exactly the samples and sizes the packets stand for |
| Scrcpy.ForwardOfPrefix | internal/app/scrcpy_stream.go:352-405 | whatever bytes follow the packets, reading goes on from the packets' own configuration and timestamp |
| Scrcpy.ForwardOfAnyCut | internal/app/scrcpy_stream.go:309-406 | cut at any byte of the whole stream: nothing but the end inside the preamble, otherwise exactly the samples and sizes of the packets wholly before the cut, and a clean end exactly at the offsets between reads |
| Scrcpy.ForwardOfCutPreamble | internal/app/scrcpy_stream.go:309-350 | cut in the codec word or the first session block: no sample, no size, and a clean end exactly between two reads |
| Scrcpy.ForwardOfCutStream | internal/app/scrcpy_stream.go:352-372 | cut inside packet k: exactly the samples and sizes of the packets before it |
| Scrcpy.MalformedPacketEnds | internal/app/scrcpy_stream.go:363-376 | a resize without a size or an oversized payload after well-formed packets: everything before is kept and the loop ends with that error |
| Scrcpy.InitialBlockIsASessionPacket | internal/app/scrcpy_stream.go:316-350 | the first 12-byte block parses exactly as a session packet in the loop would, and is refused without its flag |
| Scrcpy.ClosedWriterCuts | internal/app/scrcpy_stream.go:398-405 | a writer closed after n samples: the same samples up to n, then its error |
| Scrcpy.DurationPositive | internal/app/scrcpy_stream.go:389-397 | every duration is positive for the profile's frame rates |
| Scrcpy.DurationsTelescope | internal/app/scrcpy_stream.go:389-397 | for increasing positive timestamps with gaps under a second, the durations after the first add up to last minus first |
| Scrcpy.DurationExactly | internal/app/scrcpy_stream.go:389-397 | for all timestamps: the duration is the gap modulo 2^64 ns exactly when that is positive and under a second, and otherwise one frame interval |
| Scrcpy.LongGapIsOneInterval | internal/app/scrcpy_stream.go:389-397 | a gap of a second or more counts as one frame interval if and only if its remainder modulo 2^64 ns is 0, a second or more, or that interval |
| Scrcpy.HugeGapWraps | internal/app/scrcpy_stream.go:391-394 | a concrete pair of timestamps whose difference wraps around |
| Scrcpy.VideoStream.ReadFull | internal/app/scrcpy_stream.go:352-372 | a full read or the two kinds of short read, told apart |
| Scrcpy.VideoStream.ReadUint | internal/app/scrcpy_stream.go:607-617 | the big-endian number of the next bytes |
| Scrcpy.VideoStream.Refill | internal/app/scrcpy_stream.go:384-387 | the configuration buffer reused in place holds exactly the new payload |
| Scrcpy.VideoStream.ForwardOne | internal/app/scrcpy_stream.go:352-405 | one turn of the loop: result, sizes and handed-over frames are those of `Parse`, and frames handed over earlier are unchanged |
| Scrcpy.VideoStream.Run | internal/app/scrcpy_stream.go:309-406 | the whole loop equals `Forward`, and no handed-over frame's bytes ever change although the buffer is reused |
| ScrcpyBytes.CodecIsH264 | internal/app/scrcpy_stream.go:309-322 | a stream is refused for its codec if and only if its first four bytes are not 0x68 0x32 0x36 0x34 |
| ScrcpyBytes.FirstBlock | internal/app/scrcpy_stream.go:323-350 | behind them twelve bytes go on as the packet loop reads them if their first byte is 0x80 or more, and are refused otherwise |
| ScrcpyBytes.HeaderInBytes | internal/app/scrcpy_stream.go:352-392 | flags and timestamp of a header by its bytes |
| ScrcpyBytes.PacketInBytes | internal/app/scrcpy_stream.go:352-405 | one packet by its bytes: session, configuration or frame, the key bit 0x20, a payload of at most 8388608 bytes, and every way it can end |
| ScrcpyBytes.DurationInNumbers | internal/app/scrcpy_stream.go:389-397 | microseconds in, nanoseconds out, and one frame interval at the start, for repeated timestamps and for gaps of a second or more |
| BigEndians.FourBytes | internal/app/scrcpy_stream.go:607-617 | the first of four bytes weighs 2^24 |
| Mailbox.RunKeepsInv | internal/app/scrcpy_stream.go:554-605 | after any interleaving of producer, goroutine and Close: each accepted sample has one fate, only the newest can be pending, the slot is empty whenever the producer waits to send |
| Mailbox.NothingLost | internal/app/scrcpy_stream.go:574-598 | accepted = taken + dropped + pending, pending at most one |
| Mailbox.EveryCallIsAnswered | internal/app/scrcpy_stream.go:570-605 | in every run each call was accepted or refused, but for the one still under way |
| Mailbox.TakenInOrder | internal/app/scrcpy_stream.go:558-571 | what is taken sits at strictly increasing positions of what was accepted, and what was written is a prefix of it |
| Mailbox.TakesTheNewest | internal/app/scrcpy_stream.go:564-568 | each sample taken is the newest accepted at that moment |
| Mailbox.NewestIsKept | internal/app/scrcpy_stream.go:585-591 | while open and with no send under way, the newest accepted sample is pending or was the last taken |
| Mailbox.ProducerNeverBlocks | internal/app/scrcpy_stream.go:574-598 | in every reachable state a started WriteSample has an enabled next step and at most four left |
| Mailbox.AfterClose | internal/app/scrcpy_stream.go:600-605 | after closing, at most one sample is still accepted and two taken; after Close has returned nothing is taken or written |
| Mailbox.ClosedRefuses | internal/app/scrcpy_stream.go:575-579 | a call entered after closing is refused and changes neither slot nor history |
| Mailbox.CloseReturns | internal/app/scrcpy_stream.go:554-605 | once the channel is closed the write under way is finished, the goroutine returns at its next select, and Close after it |
| Mailbox.OpenUntilClosed | internal/app/scrcpy_stream.go:554-605 | the mailbox starts open and empty, its first sample lands in the slot, and it can be closed once |
| Mailbox.LatestSampleWriter.CheckClosed | internal/app/scrcpy_stream.go:575-579 | the first select, whole new state |
| Mailbox.LatestSampleWriter.TrySend | internal/app/scrcpy_stream.go:580-584 | the second select, whole new state |
| Mailbox.LatestSampleWriter.DrainOne | internal/app/scrcpy_stream.go:585-591 | the third select and its drop, whole new state |
| Mailbox.LatestSampleWriter.FinalSelect | internal/app/scrcpy_stream.go:592-597 | the last select with either choice, whole new state |
| Mailbox.LatestSampleWriter.Receive | internal/app/scrcpy_stream.go:564-568 | the goroutine's receive, whole new state |
| Mailbox.LatestSampleWriter.Finish | internal/app/scrcpy_stream.go:558-563 | the goroutine's return, whole new state |
| Mailbox.LatestSampleWriter.CloseChannel | internal/app/scrcpy_stream.go:600-603 | closing the channel, whole new state |
| Mailbox.LatestSampleWriter.WriteSample | internal/app/scrcpy_stream.go:574-598 | a whole uninterrupted call: refused and nothing changed, or pending with the previous one dropped |
| FrameChunks.AnyArrivalOrder | internal/app/web/controller.js:1128-1181 | after a header, for every sequence of genuine chunks (any order, repeated) mixed with short packets and chunks of other frames, the page holds exactly the arrived parts, and shows the original frame once all indices have arrived |
| FrameChunks.ShownExactlyWhenComplete | internal/app/web/controller.js:1156-1160 | a message makes the frame appear if and only if it brings the last missing index |
| FrameChunks.SentIsShown | internal/app/webrtc.go:671-696 | what the sender sends for 1 to 65535 chunks is shown as it was |
| FrameChunks.RunKeepsConsistent | internal/app/web/controller.js:1149-1181 | for any messages at all, the counter is the number of parts held and an unfinished frame has a hole |
| FrameChunks.ReceiveKeepsConsistent | internal/app/web/controller.js:1149-1181 | a frame is shown only when every part is present, and as their concatenation |
| FrameChunks.BlobOfChunks | internal/app/webrtc.go:680-685 | chunks in order concatenate to the frame |
| FrameChunks.FillPacket | internal/app/webrtc.go:681-690 | the buffer filled field by field is the packet of that index |
| FrameChunks.SendFrame | internal/app/webrtc.go:671-696 | an impossible chunk count sends nothing; otherwise exactly the messages that fit the channel's remaining room, and an error exactly when it ran out |
| FrameChunks.PacketInBytes | internal/app/webrtc.go:671-690 | a packet byte by byte: the frame's number in four, its own and the count in two each, and 12288 bytes of the frame or what is left |
| FrameChunks.SendableExactly | internal/app/webrtc.go:671-675 | frames of 1 to 805294080 bytes are sent |
| FrameChunks.StrangerInBytes | internal/app/web/controller.js:1149-1156 | a packet is passed over if and only if it is shorter than eight bytes, of another frame or count, or numbered beyond it, by its bytes |
| FrameChunks.ReceivedExactly | internal/app/web/controller.js:1156-1181 | any other packet fills its own place if that is empty, and the last one shows the frame |
| FrameChunks.HeaderReceived | internal/app/web/controller.js:1131-1134 | a header begins a frame with that many empty places, up to 4294967295 |
| FrameChunks.Receiver.ReceiveHeader | internal/app/web/controller.js:1131-1134 | a header replaces the frame being assembled, an impossible length is ignored |
| FrameChunks.Receiver.ReceiveFrameChunk | internal/app/web/controller.js:1149-1181 | the in-place assembly changes the page exactly as `Receive` says |
| Fips180.PaddingIsTheStandards | internal/app/web/app.js:318-328 | read on bits, the padding is the message, a 1, zeros and the 64-bit length of FIPS 180-4, section 5.1.1 |
| Fips180.ZeroBitsIsLeast | internal/app/web/app.js:319-320 | the number of zeros is the least that reaches 448 modulo 512 |
| Fips180.ConstantsAreCubeRoots | internal/app/web/app.js:305-314 | each round constant is the first 32 fractional bits of the cube root of its prime |
| FirstPrimes.PrimesAreTheFirst | internal/app/web/app.js:305-314 | those primes increase, and a number up to the last of them is prime if and only if it is one of them: they are the first 64 |
| Fips180.InitialWordsAreSquareRoots | internal/app/web/app.js:330-331 | the initial hash words are the square-root fractions of the first eight of them |
| Fips180Bits.ChAndMajOnBits | internal/app/web/app.js:345-348 | choice and majority on 32-bit vectors, bit by bit, majority as the or of the three pairs |
| Fips180Bits.BigSigmasOfOne | internal/app/web/app.js:344-347 | where the rotations of the two large sigma functions take a single bit |
| Fips180Bits.SmallSigmasOfOne | internal/app/web/app.js:338-339 | where the rotations of the two small ones take it, and that their shifts drop it |
| Fips180Bits.SmallSigmasShift | internal/app/web/app.js:338-339 | those shifts leave the lowest bit of a bit as high as their amount |
| Fips180Bits.DigestOfBlocks | internal/app/web/app.js:333-355 | every block of the padded message is hashed, and there are no more of them than the message and nine bytes need |
| JsNumbers.ToInt32Exactly | internal/app/web/app.js:301-303 | the result of a bitwise operator is the signed 32-bit number with the same residue, and no other |
| AppCrypto.Rotr32Rotates | internal/app/web/app.js:301-303 | the signed rotation is ROTR of section 3.2, read as an unsigned word |
| AppCrypto.PadMessage | internal/app/web/app.js:318-328 | the padded array is the standard's padding for every length |
| AppCrypto.MessageSchedule | internal/app/web/app.js:334-341 | the 64 words written in place are the schedule W_t |
| AppCrypto.RoundOfSigned | internal/app/web/app.js:344-351 | one round with signed intermediate values equals the standard's round modulo 2^32 |
| AppCrypto.TableIsTheStandards | internal/app/web/app.js:305-314 | the browser's 64 constants are the standard's, one by one |
| AppCrypto.SixtyFourRounds | internal/app/web/app.js:342-352 | the loop over a to hh, with the browser's own constants, equals 64 standard rounds |
| AppCrypto.Sha256 | internal/app/web/app.js:317-364 | for every byte array the result is the SHA-256 digest of sections 5 and 6.2.2 |
| AppCrypto.HmacSha256 | internal/app/web/app.js:368-387 | equals HMAC of section 2 of RFC 2104, long keys hashed first |
| AppCrypto.DeriveBlock | internal/app/web/app.js:403-414 | with one iteration or more the in-place xor loop equals F of section 5.2 of RFC 8018 with that count, with less it equals F with one; and how often it yields |
| AppCrypto.Pbkdf2Sha256 | internal/app/web/app.js:397-419 | the key is PBKDF2's with the iterations asked for, and with one if fewer than one are, whatever the batch size; the number of yields in terms of iterations, length and batch size |
| Rfc8018.ShorterKeyIsAPrefix | internal/app/web/app.js:415-417 | a longer key only adds bytes at its end |
| Rfc8018.HmacSpelledOut | internal/app/web/app.js:368-387 | HMAC over the bytes of a key of up to 64 bytes with zeros behind it, and a longer key counts as its digest |
| Utf8.Utf8Encode | internal/app/web/app.js:277-299 | the loop joins surrogate pairs and writes the bytes of every code point |
| Utf8.EncoderIsUtf8Exactly | internal/app/web/app.js:277-299 | the bytes are UTF-8 by the grammar of RFC 3629 if and only if every surrogate of the string is paired; they then decode to its code points, and those give the string back |
| Utf8.DecodedOfEncoded | internal/app/web/app.js:288-296 | encoded code points decode to themselves if and only if none is a surrogate |
| Utf8.DecodedExactly | internal/app/web/app.js:288-296 | bytes are UTF-8 for given code points if and only if they are the encoder's bytes for those points and none is a surrogate: nothing overlong is read |
| Utf8.UnitsOfCodePoints | internal/app/web/app.js:279-287 | no string is lost in its code points |
| Utf8.LoneSurrogateIsNotUtf8 | internal/app/web/app.js:292-293 | a lone surrogate becomes three bytes that do not decode |
| Utf8.EncodedCharacters | internal/app/web/app.js:288-296 | one character of each length, byte by byte |
| Base64.PushAllRegroups | internal/app/web/app.js:234-249 | the wrapping 32-bit accumulator yields exactly the regrouped bits of RFC 4648, whatever it held before |
| Base64.JsDecodeRegroups | internal/app/web/app.js:228-250 | the browser's result without an accumulator: refused, or the regrouped values |
| Base64.SaltRoundTrip | internal/app/frp_auth.go:795-808 | for all bytes, both alphabets, padded or not, with white space around: browser and server both decode the encoding to the bytes |
| Base64.BrowserAgreesWithDecoder | internal/app/frp_auth.go:797-806 | whichever of the four decoders succeeds, the browser returns bytes, the same if and only if the U+0085s around the salt are harmless |
| Base64.BrowserExtendsServer | internal/app/web/app.js:228-250 | every salt the server decodes the browser decodes, to the same bytes if and only if no U+0085 stands before it (but for a single one before groups of the letter A alone) and any behind it follow padding, or one follows whole groups |
| Base64.BrowserOnAccepted | internal/app/web/app.js:228-250 | the browser's bytes for every salt the server decodes: a zero for each U+0085 read |
| Base64.ServerAcceptsExactly | internal/app/frp_auth.go:795-808 | the server accepts a salt if and only if, white space around and line ends aside, it is letters of one alphabet, not one more than a multiple of four, with no padding or all of it |
| Base64.EncoderIsUrlUnpadded | internal/app/web/app.js:216-220 | the encoder is section 5 of RFC 4648 without padding, and both decoders invert it |
| Base64.BrowserAcceptsExactly | internal/app/web/app.js:237-243 | the browser accepts a salt if and only if every character before the first equals sign, white space aside, is known or not ASCII |
| Base64.DecodersDiffer | internal/app/web/app.js:232-249 | a salt both decode to different bytes, and three the browser decodes and the server refuses |
| Base64.BuildLookup | internal/app/web/app.js:229-231 | the loop fills the table so that every ASCII character finds its value or -1 |
| Base64.Base64SaltBytes | internal/app/web/app.js:228-250 | the loop computes exactly that decoding |
| Base64.AlphabetInFull | internal/app/web/app.js:229-231 | the alphabets as RFC 4648 prints them |
| Base64.EncodedVectors | internal/app/web/app.js:216-220 | the standard's vectors for one, two and three bytes, and two bytes on which the alphabets differ |
| Base64.JsSpacesAre | internal/app/web/app.js:232-233 | the characters the browser takes for white space |
| Base64.NewlinesAre | internal/app/frp_auth.go:797-806 | the characters the server skips inside a salt |
| SdpRewrite.RewriteLaws | internal/app/webrtc.go:430-458 | as many lines; a host candidate keeps every field but the port, and its carriage return; other lines unchanged; without a host candidate the text unchanged |
| SdpRewrite.RewriteTwice | internal/app/webrtc.go:430-458 | rewriting to p and then to q is rewriting to q |
| SdpRewrite.RewrittenHost | internal/app/webrtc.go:442-452 | a rewritten host line reads as its new fields and is a host line again |
| SdpRewrite.ItoaIsDecimal | internal/app/webrtc.go:446-446 | the written number reads back as the port, without leading zeros, behind a minus sign if it is negative |
| SdpRewrite.RewriteICECandidatePort | internal/app/webrtc.go:430-458 | the loop overwriting lines in place computes the rewrite; the local port plays no part |
| SdpRewrite.BuiltLine | internal/app/webrtc.go:438-452 | a line built from any fields is rewritten, in its sixth, if and only if it begins with "a=candidate:" and has at least eight, the seventh "typ" and the eighth "host" |
| ShellQuote.QuotingRoundTrip | internal/app/control.go:81-96 | for every sequence of argument lists the shell reads back exactly input and each list, with no character taken specially, if and only if no argument holds a NUL |
| ShellQuote.ReadReplaced | internal/app/control.go:137-143 | inside quotes an argument is read back, its own quotes included |
| ShellQuote.PartialLineRunsNothing | internal/app/control.go:87-91 | however much of a line got through, the shell has run the earlier lines and nothing else |
| ShellQuote.LiveShellRan | internal/app/control.go:81-96 | a live shell has run exactly the lists sent to it, in order, if and only if none holds a NUL |
| ShellQuote.NulKeyIsNotRead | internal/app/control.go:189-190 | a key event whose one character is a NUL: the shell does not read the command |
| ShellQuote.ArgumentsInFull | internal/app/control.go:137-143 | an argument without and with a quote as they are typed |
| ShellQuote.AdbInputShellLine | internal/app/control.go:137-143 | the loop and the join build the line |
| ShellQuote.ControlShell.Input | internal/app/control.go:81-96 | any arguments are delivered exactly once as a whole line, to a direct call exactly when both attempts fail or no shell starts; without a NUL a killed shell has run none of them |
| ShellQuote.ControlShell.StartLocked | internal/app/control.go:98-117 | starts a shell only if none runs |
| ShellQuote.ControlShell.StopLocked | internal/app/control.go:125-135 | the shell is gone with what it had been given |
| Challenge.RunKeepsInv | internal/app/frp_auth.go:307-374 | after any interleaving an attempt is in one place only: the slot, one login, or forwarded once |
| Challenge.OneShot | internal/app/frp_auth.go:327-352 | each minted attempt is forwarded by at most one browser login, with its own user, service and challenge, checked at most 60 s after minting |
| Challenge.ForwardsAreBounded | internal/app/frp_auth.go:647-658 | forwarded logins never exceed minted attempts, nor accepted requests plus background mints |
| Challenge.RequestRate | internal/app/frp_auth.go:218-227 | any window of T seconds holds at most T / 3 + 1 accepted challenge requests |
| Challenge.ForwardedExactly | internal/app/frp_auth.go:327-352 | a login that runs through is forwarded if and only if it names the stored challenge and user and is checked within 60 s; the slot is empty after it in every case |
| Challenge.RequestExactly | internal/app/frp_auth.go:218-227 | a request gets the slot if and only if it is the first or comes 3000 ms or more after the last that got it, whole new state |
| Challenge.MintExactly | internal/app/frp_auth.go:647-659 | a mint leaves the new attempt in the slot, for the user, service and time of its request |
| Challenge.FailedRequestMintsNothing | internal/app/frp_auth.go:609-634 | a request whose proxied call failed leaves the slot as it was and can mint nothing later |
| Challenge.RemoteAdminService.AcquireActionSlot | internal/app/frp_auth.go:218-227 | the slot is given exactly when 3 s have passed, whole new state |
| Challenge.RemoteAdminService.StoreAttempt | internal/app/frp_auth.go:647-659 | minting for a browser's request, whole new state |
| Challenge.RemoteAdminService.StoreAutoAttempt | internal/app/frp_auth.go:919-927 | minting for the background sign-in into the same slot, whole new state |
| Challenge.RemoteAdminService.ConsumeAttempt | internal/app/frp_auth.go:327-336 | taking the attempt, whole new state |
| Challenge.RemoteAdminService.CheckAttempt | internal/app/frp_auth.go:337-352 | expiry and user checks, then the forwarded login, whole new state |
| UdpForward.Provenance | internal/app/public_access.go:427-518 | in every run a mapping held, persisted or advertised was loaded at the start or returned by a discovery of the run; the advertisement is for the bound port, and a fresh one was returned by a discovery of the run |
| UdpForward.DiscoveredExactly | internal/app/public_access.go:445-467 | what counts as discovered is exactly what some discovery of the run returned |
| UdpForward.DiscoveryExactly | internal/app/public_access.go:441-467 | a discovery returns a mapping if and only if the API answered, a server address was read that is not empty and holds neither / nor @, and the first enabled UDP tunnel for the port has a public port from 1 to 65535; the mapping is that tunnel's |
| UdpForward.ValidExactly | internal/app/public_access.go:123-128 | a stored mapping is valid for a port if and only if its host is not blank, its public port is 1 to 65535 and it is for that port |
| UdpForward.AdvertisedValidExactly | internal/app/server.go:243-264 | a recovered advertisement is valid for the bound port, a fresh one exactly when its host is not blank |
| UdpForward.RestoredExactly | internal/app/public_access.go:479-486 | a failed discovery falls back on the mapping in memory, marked stale, if and only if that one is valid for the port |
| UdpForward.NothingWithoutACopy | internal/app/public_access.go:624-630 | under manual settings a Sync does nothing, and a call that holds no copy neither stores nor writes |
| UdpForward.BlankHostIsAdvertised | internal/app/public_access.go:1006-1023 | a concrete discovery whose advertisement is not valid |
| UdpForward.FirstTargetIsFirst | internal/app/public_access.go:445-467 | the first enabled UDP tunnel for the port decides |
| UdpForward.CallKeepsSettled | internal/app/public_access.go:530-580 | without overlap file and memory agree after each call, with the mapping named; a mapping is lost if and only if settings are saved as manual |
| UdpForward.WriteExactly | internal/app/public_access.go:496-528 | for every store and write of any call's copy, after any events of other calls: it puts the copy's mapping in place, another one than memory's exactly as the last write of those events, or the start, says |
| UdpForward.StaleWriteExactly | internal/app/public_access.go:496-718 | the same for the copies a Sync, a save of 88FRP settings and a discovery take: the write goes behind what memory holds if and only if the last event in between to write memory's mapping wrote another one |
| UdpForward.StaleWriteAfterDiscoveries | internal/app/public_access.go:496-718 | where no other call stores: if and only if the last discovery in between found another mapping |
| UdpForward.StaleSyncErases | internal/app/public_access.go:705-718 | a run in which a Sync begun before a discovery takes the new mapping out of the file, or out of memory |
| UdpForward.StaleSaveErases | internal/app/public_access.go:530-580 | a run in which an ordinary 88FRP save that read the settings before a discovery takes the new mapping out of memory and file |
| UdpForward.CrossedWrites | internal/app/public_access.go:496-511 | a run in which two discoveries' writes cross and the file keeps the older mapping |
| UdpForward.OnlyASyncRepairs | internal/app/public_access.go:496-518 | finding the same mapping again changes nothing; the next Sync's write repairs the file |
| UdpForward.PublicAccessManager.SaveUDPForward | internal/app/public_access.go:496-518 | memory and file take the mapping exactly when it differs |
| UdpForward.PublicAccessManager.RestoreUDPForward | internal/app/public_access.go:479-486 | the stored mapping, marked old, exactly when it is valid for the port |
| UdpForward.PublicAccessManager.DiscoverUDPForward | internal/app/public_access.go:427-467 | the answer is fresh exactly under those conditions and 88FRP settings, and only then does anything change; otherwise the stored mapping exactly when it is valid |
| UdpForward.PublicAccessManager.ReadForSave | internal/app/public_access.go:530-546 | the copy a save holds: the mapping taken over for 88FRP settings, none for manual ones |
| UdpForward.PublicAccessManager.Save | internal/app/public_access.go:530-580 | reading, storing and writing with nothing in between keep the mapping for 88FRP settings and drop it for manual ones |
| UdpForward.IceServer.AdvertiseUDPForwardLocked | internal/app/server.go:243-264 | memory, file and advertisement become those of the protocol's advertising call, which asks for the port of the server's own socket; under manual settings nothing changes |
| UdpForward.AskSections | internal/app/server.go:243-264 | what that call leaves: the discovered mapping, else the stored one where valid for the bound port, else the advertisement as it was |

## Left out

- Sessions are values in the server's map, not shared objects: aliasing of session pointers is not modelled; every handler reads and writes the map entry under the lock.
- Ids, share tokens, viewer tokens and access codes are numbers that are only compared; random draws that succeed are assumed new, the clock monotone, persistence and JSON successful.
- Dispatch of input to the phone after the pointer's start is recorded, and the time of the last input.
- `SessionPeers`: a peer counts as closed once its close call has returned and nothing of its channel is being handled any more; a peer's remote end going away is not modelled.
- Viewer labels, the stream profiles' values once accepted, the rest of device lists, ADB, scrcpy processes, pion, HTTP, cookies, the DOM and the native WebCrypto calls: inputs or events of the models, or not modelled.
- The browser's readings of media (connection state, ready state, decoded video) are inputs of events; a constructor that throws, ICE gathering's timeout and the fallback screenshots are not modelled.
- `Recovery.BlockedViewerStartsNothing` is about starting rounds; a round already past its first check goes on after a takeover.
- JavaScript numbers are exact integers, which they are for every length a typed array can have; `x & 0xff`, `>>` and `|` in the base64 decoder and the UTF-8 encoder are their arithmetic meanings, and the crypto's bit operators are 32-bit vectors.
- `btoa` is the padded standard encoding, Go's base64 decoders follow that package's rules for newlines, padding and short last groups; strings are sequences of code units for both sides.
- The proof's assembly (`deriveFRPProof`): a straight composition of the functions modelled, and native WebCrypto in its place.
- PBKDF2 is stated for every key length; RFC 8018 itself stops at (2^32 - 1) blocks, beyond which the block number wraps in code and model alike.
- `Mailbox`: Close is modelled as one caller's two steps; a second concurrent caller waits inside the once guard.
- `FrameChunks.SendFrame`: the header's MIME type and the frame acknowledgement are not modelled; the pump that would call it has no caller.
- `ShellQuote.ControlShell.Input`: what a shell does with a NUL is left open, and a direct call, whose process arguments cannot hold one, may refuse it; a shell killed after its input was closed is taken to run only completed lines.
- Background sign-in's retry loop, its own forwarded login and session expiry: only its minting into the shared slot is modelled; the single-loop intent is not claimed.
- `LastSuccessURL` in the public settings is not modelled: Sync sets it on a local copy and reads the settings back afterwards.
- Domain-binding status, URL normalisation, credential store, screenshots, security headers and version comparison would only add single-branch members.
