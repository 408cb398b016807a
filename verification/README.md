# Fitz client: a verified model

A Dafny model of the parts of the Fitz client SDK whose correctness lies in how several functions work
together: the request multiplexer and the supervisor around it, the lease observer, route patterns,
the Wire 3 envelope, frame and page codecs, managed lease tokens, queue reservations, the RPC worker
and enqueueing with retries. `dafny verify dfyconfig.toml` checks everything.

Code that changes things in place is modelled in place. A session, the observer task, the supervisor,
the RPC worker, a lease handle, a queue item, the id sequence and the payload cursor are classes; their
methods are proved against a step function on values. The theorems are about runs of that function, and
what each of its steps does is stated once more from outside, in terms of the bytes that came, the bytes
that were written and the answers that were given. Loops of the source are loops here, with their invariants.

| part | files |
|---|---|
| bytes, errors, payload fields | `ByteStrings`, `Errors`, `Codec`, `WireLists` |
| route patterns and stream selectors | `Routes`, `Patterns`, `StreamSelectors` |
| envelopes and frames | `Wire3`, `Envelopes`, `Frames`, `FrameReads`, `IncomingFrames` |
| pages | `StreamPages`, `LeasePages`, `KvPages` |
| request multiplexer | `Multiplexer`, `SessionLoop`, `SessionTables`, `SessionLaws`, `SessionEffects` |
| sessions one after the other | `Supervisor`, `SupervisorTask`, `Reconnects`, `RequestIds` |
| lease observer | `LeaseObserver`, `ObserverLaws`, `ObserverEnds`, `ObserverLoops` |
| leases, reservations, enqueueing | `LeaseTokens`, `LeaseAcquires`, `Reservation`, `Enqueue` |
| RPC worker | `RpcWorker`, `RpcTracking`, `WorkerEffects`, `RpcWorkerTask`, `RpcResponses` |

## Where the code and its documentation part

- A route segment that is itself `**` is compared as a literal before the pattern's `**` is tried, so
  `route_matches_pattern` does not give every pattern its meaning on such routes. They are the only
  routes it goes wrong on, on lists of segments (`Routes.MatcherAgreesExactly`), among patterns that
  can be registered (`Patterns.MatcherAgreesOnPatterns`), and on bytes
  (`Patterns.RouteMatchesItsMeaning`); the pattern it misses is built for every such route.
- The observer is documented as race-safe and self-healing, but a periodic pass that drains
  a notification and then fails is forgotten. `ObserverLaws.PeriodicHole` gives the run for every start
  and every change; `ObserverLaws.QuietViewIsExact` and `ObserverLaws.DirtySince` show that nothing else
  leaves an idle observer outdated without a warning on its way.
- `is_ready` is documented to say that the view is coherent. A task that has ended goes on saying so
  exactly when it was ready and ended by a shutdown or by a LIST on a closed connection
  (`ObserverLaws.EndedObserver`), and its view can then be outdated for good: the run is
  `ObserverLaws.ReadyAfterTheEnd`.
- Lease handles are documented (the SDK's README, lines 205-206) to become stale after an uncertain renewal. They do
  not: `extend` sends a RENEW exactly when the handle has not been released and its session is current,
  so it sends a second one with the same token after one that failed
  (`LeaseTokens.LeaseHandle.Extend`, `LeaseTokens.ExtendAgain`). Only the managed loop never does
  (`LeaseTokens.WithLease`).
- A managed lease whose RELEASE fails sends a second one when its handle is dropped
  (`LeaseTokens.LeaseHandle.Release`).
- The session's table of outstanding requests is overwritten when an id is used again while its slot
  still has a sender, and that sender is lost. Every sender is accounted for if and only if that does
  not happen (`SessionLaws.AllAccountedFor`); a session that is asked at most once under an id is safe,
  whatever commands of earlier sessions it refuses (`SessionLaws.DistinctIdsLoseNone`), and
  `SessionLaws.TakeoverHappens` is a run that loses one. The generation is advanced
  (src/async_connection.rs:630) before the id sequence is reset (611), so a request stamped while the
  client reconnects can carry an id that the new session issues as well.
- The RPC worker tracks calls by correlation id. A call that arrives under the id of one still held
  replaces its entry and with it its cancellation token, and dropping a request removes the entry of any
  other with its id. Every current call can be reached by a cancellation throughout a run if and only if
  no event brings a call under the id of a current one, or drops a request while another current one has
  its id (`RpcTracking.TrackedThroughout`); `RpcTracking.ArrivalTakesOver` and
  `RpcTracking.ReusedIdLosesTracking` are runs of the two kinds.
- Response frames of a call are meant to be numbered without a gap up to the end. `send` can report
  `Timeout` or `Transport` although the frame is written, and `respond` then keeps its number. The frames
  on the wire are sound if and only if none is written after such a one (`RpcResponses.WireIsConsecutive`);
  a caller can rely on it if and only if it does not respond again after such an error
  (`RpcResponses.CarefulCallers`). `RpcResponses.RespondAgain` puts number zero on the wire twice.
- A deferred lease grant arrives with neither a route nor a correlation, and every waiting acquire of the
  connection reads the first one dispatched since it subscribed. The gate against this is per
  `LeaseClient`, and each `client.lease()` makes a new one. An acquire reads its own completion if and only
  if no other acquire's is dispatched first (`LeaseAcquires.OwnGrant`), which is certain while no acquire
  begins before the broker is done with the earlier ones (`LeaseAcquires.SerialNeverCrosses`), as with one
  client that never abandons one (`LeaseAcquires.SoleClient`). `LeaseAcquires.OneGrantForTwo` gives one
  token to two routes, and `LeaseAcquires.GrantOfTheAbandoned` hands one client the grant of the route
  that it gave up.
- `read_tcp_frame` is awaited inside a `select!` (src/async_connection.rs:1016, 1273-1281) and forgets what
  it has read when another branch is served. What is handled and what is still to be read make up the
  frames sent if and only if no other branch is served while a frame is partly read
  (`FrameReads.ReadsWhatWasSent`); `FrameReads.ReadsWhatWasNotSent` handles a frame that was never sent.
- The KV and lease page decoders bound the room they reserve by the response; the stream decoder reserves
  as much as four bytes declare (`StreamPages.ReservationIsUnbounded`), although no page needs more room
  than its size allows (`StreamPages.PlausibleCounts`).

## What is assumed

- Observer: a change made while the link is up and the subscription registered puts one notification
  for this subscription on the link; the pages of one scan come from the snapshot its cursor names; a
  reconnect restores the subscription; the answer to SUBSCRIBE is registered in the session that gave it.
  Fewer than 2^64 notifications are dispatched during one pass.
- Session: a frame is read whole; `FrameReads` says when it is.
- Waiting acquires: the broker sends at most one completion for each, and none for one that it answered
  otherwise.
- Enqueueing at most once: the broker answers effect 0 only to attempts that it has not applied.

## Model

| member | source | states |
|---|---|---|
| Routes.GreedyIsMeaning | src/domains/routes.rs:93-145 | for any pattern, any retry point and any route without a `**` segment, the greedy search with one backtrack point succeeds exactly when the rest of the pattern, or the latest `**` stretched further, matches by the recursive meaning of `*` and `**` |
| Routes.MatcherAgreesExactly | src/domains/routes.rs:93-145 | the matcher has the recursive meaning for all patterns if and only if no route segment is `**` |
| Routes.ConfusingIsMissed | src/domains/routes.rs:112-130 | for every route with a `**` segment, the pattern of single stars around one `**` that matches it by meaning and is rejected by the matcher |
| Routes.MatchPaths | src/domains/routes.rs:103-145 | the index loop over two paths decides exactly the greedy search over their segment lists, and terminates by last wildcard, retry point and route position |
| Routes.RouteMatchesPattern | src/domains/routes.rs:93-103 | the bytes are compared by the matcher whose language `Routes.MatchesUnderOneScheme` gives: schemes present and equal, and then the paths decide |
| Routes.MatchesUnderOneScheme | src/domains/routes.rs:93-103 | for all byte strings, route and pattern match if and only if both are one scheme without a `://` in it, a `://` and a path, and the greedy search accepts the paths |
| Routes.SplitSchemeIs | src/domains/routes.rs:94-102 | a route is split into a scheme and a path exactly where its first `://` stands |
| Routes.OnlyDoublesLeft | src/domains/routes.rs:135-145 | what is left of the pattern matches the empty route exactly when all of it is `**` |
| Routes.SegmentsAreSplit | src/domains/routes.rs:147-158 | wherever no segment is empty, the segments that `next_segment` walks through are the ones that the scan sees |
| Patterns.MatcherAgreesOnPatterns | src/domains/routes.rs:93-145 | among patterns that can be registered the matcher has the recursive meaning if and only if no route segment is `**` |
| Patterns.MissedPattern | src/domains/routes.rs:112-130 | for every route with a `**` segment, the bytes of a pattern in the grammar, a few bytes longer than the route needs, that means the route and is not sent it |
| Patterns.RouteMatchesItsMeaning | src/domains/routes.rs:93-158 | the same if and only if on bytes, for all patterns of the scheme's grammar and for those registration accepts |
| Patterns.MatchesIffMeant | src/domains/routes.rs:93-158 | whatever the two schemes, a pattern in the grammar is sent a route without a `**` segment if and only if the schemes are the same and the segments match by the recursive meaning |
| Patterns.OtherScheme | src/domains/routes.rs:100-102 | no route is sent to a pattern of another scheme |
| Patterns.Scan | src/domains/routes.rs:192-248 | the single-pass scan computes the shape of the segment list, with its errors |
| Patterns.ScanMeans | src/domains/routes.rs:192-248 | a route scans exactly when it has the scheme and its path is in the pattern grammar; the shape then counts its segments and its `**`, and says where its first wildcard is |
| Patterns.ValidateFixedRoute | src/domains/routes.rs:171-177 | accepts exactly the routes of the scheme with that many concrete segments, within the length cap |
| Patterns.FixedRouteLanguage | src/domains/routes.rs:171-177 | a fixed route is, as bytes, the scheme, a `://` and so many segments joined by slashes, none empty and none with a star, within 65535 bytes |
| Patterns.ValidateRegistrationPattern | src/domains/routes.rs:19-36 | accepts exactly the patterns that scan and whose segment count fits the depth |
| Patterns.MatchesByMeaning | src/domains/routes.rs:93-158 | on a scanned pattern and a concrete route the byte matcher is the recursive meaning on the scanned segments |
| Patterns.Witness | src/domains/routes.rs:19-36 | an accepted pattern of depth n > 0 has a concrete n-segment route that the matcher sends to it |
| Patterns.AcceptedIffSatisfiable | src/domains/routes.rs:19-36 | a pattern of required depth n > 0 is accepted exactly when it scans and some concrete n-segment route matches it |
| Patterns.AcceptedIffRoutable | src/domains/routes.rs:19-36 | the same with a route that also passes `validate_fixed_route`, for patterns with room below the length cap |
| StreamSelectors.ClassifyStreamSelector | src/domains/routes.rs:46-86 | classifies by segments, rejecting every other shape |
| StreamSelectors.SelectorLanguage | src/domains/routes.rs:46-86 | the selectors accepted are, as bytes, everything, everything in a realm, and three segments of which any may be `*`, within the length cap |
| StreamSelectors.SelectsBySegments | src/domains/routes.rs:46-145 | what an accepted selector is sent, segment by segment |
| StreamSelectors.ScopeIsSound | src/domains/routes.rs:38-86 | three-segment routes matched by a Resource, Area or Realm selector agree on 3, 2 or 1 leading segments |
| StreamSelectors.ScopeIsTightest | src/domains/routes.rs:38-86 | any wider claim fails: two matched routes differ in the very next segment |
| StreamSelectors.SelectorIsPattern | src/domains/routes.rs:46-90 | an accepted selector is accepted as a pattern of depth 3 |
| StreamSelectors.DoubleStarIsStars | src/domains/routes.rs:46-145 | a selector ending in `**` selects what its longer form in single stars does |
| Wire3.Decode | src/wire3.rs:33-87 | the cursor loop computes the parser's result for every payload, type and flag byte |
| Wire3.Encode | src/wire3.rs:11-31 | accepts exactly the non-empty lists with strictly increasing positive ids whose envelope fits a frame, and returns the core and fields printed |
| Envelopes.DecodeLanguage | src/wire3.rs:33-87 | `decode` accepts exactly a core and one or more well-formed fields, with one increasing capability list in HELLO and the mask of its ids, or the bare payload when the flag is off |
| Envelopes.AcceptedIsEnvelope | src/wire3.rs:33-87 | every accepted payload is the encoding of some core and fields |
| Envelopes.ParseIsUnique | src/wire3.rs:33-87 | no payload is the encoding of two envelopes |
| Envelopes.TruncationLanguage | src/wire3.rs:33-87 | a strict prefix of an accepted envelope is accepted exactly when it ends at a field boundary after at least one field and, in HELLO, after the capability field |
| Frames.TryEncodeFrame | src/codec.rs:191-218 | the frame, or which limit or flag refused it |
| Frames.FrameLayout | src/codec.rs:191-218 | which frames are refused and with which error, and where type, flags, correlation, length and payload stand in the others, most significant byte first |
| Frames.FrameRoundTrip | src/codec.rs:191-249 | an encoded frame decodes to its type, flags, correlation and payload |
| Frames.AcceptedIsEncoded | src/codec.rs:220-249 | the header decoder accepts nothing but encoded frames |
| Frames.EnvelopeThroughFrame | src/wire3.rs:11-87 | whatever `encode` accepts can be framed with the extension flag if it fits, and decoding header and envelope returns type, correlation, core and, for HELLO, exactly the listed ids among 1 and 2 |
| IncomingFrames.RecordLanguage | src/async_connection.rs:1284-1332 | a frame is a record of this type, correlation and core if and only if it is laid out so within the limits, is no control message, and its payload is an envelope of the core or, without the flag, the core; it is the last of its reply exactly for the flags 2, 3, 6 and 7 |
| IncomingFrames.ControlLanguage | src/async_connection.rs:1298-1325 | a frame is a control message if and only if it is a HELLO that renews the limits or a GOAWAY of code, grace period and reason that leaves them |
| IncomingFrames.HelloLanguage | src/async_connection.rs:808-847 | a HELLO is accepted if and only if it is the first, of version 3 without bits, for messages of at least 15 bytes and at least one request, with nothing behind its session id; it leaves the smaller of each limit and the capabilities it lists |
| IncomingFrames.AuthenticationLanguage | src/async_connection.rs:891-924 | the first frame of a session settles it if and only if it is such a HELLO in a frame of any size that a frame may have |
| FrameReads.StepConserves | src/async_connection.rs:1273-1281 | every byte of the stream is in a frame handled, in the read in progress, still to come, or lost with a dropped read |
| FrameReads.ReadsWhatWasSent | src/async_connection.rs:1016-1036 | after every run of reads of any sizes and other branches, the frames handled and those still to be read are the frames sent if and only if no other branch was served while a frame was partly read; until then the frames handled are a prefix of those sent, and afterwards they are never all of them |
| FrameReads.ReadsWhatWasNotSent | src/async_connection.rs:1016-1036 | for every frame that fits into another, a run that handles it although it was not sent |
| Codec.PayloadDecoder.GetBytes | src/codec.rs:123-129 | reads a length and that many bytes, or fails without reading past the end |
| Codec.PayloadDecoder.GetString | src/codec.rs:139-142 | as bytes, and then only well-formed UTF-8 |
| ByteStrings.Utf8Language | src/codec.rs:139-142 | what passes for text is exactly what encodes some list of Unicode scalar values, by section 3 of RFC 3629 |
| WireLists.DomainErrorParse | src/client_domains/mod.rs:12-28 | a domain error is read from exactly its own encoding, with class at most 10, effect at most 2 and nothing behind it |
| WireLists.DecodeDomainError | src/client_domains/mod.rs:12-28 | the getters read that error, or say why there is none |
| WireLists.DomainErrorLanguage | src/client_domains/mod.rs:12-28 | whatever the bytes, the error decoded is the one they report: the broker's, or a fault of one of two kinds |
| WireLists.StatusLanguage | src/client_domains/mod.rs:30-40 | a reply is a success with this body if and only if it is a zero and the body, and is refused with exactly the error that its bytes say |
| StreamPages.ParseStreamReadPage | src/domains/stream.rs:280-340 | the decoder loop computes the page or the first error |
| StreamPages.RecordWas | src/domains/stream.rs:366-385 | a record is read only from its own encoding, without a global offset outside a global scope |
| StreamPages.EntryReads | src/domains/stream.rs:387-425 | each of the three kinds of item is read back from its encoding |
| StreamPages.ReadPageLanguage | src/domains/stream.rs:280-455 | for each selector, the empty buffer is the page without items, offsets and more to read, and the other buffers decoded to a page are exactly the encodings, in the selector's scope, of pages with concrete stream routes |
| StreamPages.PlausibleCounts | src/domains/stream.rs:301-308 | an accepted page declares as many items as it holds, and at least 14 bytes were there for each |
| StreamPages.ReservationIsUnbounded | src/domains/stream.rs:301-303 | any 32-bit count is reserved for from a buffer of four bytes, which is then refused |
| LeasePages.DecodeListResponse | src/client_domains/lease.rs:1055-1105 | the decoder loop computes the page, the broker's error or the first fault |
| LeasePages.ListPageLanguage | src/client_domains/lease.rs:1055-1105 | a response is decoded to a page exactly when it is that page's encoding and its strings are text |
| LeasePages.ListRefusals | src/client_domains/lease.rs:1055-1105 | what the broker refused is reported as it said, and a page that cannot be read is a fault of the codec or the protocol |
| LeasePages.ReservationFits | src/client_domains/lease.rs:1056-1060 | the room reserved is within the items the response can hold, and an accepted page fills it exactly |
| KvPages.DecodeScanResponse | src/client_domains/kv.rs:331-377 | the decoder loop computes the page, the broker's error or the first fault |
| KvPages.GuardAdmitsPages | src/client_domains/kv.rs:342-352 | the count guard lets every encoded page through |
| KvPages.ScanPageLanguage | src/client_domains/kv.rs:331-377 | a response is decoded to a page exactly when it is that page's encoding |
| KvPages.ScanRefusals | src/client_domains/kv.rs:331-377 | the same for scan pages |
| KvPages.ReservationFits | src/client_domains/kv.rs:342-355 | the room reserved is within an eighth of the response, and an accepted page fills it exactly |
| SessionLoop.Session.HandleRequest | src/async_connection.rs:980-1000 | the handler is the step that `SessionEffects.RequestEffect` and `SessionEffects.RequestByTypeEffect` describe |
| SessionLoop.Session.HandleSend | src/async_connection.rs:1002-1010 | the handler is the step that `SessionEffects.SendEffect` describes |
| SessionLoop.Session.HandleCancel | src/async_connection.rs:1394-1414 | the handler is the step that `SessionEffects.CancelEffect` describes, with the search stopping where a hash-map iteration may |
| SessionLoop.Session.HandleFrame | src/async_connection.rs:1016-1036 | the handler is the step that `SessionEffects.ReplyEffect`, `NoticeEffect`, `TurnEffect`, `ControlEffect` and `UnreadableEffect` describe for the bytes that came |
| SessionLoop.Session.FailEverything | src/async_connection.rs:1416-1442 | every sender still held reports a closed connection, once, and the tables are empty, in whatever order they are drained |
| SessionEffects.ReplyEffect | src/async_connection.rs:1349-1369 | a final frame for a slot frees it and its core is the answer of the request that still waits there, a frame before the final one changes nothing, and one that no slot waits for ends the session with one closed answer for each sender held |
| SessionEffects.NoticeEffect | src/async_connection.rs:1334-1347 | a frame without a correlation that nobody of its type waits for is published with its core, and nothing else changes |
| SessionEffects.TurnEffect | src/async_connection.rs:1024-1029 | otherwise the oldest of its type has the core as its answer, and the next that waits for the type is written, or its write ends the session |
| SessionEffects.ControlEffect | src/async_connection.rs:1298-1325 | a HELLO changes the limits and a GOAWAY nothing |
| SessionEffects.UnreadableEffect | src/async_connection.rs:1016-1017 | any other frame ends the session |
| SessionEffects.RequestEffect | src/async_connection.rs:980-994 | after HELLO a request is refused over the limit in flight or with a payload that does not fit, each with its error, and otherwise exactly one frame of its type, flags, id and payload is written and a slot taken that answers unless a cancellation came first |
| SessionEffects.RequestByTypeEffect | src/async_connection.rs:995-1000 | without a negotiated version a request waits behind another of its type and is otherwise written at once |
| SessionEffects.SendEffect | src/async_connection.rs:1002-1010 | a one-way message is written in one frame, under its id only for the types 300 to 302 and for 304 with a payload that starts with 1, its sender is told how the write went, and no slot is taken |
| SessionEffects.StaleEffect | src/async_connection.rs:981-981 | a command of another generation is told that the connection is closed, and nothing is written |
| SessionEffects.CancelEffect | src/async_connection.rs:1384-1414 | a cancellation takes the sender of the slot under its id, else of the first pending request with the id, else removes the first queued one, else leaves a mark |
| SessionEffects.CancelledStaysSilent | src/async_connection.rs:980-1015 | over every run after a cancellation the request has no further answer, whether its slot was there or the request was still to come |
| SessionEffects.EndsWhen | src/async_connection.rs:968-1038 | a session ends exactly when it is closed or its clients are gone, and is lost exactly by a failed read, a failed write of a request, an unreadable frame, a stray reply, or a waiting request that cannot be written after a reply |
| SessionTables.LiveUpdate | src/async_connection.rs:968-1038 | changing one queue of a table changes the senders the table holds by that queue's change |
| SessionLaws.StepTotal | src/async_connection.rs:980-1036 | what any event does to the senders of any id: one more for a request taken, one less only for a request that takes over a slot with a sender |
| SessionLaws.RunConserves | src/async_connection.rs:968-1038 | over every run, whatever ids are used, each sender taken has been used, is held, was dropped by a cancellation, or was lost to a takeover |
| SessionLaws.AllAccountedFor | src/async_connection.rs:984-994 | every sender is accounted for if and only if no request takes over a slot that another still waits in |
| SessionLaws.ExactlyOnce | src/async_connection.rs:968-1038 | over every run each request taken is answered, outstanding, dropped by a cancellation of its id or lost to a takeover, counted once; once the session has ended by any path the tables are empty and everything neither cancelled nor lost has its answer |
| SessionLaws.DistinctIdsLoseNone | src/async_connection.rs:980-994 | nothing is lost under an id that the session is asked under at most once, however often stale commands and one-way messages carry it |
| SessionLaws.TakeoverHappens | src/async_connection.rs:983-994 | a run from a fresh session in which two requests with one id are taken and one answer is given |
| SessionLaws.SuccessHasItsFrame | src/async_connection.rs:1016-1036 | a success reaches a request only from a frame that was for it while it was outstanding |
| SessionLaws.StaysNegotiated | src/async_connection.rs:808-847 | after HELLO the limits cannot change within the session and the per-type tables stay empty |
| SessionLaws.ResponseIsolation | src/async_connection.rs:1351-1369 | in a negotiated session payload p reaches request i as success only from a final frame with correlation i while i is outstanding |
| SessionLaws.StrayReplyEnds | src/async_connection.rs:1016-1022 | a reply with a correlation that is not in the table ends the session with empty tables, and every sender still held gets one more answer, a closed connection |
| SessionLaws.SlotStays | src/async_connection.rs:1351-1414 | a slot, live or tombstone, is released only by its final frame or the end of the session, and only a cancellation or a reused id changes whether it will answer |
| SessionLaws.InFlightBound | src/async_connection.rs:984-993 | outstanding slots, tombstones included, never exceed the limit in force |
| SessionLaws.RepliesInTurn | src/async_connection.rs:995-1029 | without correlation one request of a type is on the wire at a time, a waiting one implies a pending one, and the k-th reply of a type goes to the k-th request written for it whatever was cancelled |
| Supervisor.GenerationFence | src/async_connection.rs:601-637 | over every run successive sessions have strictly increasing generations and write only frames stamped with their own, so no command is written in two |
| Supervisor.OwnFramesOnly | src/async_connection.rs:968-1038 | over every run of one session, negotiated or not, every frame written and every request waiting to be written carries the session's generation |
| Supervisor.LimitsHold | src/async_connection.rs:808-847 | over every run and reconnect the message limit stays within 15 and 1048576, the in-flight limit stays at least 1 and never grows, and no session holds more slots |
| Supervisor.AuthenticatedSane | src/async_connection.rs:899-936 | a session starts only with a HELLO, and its limits are within bounds |
| SupervisorTask.Client.OpenSession | src/async_connection.rs:728-785 | the capabilities of the last session are forgotten before the answer to CONNECT is looked at, and a session starts only if it is a HELLO |
| SupervisorTask.Client.Settle | src/async_connection.rs:625-637 | a lost session advances the generation, a closed one is the last |
| Reconnects.ConnectEffect | src/async_connection.rs:728-785 | an attempt answered by a HELLO starts a session with nothing outstanding under the limits it leaves, and any other first frame leaves no session and the old capabilities forgotten |
| Reconnects.SessionEventEffect | src/async_connection.rs:601-637 | an event leaves the session running, or closes it for good, or loses it and advances the generation |
| Reconnects.ClosedByRequest | src/async_connection.rs:625-637 | in every run a session was the last if and only if it was closed by request or by the end of its clients; no failure of a session is final |
| Reconnects.GenerationCounts | src/async_connection.rs:601-637 | in every run the generation is the number of sessions lost and of requests to close |
| Reconnects.CanReconnect | src/async_connection.rs:601-637 | after any run that nobody asked to close and that stands without a session, the next HELLO starts a fresh one, under the number of the sessions lost |
| RequestIds.RequestIds.Allocate | src/async_connection.rs:24-38 | whatever others allocate or reset between load and exchange, the id is positive and nobody else has it since the last reset, and exhaustion is an error |
| ObserverLaws.HappenKeepsWarning | src/async_connection.rs:1371-1382 | no change, frame, epoch bump, broadcast, overflow or reconnect outside silences the last warning about an outdated version |
| ObserverLaws.DrainKeepsInv | src/client_domains/lease.rs:736-746 | a poll that takes a notification forces another pass, and overflow or an unreadable frame ends this one |
| ObserverLaws.PageKeepsInv | src/client_domains/lease.rs:748-765 | the pages taken so far are a prefix of one snapshot, and all of it after the last page |
| ObserverLaws.RunKeepsInv | src/client_domains/lease.rs:553-877 | the invariant in every reachable state |
| ObserverLaws.Coherent | src/client_domains/lease.rs:685-877 | in every reachable state a ready view is one complete snapshot, and an idle observer's is current, or a newer notification is on the link, between epoch and broadcast or buffered, or the buffer overflowed, the session ended, or a periodic pass failed after draining |
| ObserverLaws.QuietViewIsExact | src/client_domains/lease.rs:767-877 | with nothing on its way, an unbroken session and no swallowed failure an idle view is the inventory |
| ObserverLaws.InstallIsCurrent | src/async_connection.rs:445-458 | when a view is installed no change missing from it has been dispatched: its notification is still on the link or the session has ended |
| ObserverLaws.DirtySince | src/client_domains/lease.rs:823-841 | an observer is dirty only since a swallowed failure of a periodic pass, with no install after it |
| ObserverLaws.SelfHeals | src/client_domains/lease.rs:685-718 | after the last change the first install of a pass whose snapshot was taken since makes the view exact, and it stays exact over every such run |
| ObserverLaws.PeriodicHole | src/client_domains/lease.rs:823-841 | from every start and for every change that matters there is a run to an idle, ready, outdated observer with nothing on its way |
| ObserverLaws.EndedObserver | src/client_domains/lease.rs:562-643 | whatever follows, a task that has ended shows what it showed at its end, and calls itself ready exactly when it was ready and ended by a shutdown or a LIST on a closed connection |
| ObserverEnds.EndsOnlyWhenClosed | src/client_domains/lease.rs:562-643 | in every run the task has ended if and only if it was shut down, or a LIST or a subscription found the client closed |
| ObserverEnds.FailedList | src/client_domains/lease.rs:590-643 | where a failed LIST leaves the task: bootstrap lists again, a pass for a notification starts over, a periodic one idles, a lost subscription is replaced whatever the pass was for; the view stays as it was |
| ObserverEnds.FailedDrain | src/client_domains/lease.rs:736-746 | the same for a buffer that overflowed and for a notification that cannot be read |
| ObserverEnds.FailedNotification | src/client_domains/lease.rs:799-822 | in the steady state both cost the subscription |
| ObserverEnds.CanAlwaysRecover | src/client_domains/lease.rs:553-877 | from every reachable state in which the task has not ended there is a continuation, without another change, to an idle observer that is ready and shows the inventory |
| ObserverLaws.ReadyAfterTheEnd | src/client_domains/lease.rs:516-525 | from every start and for every change that matters, a run to a task that has ended, is ready and shows the inventory of before |
| ObserverLaws.InventoryIsListing | src/client_domains/lease.rs:748-765 | a view of a listing with distinct routes has exactly its items, each under its route |
| ObserverLoops.ObserverTask.FullList | src/client_domains/lease.rs:748-765 | the paging loop is a run of page events, and returns the items the last one completes or the error |
| ObserverLoops.ObserverTask.DrainInvalidationBuffer | src/client_domains/lease.rs:736-746 | the polling loop is a run of poll events, and returns whether any was an invalidation, or the error |
| ObserverLoops.ObserverTask.ListingPass | src/client_domains/lease.rs:685-718 | the loop of a pass is a run that ends in an install with nothing unheeded, or in the error its caller handles as `ObserverEnds.FailedList` and `ObserverEnds.FailedDrain` say; it ends the task only when its last event was a LIST on a closed client |
| ObserverLoops.ObserverTask.TryInstall | src/async_connection.rs:445-458 | installs exactly when the epoch is the one read before the pass |
| ObserverLoops.ObserverTask.PeriodicTick | src/client_domains/lease.rs:823-841 | the timer's arm is a run of the system; when it ends idle, an unheeded notification is exactly a failed pass |
| ObserverLoops.ObserverTask.NotificationArrives | src/client_domains/lease.rs:799-822 | the notification arm is a run of the system; when it took a notification and ends idle it has installed a view since |
| LeaseTokens.ChainLinks | src/client_domains/lease.rs:395-434 | the callback is given the token of the grant its ACQUIRE took, once, and each RENEW or RELEASE carries that token or the one of the last renewal that succeeded; whose grant a deferred one is, `LeaseAcquires` says |
| LeaseTokens.WithLease | src/client_domains/lease.rs:358-434 | the callback runs if and only if route and TTL are admissible and the ACQUIRE carries a grant; then the execution is completed with v exactly when the callback returned v, every renewal that came due was on the current session and carried a token, and the RELEASE was sent on the current session and answered by a success, and each other result, with its error, has its exact condition on the script; the log is a token chain in which no RENEW follows a failed one |
| LeaseTokens.ConclusionIsExplained | src/client_domains/lease.rs:402-434 | what callback, renewals and release are reported as, read off the script: lost ownership before a failed release, and a callback's own error with either |
| LeaseTokens.LossLanguage | src/client_domains/lease.rs:395-424 | the lease is lost with this error if and only if the first renewal that was refused, stale or unreadable says it |
| LeaseTokens.ReleaseLanguage | src/client_domains/lease.rs:932-972 | a release succeeds with exactly the replies that start with a zero, and fails with the error that the others say |
| LeaseTokens.AdmissibleLanguage | src/client_domains/lease.rs:372-380 | an ACQUIRE is sent only for a lease route of three segments and 1 to 4294967 seconds |
| LeaseTokens.GrantErrors | src/client_domains/lease.rs:90-128 | for every reply that grants nothing, the one error it is reported as |
| LeaseTokens.LeaseHandle.Extend | src/client_domains/lease.rs:902-927 | sends the current token exactly when the handle is not released and its session is current, and keeps the token unless the reply carries a new one |
| LeaseTokens.ExtendAgain | src/client_domains/lease.rs:902-927 | after a renewal that failed, a second one with the same token is sent exactly when the session is still current |
| LeaseTokens.LeaseHandle.Release | src/client_domains/lease.rs:932-972 | sends the last token received, and sends it again on drop if that fails |
| LeaseTokens.GrantLanguage | src/client_domains/lease.rs:90-128 | the replies that grant a token: a success of kind 0 or 1 that carries it, or one of kind 2 to a caller that waits, with a completion that carries it |
| LeaseTokens.RenewalLanguage | src/client_domains/lease.rs:920-927 | a renewal succeeds with exactly the replies that are a zero, a token and anything after it, and fails with the error that the others say |
| LeaseTokens.ReadGrant | src/client_domains/lease.rs:90-128 | the getters decide the grant in the source's order, with the error of each other reply |
| LeaseAcquires.OwnGrant | src/client_domains/lease.rs:80-118 | in every run of acquires by any clients of a connection, one that read a completion has the result it grants, and read its own if and only if no other acquire's was dispatched first since it subscribed |
| LeaseAcquires.SerialNeverCrosses | src/client_domains/lease.rs:80-118 | while no acquire begins before the broker is done with the earlier ones, each reads its own |
| LeaseAcquires.OverlapMayCross | src/client_domains/lease.rs:80-118 | an acquire that does begin earlier reads another's completion if that is dispatched next |
| LeaseAcquires.SoleClient | src/client_domains/lease.rs:57-66 | with one client and its gate, only an acquire given up while the broker may still complete it can make a later one read what was not meant for it |
| LeaseAcquires.OneGrantForTwo | src/client_domains/lease.rs:57-66 | a run of two clients in which one grant is taken by the acquires of two routes |
| LeaseAcquires.GrantOfTheAbandoned | src/client_domains/lease.rs:102-118 | a run of one client in which an acquire takes the grant of the one given up before |
| Reservation.OneCompletion | src/client_domains/queue.rs:337-385 | however complete and nack calls interleave, fail or are dropped, one at most holds the guard, state 1 holds exactly while a call waits or has an answer not yet marked, state 2 exactly when one was acknowledged, and one at most succeeds |
| Reservation.AcknowledgedForGood | src/client_domains/queue.rs:512-521 | state 2 is permanent and nothing more is asked of the broker |
| Reservation.FailureReopens | src/client_domains/queue.rs:512-521 | a refused or dropped call restores state 0 with no guard left |
| Reservation.AcceptedCloses | src/client_domains/queue.rs:337-385 | after any run that leaves the reservation open, a call that the broker accepts asks it once and closes the reservation |
| Reservation.AcceptedStays | src/client_domains/queue.rs:337-385 | a call that the broker has accepted is never failed by what other calls do |
| Reservation.RefusedAsksNothing | src/client_domains/queue.rs:301-336 | a call on a stale, used or incapable handle asks the broker nothing |
| Reservation.QueueItem.Finish | src/client_domains/queue.rs:301-385 | one call: what it needs to send at all, the error of each refusal, and the state each answer leaves |
| Reservation.PlainOkLanguage | src/client_domains/queue.rs:488-510 | success is the single byte zero, a refusal is the error that its bytes say, and a longer success is a fault |
| Reservation.DecodePlainOk | src/client_domains/queue.rs:488-500 | success only for a bare zero status |
| Enqueue.RequestConfirmedNegative | src/async_connection.rs:364-388 | the retry loop sends as many attempts as the policy and the answers allow and returns the last answer |
| Enqueue.Enqueue | src/client_domains/queue.rs:71-86 | for the last answer, the id exactly when it is a zero, the id in eight bytes and anything after it, or a bare zero and the id 0, and each error exactly when the bytes say it; no more attempts than the policy allows, and no fewer while the answers ask for another |
| Enqueue.IdLanguage | src/client_domains/queue.rs:71-86 | every reply is an id or an error, as its bytes say |
| Enqueue.SentLanguage | src/async_connection.rs:364-388 | k attempts are sent if and only if each before the last was refused as retryable and the last was not, or was the last allowed |
| Enqueue.RetryMeansEffectZero | src/client_domains/queue.rs:286-288 | only a well-formed domain error with effect 0 is retried |
| Enqueue.RetryLanguage | src/error.rs:121-136 | a reply is retried if and only if it is a one and a domain error with effect 0 that is of class 5 or one of four codes |
| Enqueue.UnknownOutcomeStops | src/async_connection.rs:364-388 | a transport error, or any other answer, is never followed by another attempt |
| Enqueue.AtMostOnce | src/async_connection.rs:364-388 | for every script of a broker that answers effect 0 only when it did not apply, at most the last attempt sent was applied, and none if that one too was answered so |
| RpcWorker.CallLanguage | src/client_domains/rpc/worker.rs:147-163 | a call is decoded from exactly its own encoding, with a matching route in text and a budget of at most a day, by a worker that negotiated cancellation |
| WorkerEffects.PayloadLanguage | src/client_domains/rpc/worker.rs:140-205 | every payload is a call, a call for others, a breach of the protocol or unreadable, each with its bytes |
| WorkerEffects.ArrivalEffect | src/client_domains/rpc/worker.rs:103-118 | a call is tracked under its id and waits at the end of the inbox, or without room stays with the loop that turns it down; one that cannot be read waits as its error; one for others leaves no trace |
| WorkerEffects.OtherSession | src/client_domains/rpc/worker.rs:104-112 | what was received in another session is passed over |
| WorkerEffects.LagEffect | src/client_domains/rpc/worker.rs:113-115 | missed calls are one error in the inbox, if there is room |
| WorkerEffects.CancellationEffect | src/client_domains/rpc/worker.rs:119-131 | a two, sixteen bytes of an id and a reason from 1 to 4 withdraw the first buffered request with that id, released and acknowledged in its own session; else they cancel the token of the entry under the id; else they change nothing |
| WorkerEffects.OtherLifecycle | src/client_domains/rpc/worker.rs:120-128 | any other payload changes nothing |
| RpcWorker.StepKeepsPlaced | src/client_domains/rpc/worker.rs:92-136 | every event leaves each decoded request in one place, with everything noted about it in agreement |
| RpcTracking.Accounting | src/client_domains/rpc/worker.rs:19-136 | over all interleavings and whatever ids are used, the inbox keeps to its capacity, each request is in the inbox, held or released, one cancelled in the inbox is never handed out, and each is acknowledged once if it was released in its own session and otherwise never |
| RpcTracking.StepTracks | src/client_domains/rpc/worker.rs:160-335 | an event keeps every current call the owner of the entry under its id exactly when it neither brings a call under the id of a current one nor drops a request whose id another current one has |
| RpcTracking.TrackedThroughout | src/client_domains/rpc/worker.rs:65-205 | over a whole run every current call owns its entry if and only if no event of the run is such an arrival or drop |
| RpcTracking.Tracking | src/client_domains/rpc/worker.rs:65-205 | while no id is used twice the tracked ids are exactly those of the requests decoded since the last clear and still in the inbox or held, and each owns its entry |
| RpcTracking.ReusedIdLosesTracking | src/client_domains/rpc/worker.rs:313-335 | for every call, a run over a reconnect that leaves the new call with its id untracked in the inbox |
| RpcTracking.ArrivalTakesOver | src/client_domains/rpc/worker.rs:160-168 | for every call, a run without a drop in which two calls with its id are held and a cancellation reaches the second alone |
| RpcTracking.CancellationReaches | src/client_domains/rpc.rs:539-553 | a cancellation of a current call that is not in the inbox cancels its token if and only if it owns its entry |
| RpcTracking.EndsReach | src/client_domains/rpc/worker.rs:98-101 | a reconnect and the end of the worker cancel the tokens of the entries, which are those of all current calls if and only if each owns its entry |
| RpcWorkerTask.ReadCall | src/client_domains/rpc/worker.rs:140-205 | the getters decide what is decoded, refused or passed over, in the source's order |
| RpcWorkerTask.Worker.HandleArrival | src/client_domains/rpc/worker.rs:103-168 | a request of this session becomes the owner of the entry under its id, whoever owned it before, and is buffered, or rejected when there is no room |
| RpcWorkerTask.Worker.HandleLifecycle | src/client_domains/rpc/worker.rs:119-131 | a cancellation withdraws the first buffered request with its id, or else marks the entry and cancels the token of the call that owns it |
| RpcWorkerTask.Worker.PollNext | src/client_domains/rpc/worker.rs:51-62 | the oldest entry is handed out |
| RpcWorkerTask.Worker.ClearInbox | src/client_domains/rpc/worker.rs:41-44 | every buffered request is dropped with its cleanup |
| RpcWorkerTask.Worker.Drop | src/client_domains/rpc/worker.rs:313-342 | a dropped request is no longer tracked and is acknowledged in its own session |
| RpcWorkerTask.Worker.ClearTracking | src/client_domains/rpc/worker.rs:98-101 | the token of each entry is cancelled and the map emptied |
| RpcWorkerTask.Worker.Close | src/client_domains/rpc/worker.rs:234-243 | the token of each entry is cancelled, the inbox closed and its requests dropped |
| RpcWorkerTask.Worker.EndLoop | src/client_domains/rpc/worker.rs:135-135 | the event loop's end closes the inbox and keeps what is in it |
| RpcResponses.RpcRequest.Respond | src/client_domains/rpc/worker.rs:285-300 | refused once finished or stale; otherwise the frame numbered by the sends that succeeded is tried, and only a success advances the number or ends the request |
| RpcResponses.WireIsConsecutive | src/client_domains/rpc/worker.rs:285-300 | over every sequence of responses, the frames written are numbered without a gap with an end only at the end if and only if none is written after one that was written although its send failed |
| RpcResponses.CarefulCallers | src/async_connection.rs:390-411 | that holds whatever was written if and only if no response that is not refused follows one that failed with a timeout or a transport error |
| RpcResponses.RespondAgain | src/async_connection.rs:407-410 | a response that times out and is made again: its number is on the wire twice, also behind an end |

## Left out

- Sockets, TLS, WebSocket handshakes, tasks and timers: whether a write succeeds, when something is read and when a timer fires are parameters of the events.
- `run_websocket`: the twin of `run_io`; its heartbeat and control frames are timing.
- Reconnect delay, backoff delays and jitter: floating point and wall clock.
- Observability, lifecycle callbacks, token providers and builder options: plumbing.
- The text of error messages, and error variants that no modelled code returns.
- JSON in stream notifications and stream filter sets: a foreign library and plain field encoders.
- Registration restore: replies are matched by type alone, so it is an assumption of the observer.
- Generation checks at the handles: check and stamp are separate reads, so the fence is proved for sessions.
- Shared subscription counts in notice, schedule and stream: simple counters.
- Encoders of single requests: they put fields one after the other.
- A WebSocket or TCP write error of a one-way message is always reported as `Transport`.
- The capability mask is the set of its ids, not a bit pattern.
- The epoch and the generation do not wrap in the observer; the supervisor stops short of the last generation.
- Patterns.AcceptedIffSatisfiable: sets the 65535-byte cap on the witness route aside and takes a scheme without a `://` in it, as every caller passes.
- Supervisor.GenerationFence: sessions and their events are one run on values; waiting between attempts and the attempt limit are not modelled.
- Reconnects.ConnectEffect: a first frame that is refused may end the program's attempts until the next call to connect, and a request to close that comes between sessions ends them for good; the model goes on trying.
- ObserverLoops.ObserverTask.Meanwhile: what happens beside the task comes from a schedule, between its steps.
- RpcTracking.CancellationReaches: speaks of tokens that the broker, a reconnect or the worker's end cancels; a deadline cancels its own call's token by itself.
- Patterns.RouteMatchesItsMeaning: among patterns that can be registered it speaks only of routes whose missed pattern fits the 65535-byte cap, since a longer one cannot be registered.
- LeaseAcquires.OwnGrant: a wait that no completion ends is an acquire that stays waiting; timing is not modelled.
- FrameReads.ReadsWhatWasSent: stops at the frame's bytes; what a misread frame decodes to is not followed.
- Reservation.QueueItem.Finish: what other calls do before the exchange is a parameter; full interleaving is in the step system.
