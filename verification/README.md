# Verified model of the BFCP implementation

BFCP (the Binary Floor Control Protocol, RFC 8855, wire-compatible with RFC 4582) lets the
participants of a conference ask a floor control server for shared resources, the floors. This
project models the parts of the implementation on which a correct exchange rests, and proves what
each of them promises:

- the wire codec: `Octets`, `Tlv`, `Messages`, `Grouped`, `InfoParts` (information attributes of other
  implementations, and the accessors), `Codec`, `Framing`;
- the floor control protocol: `FloorState` (one floor), `Refusals` (error codes and texts),
  `FloorServer` (the server as a transition system, one step per datagram), `UdpServer` (the server
  object and its handlers), `ServerSafety` (what holds over every run), `ServerReplies` (what each
  datagram does, and what is sent), `UdpRuns` (the read loop, from octets to callbacks), `TcpServer`
  (interleaved connection handlers), `TcpRuns` (what holds over every interleaving), `TcpExchanges`
  (what is said to each client, in which order), `TcpOutcomes` (how requests end, who is told),
  `UdpClient` (the client, its transactions and its requests), `Delivery` (messages as they arrive),
  `ClientNews` (what a client makes of datagrams), `Agreement` (clients and server together) and
  `AgreementRuns` (the same over every run);
- the priority queue of pending requests: `RequestQueue`;
- user ID allocation: `UserIds`.

`dafny verify dfyconfig.toml` checks the whole project.

## How it is built

Code that changes things in place is imperative here too: buffers are arrays filled at a moving
offset, and `Message`, `FloorStateMachine`, `Server`, `Session`, `UDPClient`, `FloorRequestQueue`,
`UserIDPool` and `Manager` are classes. Each method is proved against a function of the old state
(`Encode` against `Encoding`, a handler against the transition of `FloorServer`, ...), and the theorems
are lemmas about those functions and about runs of them.

Octets and other fixed-width numbers are bounded integers; truncation and wrap-around are explicit.
The specification functions avoid division; `Octets` ties them to the `/` and `%` that the methods
compute with. Where the source walks a map, the order is an arbitrary choice: lookups and broadcasts
hold for every order. Clocks, the answer of `OnFloorRequest`, the arrival of datagrams and the failure of
a send are parameters. The `OnFloor...` callbacks are recorded, the client's in `reports`.

Seven properties one might expect are false of the code, and the exact condition is proved instead:

- the two attribute parsers agree on a payload unless exactly one octet is left over after the last
  attribute (`Tlv.ScanAgainstTlvs`, with the input of `Tlv.LeftOverOctet`), which whole-word payloads
  rule out;
- `UserIDPool.Allocate` stays in its range unless the range ends at 65535 and has no ID left: its 16-bit
  loop then wraps (`UserIds.StaysInRange`);
- `Available` is the number of free IDs exactly when only IDs of the range are taken, which wrapping
  breaks, and the range is not all of 0 to 65535 (`UserIds.AvailableCounts`, `UserIds.WrappedPool`);
- the queue serves equal priorities in order of arrival unless the clock has run backwards
  (`RequestQueue.AddIsLastInLane`);
- client and server agree after a client's Goodbye only if it held nothing, since the client does not
  forget its requests (`AgreementRuns.AgreementAfterGoodbye`); and after a request that the server granted
  only if the first datagram carrying its transaction ID was the answer, since a notice may carry that ID
  too (`Agreement.AgreementAfterRequest`, with the run of `AgreementRuns.LostGrant`);
- over TCP the callbacks of a floor are bracketed exactly when no grant is reported while another
  handler has freed the floor without having reported it (`TcpRuns.CallbacksBracketedIff`, with the run of
  `TcpRuns.CallbacksMayOverlap`);
- over TCP a client that holds a floor last heard so exactly when no notice of an earlier release came
  after its Granted (`TcpRuns.ClientsAreToldTheTruth`, with the run of `TcpRuns.NoticeMayOvertake`); a condition
  on the run itself that suffices is in `TcpRuns.TruthInTime`.

## Model

| member | source | states |
|---|---|---|
| Octets.PaddingSkipped | message.go:539-548 | the padding the encoder and both parsers skip brings every length to the next 4-octet boundary |
| Octets.PaddingFormula | message.go:127-130 | the formula of the `build*` helpers computes the same padding |
| Tlv.OverlayIsPayload | message.go:520-551 | the encoder's writes at a moving offset into one zeroed buffer amount to the concatenation of the printed attributes, for consistent Length fields |
| Tlv.ParseTLVs | grouped.go:144-162 | the offset loop returns what the recursive reading of the octets returns, with whether every length was good |
| Tlv.TlvsOfChildren | grouped.go:144-162 | for any list of children within the wire's limits, reading the concatenation of their `buildSimpleAttr` encodings gives exactly that list, whatever the M bits |
| Tlv.ScanAgainstTlvs | message.go:595-641 | on every byte string the loop of `Decode` and `parseTLVs` reject together and return the same attributes, except exactly when one octet is left over |
| Tlv.LeftOverOctet | grouped.go:144-162 | on a single octet the loop of `Decode` reports an incomplete header and `parseTLVs` an empty list |
| Tlv.ParsersAgree | message.go:595-641 | on payloads of whole words the two parsers accept the same inputs and return the same attributes |
| Tlv.ScanFills | message.go:595-641 | attributes read from an aligned payload fill it exactly: the offset stays aligned and ends at the end |
| Messages.RoundTrip | message.go:473-644 | every sendable message, pre-encoded attributes included, decodes to the same header fields and attributes, and trailing octets do not disturb it |
| Messages.RoundTripIff | message.go:473-644 | `Decode` of `Encode` gives the message back exactly when it is well formed: version 1 or 2, Reserved below 32, types below 128, Length equal to the value's length and at most 253, at most 65535 words |
| Messages.DecodedWellFormed | message.go:556-644 | whatever `Decode` accepts is well formed, and its word count is that of its attributes |
| Messages.DecodeRejects | message.go:556-644 | in the octets themselves: what `Decode` rejects and as what, in the order of its checks, down to the attribute at which the walk over the payload stops |
| Messages.Canonicalization | message.go:556-644 | re-encoding an accepted byte string reproduces it up to the payload's end with every M bit set and padding cleared, and decodes to the same message |
| Messages.IncompleteHeaderUnreachable | message.go:598-600 | the incomplete-header error of `Decode` cannot occur |
| Messages.FlagFlips | grouped.go:13-24 | adding or subtracting 16 flips the R flag without leaving the octet |
| Messages.WireLayout | message.go:473-518 | the common header octet by octet: version and Reserved, primitive, words, conference, transaction and user ID in network order, whatever the attributes |
| Messages.AttributeLayout | message.go:520-551 | an attribute octet by octet: type with the M bit set, length with its header, value, zeros up to the next word |
| Grouped.InfoAttributeReads | message.go:314-347 | the three-level FLOOR-REQUEST-INFORMATION reads back as its request ID, status and floor ID, in memory and as the peer receives it |
| Grouped.NestedRoundTrip | grouped.go:66-162 | the same behind any attributes already in the message, which are read as before |
| Grouped.StatusMessageReads | message.go:396-441 | `GetFloorID`, `GetFloorRequestID` and `GetRequestStatus` give the three numbers back, from the sender's message and from the one decoded at the receiver |
| InfoParts.PartsRead | grouped.go:87-128 | an information with any parts, as often and in any order, is read as what they say: every floor in order, and the last overall status with its queue position, beneficiary, requester and priority |
| InfoParts.IDsGiven | message.go:396-418 | a FLOOR-ID or FLOOR-REQUEST-ID of its own, wherever it stands in the message, is what the accessors return |
| InfoParts.IDsFound | message.go:396-418 | without one, or when it is too short, the floor is that of the first information with a floor, and the request that of the first information |
| InfoParts.StatusOwn | message.go:430-441 | a REQUEST-STATUS of its own is what `GetRequestStatus` returns, with its queue position |
| InfoParts.StatusFound | message.go:430-441 | without one the first information that gives a status, overall or for a floor, does, with its own queue position |
| Codec.BuildSimpleAttr | message.go:122-139 | the octets are those of the attribute printer `Wire` |
| Codec.BuildGroupedAttrWithHeaderID | message.go:190-217 | a group built by copying children one after another is the printed attribute of header ID and children |
| Codec.Message.constructor | message.go:33-43 | a new message has version 1, no flags and no attributes |
| Codec.Message.AddAttribute | message.go:46-52 | appends the attribute with its length truncated to an octet |
| Codec.Message.AddFloorID | message.go:55-59 | appends the FLOOR-ID in network order |
| Codec.Message.AddFloorRequestID | message.go:62-66 | appends the FLOOR-REQUEST-ID in network order |
| Codec.Message.AddRequestStatus | message.go:76-81 | appends status and queue position |
| Codec.Message.AddErrorCode | message.go:84-87 | appends the ERROR-CODE |
| Codec.Message.AddErrorInfo | message.go:90-92 | appends the text as ERROR-INFO |
| Codec.Message.AddFloorRequestInformation | message.go:314-347 | appends the pre-encoded FLOOR-REQUEST-INFORMATION that `InfoAttributeReads` is about |
| Codec.Message.SetResponse | grouped.go:18-24 | sets or clears the R flag and nothing else |
| Codec.Message.Encode | message.go:473-553 | returns the octets of `Encoding` for every message, or the alignment error, and sets PayloadLength |
| Codec.Message.GetAttribute | message.go:385-392 | finds the first attribute of a type |
| Codec.Message.FloorRequestInfos | grouped.go:66-85 | collects every readable FLOOR-REQUEST-INFORMATION in order, skipping the others |
| Codec.ReadRequestStatus | grouped.go:130-141 | finds the first REQUEST-STATUS of a group whose attributes all parse |
| Codec.ParseFloorRequestInfo | grouped.go:87-128 | reads a group value into the record of its parts, or fails |
| Codec.DecodeAttributes | message.go:595-641 | the attribute loop of `Decode` at a moving offset, error cases included |
| Codec.Decode | message.go:556-644 | returns the message or the error of `Decoding` for every byte string |
| Codec.BuildFloorStatusMessage | message.go:235-302 | byte for byte what `Encode` returns on the FloorStatus message of that version with its two attributes |
| Codec.FloorStatusReads | message.go:235-302 | whoever receives those octets reads back every parameter, from the FLOOR-ID as well as from the information |
| Framing.ReadMessage | message.go:647-670 | one read takes exactly one message's octets off the stream, or reports the short read or the decode error |
| Framing.WriteMessage | message.go:673-684 | appends the encoding to the stream, or nothing when there is none; a write that fails leaves what was accepted and reports the error |
| Framing.StreamRoundTrip | message.go:647-684 | whatever well-formed messages are written, reading returns exactly them, in order, and consumes the stream |
| FloorState.FloorStateMachine.constructor | state.go:24-31 | a new floor is Released and has no owner |
| FloorState.FloorStateMachine.Request | state.go:34-54 | a Released floor becomes Pending for the user; any other is refused unchanged, naming its owner or its state |
| FloorState.FloorStateMachine.Grant | state.go:57-68 | only a Pending floor becomes Granted |
| FloorState.FloorStateMachine.Deny | state.go:71-83 | only a Pending floor becomes Denied, losing its owner and request |
| FloorState.FloorStateMachine.Release | state.go:86-99 | the owner, or user 0, frees the floor; others are refused, naming the owner |
| FloorState.FloorStateMachine.Revoke | state.go:102-119 | the floor ends Released, with an error when nobody owned it |
| FloorState.Histories | state.go:34-119 | over every call history with nonzero users: four states only, an owner exactly in Pending and Granted, and that owner and request are those of the last accepted Request |
| FloorState.DeniedStays | state.go:45-53 | a Denied floor refuses every Request until Revoke or a Release by user 0, and exactly those free it |
| UdpServer.Server.NextTxID | server.go:498 | the ID is the low 16 bits of the number of increments, through the wrap of the 32-bit counter |
| UdpServer.Server.CreateFloor | server.go:99-111 | returns the floor, creating it only if it is missing |
| UdpServer.Server.GetFloorByRequestID | server.go:122-132 | finds some floor with that request ID, and none only if there is none |
| UdpServer.Server.FloorOwnedBy | server.go:135-145 | finds some floor in use by the user, and none only if there is none |
| UdpServer.Server.SendUDP | server.go:668-697 | stamps the session's version and drops the R flag for version 1 |
| UdpServer.Server.SendUDPFloorStatusResponse | server.go:650-655 | answers the request with its own IDs, the R flag and the status |
| Refusals.TextFits | server.go:657-664 | every text the server sends with an Error is there and fits one ERROR-INFO attribute |
| Refusals.DecimalReads | server.go:560-608 | the numbers in those texts are decimal digits that read back as the floor, request or user, without leading zeros |
| UdpServer.Server.SendUDPError | server.go:657-666 | answers the request with an Error carrying the code, and the text unless it is empty |
| UdpServer.Server.Refuse | server.go:482-609 | each refusal goes out with its own code and text, the numbers in it included |
| UdpServer.Server.BroadcastFloorStatusUDP | server.go:711-730 | every registered session but one gets exactly one notice, each with the next counter value |
| UdpServer.Server.HandleUDPHello | server.go:410-480 | registers the session with the lists it announces, keeping earlier ones it does not, answers HelloAck, reports the connection once |
| UdpServer.Server.HandleUDPFloorRequest | server.go:482-547 | the state, the single answer and the callback of a request: missing floor ID, refused, granted or denied |
| UdpServer.Server.HandleUDPFloorRelease | server.go:549-597 | the state, answer, callback and notices of a release, with every lookup and error path |
| UdpServer.Server.HandleUDPFloorQuery | server.go:599-619 | reports the floor's state and request ID, or the error |
| UdpServer.Server.HandleUDPGoodbye | server.go:621-646 | releases the sender's floors one by one, each with its notices and callback, and answers nothing |
| UdpServer.Server.Dispatch | server.go:357-408 | acknowledgements, errors and unknown primitives change nothing but the session's version; the five requests go to their handlers |
| UdpServer.Server.NewUDPClient | udpclient.go:54-88 | a client role is registered toward its address, replacing an earlier one |
| UdpServer.Server.HandleUDPMessage | server.go:328-408 | a datagram from an address with a client goes to that client alone; any other, from a registered address or not, takes the server to the state of the transition system and sends exactly its reply and notices, for some legal choice of lookups and orders |
| ServerSafety.OthersUntouched | server.go:482-640 | no datagram of a nonzero user changes a floor Pending or Granted for another |
| ServerSafety.ReleaseFreesAtMostOne | server.go:549-597 | a FloorRelease frees at most one floor, and only one its sender owns |
| ServerSafety.StaleRequestIDFallback | server.go:564-573 | a release with an unknown request ID still frees one of the sender's floors if it has one, and is otherwise refused as unknown |
| ServerSafety.GoodbyeFreesAll | server.go:621-640 | a Goodbye frees exactly its sender's floors, in whatever order they are found |
| ServerSafety.StepKeepsSafe | server.go:357-408 | every datagram keeps callbacks and floors consistent |
| ServerSafety.TraceSafety | server.go:482-646 | over every run of datagrams with nonzero users: grants and releases of each floor alternate with the right owner, a floor is Granted to a user exactly when its last callback says so, and none stays Pending |
| ServerSafety.TraceSafetyFromStart | server.go:86-97 | the same from a new server, floor by floor |
| ServerSafety.DeniedForever | server.go:535-543 | once Denied, a floor refuses every later datagram of every user |
| ServerSafety.BracketedIsPaired | server.go:526-542 | that alternation is a sequence of Granted(u), Released(u) pairs with at most one Granted left over |
| ServerReplies.RepliesAreStamped | server.go:650-677 | to every datagram of version 1 or 2, in every state: a reply goes to exactly the four requests that have one, carries the datagram's version, conference, transaction and user IDs, and the R flag exactly in version 2, down to its first octet, 0x50 or 0x20 |
| ServerReplies.NoticesNotify | server.go:711-730 | every notice goes to its session in that session's version, R flag clear down to the first octet, under the next transaction ID, and reads back as the release of the floor |
| ServerReplies.ReleaseByFloor | server.go:555-596 | a release naming a floor frees it exactly when it belongs to the sender: the floor is Released, the reply reads so, one release is reported and every other session has one notice; otherwise nothing changes and the reply is error 6 for a floor that does not exist and error 10 for another's |
| ServerReplies.ReleaseByRequest | server.go:563-587 | a release by a known request ID does the same for some floor with that ID |
| ServerReplies.ReleaseByOwner | server.go:564-573 | with an unknown one a floor in use by the sender is freed, with the same effects, or error 7 says there is none |
| ServerReplies.ReleaseOfNothing | server.go:576-579 | a release naming neither is refused with error 4 |
| ServerReplies.RequestOfNothing | server.go:485-490 | a request without a floor is refused with error 6 and takes no request ID |
| ServerReplies.RequestOfFree | server.go:498-544 | a request for a free or new floor takes the next request ID; the decision is the floor's state, with the priority asked for or 512, the reply, the session's state and the one callback |
| ServerReplies.RequestOfTaken | server.go:515-523 | any other changes no floor, is refused with error 5 naming the floor's user or state, and is reported as denied |
| ServerReplies.QueryTold | server.go:599-619 | a query changes nothing and is told the floor's status and request ID, or refused with error 4 or 6 |
| ServerReplies.HelloServed | server.go:410-480 | a Hello registers its session with its IDs, version and lists, is reported once per address, and is answered with the server's lists |
| ServerReplies.GoodbyeServed | server.go:621-646 | a Goodbye frees each floor of its sender once, in some order: one report and one notice for every other session each, and no reply |
| ServerReplies.OthersIgnored | server.go:383-407 | whatever else arrives only has its version noted |
| UdpRuns.ReadLoop | transport.go:725-769 | from octets to callbacks: datagrams are decoded and handled one at a time, and the server object ends where the transition system does on those it gets, with all of the above when none comes from user 0; every client on the socket has handled exactly the datagrams from its address |
| TcpServer.StepKeepsInv | server.go:861-1145 | every atomic operation of every connection handler keeps the invariant tying handlers, floors, messages, notices to the other sessions and callbacks |
| TcpRuns.DecisionSucceeds | server.go:904-928 | in every interleaving a handler between Request and Grant or Deny finds its floor Pending for its user and request, so the decision succeeds; every Pending floor has such a handler |
| TcpRuns.GrantedIsTrue | server.go:909-911 | every Granted status leaves while the floor is Granted to that user with that request |
| TcpRuns.ClientsAreToldTheTruth | server.go:965-979 | between its own messages, a client that last heard Granted holds the floor; one that holds it has heard otherwise exactly when the notice of an earlier release came after its Granted |
| TcpRuns.NoticeMayOvertake | server.go:975-978 | a reachable run in which that happens: a client holds the floor, is idle, and last heard Released |
| TcpRuns.TruthInTime | server.go:1121-1139 | over every run in which no request for a floor is accepted before the last notice of its release is out, a client between its own messages last heard Granted exactly when it holds the floor |
| TcpRuns.MutualExclusion | server.go:861-1030 | two clients that last heard Granted for one floor, in answers or notices: one of them is in the middle of giving it up |
| TcpRuns.GoodbyeLeavesNothing | server.go:1002-1030 | after its Goodbye a user owns no floor, though owners are read one floor at a time while others act |
| TcpRuns.CallbacksOfOneUser | server.go:913-976 | the callbacks about one user and floor alternate, and are up to date when its handler is idle |
| TcpRuns.OpenAtGrant | server.go:913-976 | when a grant is about to be reported, another user's is still open exactly when its handler has freed the floor without having reported it |
| TcpRuns.CallbacksBracketedIff | server.go:965-976 | over every run the callbacks of a floor are bracketed across users exactly when no grant is reported at such a moment |
| TcpRuns.CallbacksMayOverlap | server.go:965-976 | a reachable run in which two users are both reported as holding the floor |
| TcpRuns.UndisturbedGrant | server.go:861-916 | undisturbed, a request for a free floor ends with the floor granted |
| TcpExchanges.WholeExchanges | server.go:861-1030 | in every interleaving what the server says to a client, and reports about it, is a sequence of whole exchanges, each about one floor and one request ID: Pending, Granted, OnGranted; Pending, Denied, OnDenied; an error and OnDenied; Released and OnReleased; a lone error; the reports and the answer of a Goodbye. Only the last may be unfinished, exactly as far as its handler has come |
| TcpExchanges.NeverLeftPending | server.go:892-925 | a client whose handler is idle was not told Pending last about any floor |
| TcpExchanges.DeniedIsTrue | server.go:917-925 | a Denied status leaves exactly when its handler has denied that user's request for that floor and not said so yet, and the callback for the same request is what it says next |
| TcpOutcomes.UndisturbedDecision | server.go:861-925 | undisturbed, a request for a free floor ends with the floor Granted, or Denied and without owner, and the output is Pending, the decision and its callback |
| TcpOutcomes.UndisturbedRefusal | server.go:884-890 | a request for a floor that is not free leaves it alone: one error, and the denial reported |
| TcpOutcomes.UndisturbedRelease | server.go:965-976 | a release by the owner frees the floor, is answered and reported |
| TcpOutcomes.UndisturbedRefusedRelease | server.go:965-969 | a release by anybody else gets one error and leaves the floor alone |
| TcpOutcomes.SnapshotHasAll | server.go:1121-1130 | a broadcast begins with every session registered but the releasing user's own |
| TcpOutcomes.EveryoneIsTold | server.go:1129-1139 | in every interleaving each of them whose connection stays gets its notice before the handler goes on to anything else |
| TcpOutcomes.NoticeIsOwed | server.go:1129-1139 | and nobody else gets one |
| TcpOutcomes.GoneIsUnregistered | server.go:313-323 | over every run a user that has said goodbye has no session until it connects and says Hello again |
| TcpOutcomes.RequestIDsDiffer | server.go:877 | two requests never have the same ID, whoever makes them, within 65536 counter increments |
| UdpClient.TransactionIDs | udpclient.go:400-406 | IDs are never 0, and two calls return the same one exactly when they are a multiple of 65535 apart, through both wraps |
| UdpClient.HandledKeeps | udpclient.go:288-316 | a datagram changes only the transaction it answers, which keeps its first answer, and otherwise requests, reports and acknowledgements |
| UdpClient.TransactionOutcome | udpclient.go:244-274 | a transaction sends one copy per attempt and waits T1 * (2^n - 1) for n silent ones; it fails for lack of an answer exactly when all MaxRetries are silent, and as closed exactly when the client was closed meanwhile; every exit leaves no pending entry |
| UdpClient.RequestTakesFirst | udpclient.go:157-194 | for every client and everything that may arrive: `RequestFloor` reports a request ID exactly when the first datagram carrying its transaction ID is a FloorRequestStatus with that ID, about whatever floor and whether or not it is an answer; it then lists the floor exactly when the status is not final |
| ClientNews.OwnNews | udpclient.go:321-390 | news about the request the client has for a floor, whoever it names: the request is held exactly when the status is Granted, gone when it is Denied, Cancelled, Released or Revoked, and has the status otherwise; the matching callback is made once, other floors are untouched, and the news is acknowledged |
| ClientNews.NewsForUser | udpclient.go:329-361 | the same for news naming the client's user as beneficiary, or as requester where no beneficiary is given, under whatever request ID |
| ClientNews.NewsOfOthers | udpclient.go:345-351 | any other news changes no request and is reported as the floor's status |
| ClientNews.ServerNews | udpclient.go:321-390 | all of that for the messages the server sends |
| ClientNews.AnyNews | udpclient.go:321-351 | a message about any number of floors: a request it mentions only by its own ID is gone exactly when one of the statuses given to its floor ends it, and has the last of them otherwise |
| ClientNews.OtherDatagrams | udpclient.go:303-336 | a FloorStatus without an information is reported and acknowledged, a Goodbye acknowledged, an Error reported, anything else ignored |
| ClientNews.RequestComesTo | udpclient.go:157-194 | which datagram makes a request fail, and how; a request that fails changes nothing, and one that succeeds lists the floor under the ID and status read, or drops it, and makes the matching callback |
| ClientNews.ReleaseComesTo | udpclient.go:197-225 | a release needs a request, and succeeds with whatever comes first but an Error; only then is the request forgotten and its release reported |
| ClientNews.ClosedClient | udpclient.go:244-247 | a closed client sends nothing and changes no request |
| UdpClient.UDPClient.constructor | udpclient.go:12-80 | given values are kept; the defaults are version 2, 500 ms and 4 attempts |
| UdpClient.UDPClient.NextTransactionID | udpclient.go:400-406 | takes the counter to `NextCounter` and returns its low 16 bits |
| UdpClient.UDPClient.HasFloor | udpclient.go:237-242 | holds exactly for an active request whose status is Granted |
| UdpClient.UDPClient.ApplyOwnStatus | udpclient.go:363-390 | updates or forgets the request and reports the status |
| UdpClient.UDPClient.HandleNotification | udpclient.go:321-351 | applies every floor of every information to the own request or reports it |
| UdpClient.UDPClient.SendAck | udpclient.go:392-398 | acknowledges with the message's IDs and the R flag |
| UdpClient.UDPClient.Send | udpclient.go:276-286 | sends with the configured version |
| UdpClient.UDPClient.HandleMessage | udpclient.go:288-316 | routes a datagram to its transaction, or handles and acknowledges it |
| UdpClient.UDPClient.Transact | udpclient.go:244-274 | the doubling retransmission loop ends as `Transacted` says, whatever arrives meanwhile |
| UdpClient.UDPClient.RequestFloor | udpclient.go:157-194 | state and result of a request for every outcome of its transaction |
| UdpClient.UDPClient.ReleaseFloor | udpclient.go:197-225 | state and result of a release for every outcome of its transaction |
| Agreement.StepKeepsAgreement | udpclient.go:157-242 | every completed transaction, whatever ends it, every late notice or answer and every other datagram keeps client and server agreed on every floor, request IDs included, but for a granted floor whose answer was not the first datagram carrying the request's ID |
| Agreement.AgreementAfterRequest | udpclient.go:157-194 | after a request client and server agree on its floor exactly when the server has not granted it to the client, or the first datagram carrying the request's ID was the answer and the floor was not lost before |
| Agreement.AgreementAfterRelease | udpclient.go:197-225 | after a release they agree whichever datagram ended it: the client has given the floor up and the server has freed it |
| Agreement.MistakenIsNotice | server.go:711-730 | a datagram mistaken for the answer is a notice sent earlier whose counter value equals the client's |
| AgreementRuns.ClientServerAgreement | server.go:482-597 | over every run, with notices and answers delivered late, repeatedly and in any order, a client has a floor exactly when the server has granted it that floor and the client has not mistaken a notice for the answer that granted it |
| AgreementRuns.NoTwoHolders | udpclient.go:237-242 | no two clients ever have the same floor, mistaken notices or not |
| AgreementRuns.GrantReachesClient | udpclient.go:157-194 | such runs exist: from any agreed state a request for a free floor can complete, and the client then has it |
| AgreementRuns.ReleaseReachesServer | udpclient.go:197-225 | so can a release by the floor's holder, after which the server has freed exactly that floor and notified every other session |
| AgreementRuns.NoticeLosesGrant | udpclient.go:289-297 | from any agreed state with a notice that carries the ID of the next request: the server grants a free floor, while the client reports success under the other request's ID and does not have it |
| AgreementRuns.LostGrant | udpclient.go:400-406 | a run from the initial state in which that happens: both counters start at 0 |
| AgreementRuns.AgreementAfterGoodbye | udpclient.go:228-234 | after a client's Goodbye the two agree exactly when it held no floor |
| RequestQueue.FloorRequestQueue.Add | state.go:251-267 | append and one backwards bubble pass insert the request behind every one it does not outrank, and keep the queue sorted |
| RequestQueue.FloorRequestQueue.Remove | state.go:270-281 | takes out the first request with the ID, if there is one |
| RequestQueue.FloorRequestQueue.PopNext | state.go:296-307 | takes the front, if there is one |
| RequestQueue.FloorRequestQueue.GetPosition | state.go:317-327 | the position of the first request with the ID, or 0 |
| RequestQueue.AlwaysSorted | state.go:251-307 | after any operations, whatever the clock says, the queue is sorted by descending priority then ascending timestamp and holds exactly what was added and not taken out |
| RequestQueue.AddIsLastInLane | state.go:255-266 | a new request is last among those of its priority exactly when the clock has not run backwards since them; other priorities are untouched |
| RequestQueue.QueueIsLanes | state.go:251-307 | with a clock that never runs backwards the array is, after any operations, a first-in-first-out lane for each priority |
| RequestQueue.PopIsEarliestOfBest | state.go:296-307 | so `PopNext` returns the earliest arrival of the highest priority |
| RequestQueue.PositionIsPops | state.go:317-327 | the position is k exactly when k - 1 pops bring the ID to the front for the first time |
| RequestQueue.PositionCounts | state.go:317-327 | the position is one plus the requests of higher priority plus the earlier arrivals of its own |
| UserIds.UserIDPool.Allocate | virtual/manager.go:299-312 | the scanning loop with 16-bit increments takes the ID of `Allocation`, or none; it is still scanning after 65535 turns exactly when it never ends |
| UserIds.ScanSettles | virtual/manager.go:304-309 | 65535 turns decide how the loop ends: more give the same ID, fewer the same or none yet |
| UserIds.UserIDPool.AllocateSpecific | virtual/manager.go:316-330 | succeeds exactly for a free ID of the range |
| UserIds.UserIDPool.Release | virtual/manager.go:333-337 | the ID is free afterwards |
| UserIds.UserIDPool.Available | virtual/manager.go:340-346 | the number of free IDs of the range, exactly when only IDs of the range are taken and the range is not all of 0 to 65535; what it returns otherwise, range by range, also for ranges that run backwards |
| UserIds.AllocationIs | virtual/manager.go:299-312 | the least free ID of the range if there is one; otherwise an error, or for a range ending at 65535 the least free ID below it, or no end |
| UserIds.StaysInRange | virtual/manager.go:304 | `Allocate` returns and keeps to its range exactly when the range ends below 65535 or has an ID left |
| UserIds.AvailableCounts | virtual/manager.go:344-345 | the 16-bit count is the number of free IDs exactly when only IDs of the range are taken and the range is not all of 0 to 65535 |
| UserIds.WrappedPool | virtual/manager.go:304-345 | three allocations from the range 65534 to 65535 take the ID 0, after which no ID of the range is free and the count is -1 |
| UserIds.BackwardRuns | virtual/manager.go:304-345 | a range that runs backwards never hands an ID out, and its count is right exactly when start is one past end |
| UserIds.PoolRuns | virtual/manager.go:299-346 | over every run of a range ending below 65535: only IDs of the range are out, `Allocate` gets the least free one or fails exactly when all are taken, `Available` counts the free ones |
| UserIds.ManagerConserves | virtual/manager.go:107-235 | in every interleaving of creations, removals and releases, each ID taken from the pool has exactly one holder and every other none |
| UserIds.UserIDsAreUnique | virtual/manager.go:107-176 | no two live clients share a user ID, nor with one being created or removed |
| UserIds.ReleasedOnce | virtual/manager.go:203-231 | whoever returns an ID is its only holder, so none is released twice |
| UserIds.NewIDIsFree | virtual/manager.go:121-161 | the ID of a new client had no holder |
| UserIds.CreationAdds | virtual/manager.go:107-176 | in every interleaving a creation that succeeds adds exactly its client under an ID that was free, the one asked for if one was; one that fails adds none, and its ID is free again |
| UserIds.NameStays | virtual/manager.go:131-136 | from then on the name has that client until it is removed |
| UserIds.CreationsDiffer | virtual/manager.go:107-176 | two creations have different names and IDs unless the first client was removed in between |
| UserIds.Manager.constructor | virtual/manager.go:75-98 | defaults 100 and 1000 for missing bounds and for a range the wrong way round; the range is never empty and never starts at 0 |
| UserIds.Manager.CreateClient | virtual/manager.go:107-137 | every outcome: success adds exactly the returned client to the map and its ID, which was free, to the pool's taken ones; failure leaves both as they were; an allocation that never ends |
| UserIds.Manager.CreateClientWithUserID | virtual/manager.go:143-176 | the same for the ID asked for, with the order of its checks |
| UserIds.Manager.RemoveClient | virtual/manager.go:192-213 | exactly that client leaves the map and its ID the pool, whether or not closing succeeds |
| UserIds.Manager.RemoveAll | virtual/manager.go:217-235 | no client is left, exactly their IDs are returned, and the first error of closing them, in the order they are walked, is reported |
| UserIds.FirstErrorIs | virtual/manager.go:226-234 | that error is the one of the first client, in that order, that failed to close |

## Left out

- UdpServer.Server.HandleUDPFloorRequest: the beneficiary is computed by the source and never used; it is not modelled.
- UdpServer.Server.SendUDP: the outbox holds what is handed to the transport; a failing send is only logged by the source.
- UdpServer.Server.NewUDPClient: closing a client, which also unregisters whatever client its address has by then, is not modelled.
- TcpServer.StepKeepsInv: the TCP handlers are a transition system on values, not methods, because they interleave. One connection at a time per nonzero user, which sends its own ID and ends with a Goodbye; a connection that just drops, whose floors the source does not free, is not modelled. Priorities are fixed; HelloAck and the FloorStatus that answers a query, which the client does not take for a request's status, are left out; its errors carry no code; a request or release that names no floor, or an unknown one, only sends an error and is not an action of the model; keepalives are draws from the counter. A release may find any floor, more than the source's lookups can.
- UdpClient.UDPClient.Transact: durations are unbounded naturals, so Duration overflow is not modelled; the datagrams of one attempt are handled before the waiting transaction wakes up.
- UdpClient.UDPClient.SendAck: a failing send of an acknowledgement is only logged by the source and not modelled.
- AgreementRuns.ClientServerAgreement: assumes that each transaction completes, its datagram reaching the server once, and that transactions do not overlap; no Goodbye, no server-side calls, and fewer than 65536 increments of the server's and of each client's counter. Without deduplication a late duplicate release may free a newer grant.
- Server-side API calls (`GrantFloor`, `ReleaseFloor`, `BroadcastFloorState` and the other public broadcasts) and the request ID in notices after a Goodbye, which is read after it was cleared.
- `AddGroupedAttribute` and the BENEFICIARY, PRIORITY, user name and URI attribute builders.
- Hello, Goodbye and Close of the UDP client, `GetNext` and `Size` of the queue, and other read-only accessors.
- Sockets, listeners, keepalive, session timeouts, logging, `String` methods, the message hooks.
- The TCP client and the virtual client; the manager sees only a client's user ID and whether creating and closing it succeed.
