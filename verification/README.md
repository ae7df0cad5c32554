# DEEP, modelled and proved in Dafny

DEEP is an application protocol over TLS: a client session sends FETCH and EXCHANGE requests in 20-byte framed
messages, a server answers each with a RESPONSE, DATA chunks and an END that carries size and SHA-256. This project
models the protocol core of the repository and proves what it is for, over all inputs, runs and interleavings.

Three kinds of members work together.

- **Imperative methods** follow the source's loops and mutable objects (`Session`, the server's request loop, the peer
  table, readers and writers that fragment, the scanners with their index jumps). Each is proved against a
  specification function or states its property outright.
- **Specification functions** say what one frame, one call or one byte does.
- **Lemmas** prove what the source promises about those functions, over whole runs.

| file | subject |
|---|---|
| Bytes, Codec, ProxyCodec | numbers, frames and Proxy/1 messages as bytes |
| Surrogates, JsonTokens | the metadata scanners and walkers, Go and Python |
| Uri, Viewer | the URI parser and the viewer's separate scanner |
| Messages, Body | frames with decoded metadata; sending and receiving a body |
| Client, Probe | the client session, and the Python probe's own FETCH client |
| Server, ServerLoop | the server's state machine, and the loops that carry it out |
| Duplex | honest client and honest server together, as one machine |
| Racing | goroutines racing on one session |
| Limiter, AcceptLoop | per-peer budgets in an evicting table; the concurrent accept loop around it |
| Upstream | the upstream slot semaphore |
| Der | the canonical DER field reader |

How the outside world appears:

- SHA-256 is an uninterpreted function. Nothing is assumed of it, so results say "the digest matched", not "the bytes
  are the ones meant".
- A stream is what arrives before it ends, how it ends, and how many frames it still takes. End of file, resets,
  deadlines, cancellation and loss all show as input or room running out, at any point at all. After a write has
  failed no later one succeeds, which is how a TLS connection behaves.
- A context that ends without closing the stream appears where the source looks at it: `late` after a verified body,
  `lapse` before a chunk, `expired` before a call.
- The provider and the limiter answer as they please, per call and per request.
- Metadata is decoded (`Messages.Meta`); `oversize` marks metadata whose JSON exceeds 8192 bytes, `reportable` stands
  for ValidateRemoteError, and results that name the error a client is told assume that it passes the server's own
  errors, as it does. In the codec, JSON validity is a parameter.

The model follows the code branch by branch. Two results are conditions rather than plain agreements: reparsing a
printed URI works exactly when the print still fits in 4096 bytes (`Uri.PrintParses`), and the viewer's host pattern
also matches an authority before one final newline, because `$` does (`Viewer.HostPatternIs`); its earlier character
test keeps such text out.

## Model

| member | source | states |
|---|---|---|
| Duplex.SessionIsLookups | client.go:202-268 | Every run of an honest client and an honest server over FIFO streams, any interleaving of their steps, any timeout, cut or failing destination: the calls that returned success are the first ones begun, in order, numbered 1, 2, 3, ...; each delivered exactly the provider's bytes, media type, status and headers for its own path, query and submission, no bytes for HEAD (200 and the resource for GET and HEAD on a provider of resources alone, a fixed 405 for other methods there); no two provider calls share an ID and a 405 asks for none; and a client between calls whose server has not stopped finds both streams empty and `nextID` equal to `lastID + 1` modulo 2^32. |
| Duplex.EveryRunEnds | application.go:220-273 | Without faults every run brings a call to its end, however the steps interleave: to success with one more delivered call exactly when the request is admitted and the provider's answer is one both ends can carry (`Serviceable`), to failure otherwise. |
| Duplex.CallCanEnd | server.go:142-208 | From every moment of a call or of the greeting there is a schedule of the two ends alone that completes it: no state is stuck. |
| Duplex.NoDeadlock | application.go:277-344 | With no timeouts or loss the two ends never both wait to read with nothing in flight, unless the session is at rest. |
| Duplex.StepIsCloser | client.go:225-268 | Every step of the two ends inside a call ends it or strictly lowers a measure of remaining phases and frames. |
| Duplex.CallEnds | client.go:208-268 | The one step that ends a call: success exactly when the call is serviceable, and the record of finished calls grows by exactly that call. |
| Duplex.BeginRefuses | client.go:200-205 | A call that fails before its first frame is out (metadata over 8192 bytes) is not serviceable; any other is under way with the next ID. |
| Duplex.StepKeeps | application.go:276-345 | Each of the nine kinds of steps keeps the invariant that what lies ahead on the wire leads the reader to exactly the right upload or reply. |
| Duplex.ReplyHeads | application.go:246-269 | What an honest server puts on the wire as a reply, read by the client, finishes the call exactly when the RESPONSE is accepted and the body has the announced size; then nothing is left unread. |
| Duplex.RunTracks | client.go:202-203 | The finished calls of any run are a prefix of the calls begun, with consecutive IDs. |
| Duplex.RunCounted | server.go:158-192 | In every run with any faults: provider calls carry strictly increasing IDs, and none is made under the ID of a finished call whose method a provider of resources alone never sees. |
| Racing.RacersKeepOrder | client.go:176-203 | Every interleaving of any number of goroutines in Fetch, Exchange and Close on one session: the outgoing frames are HELLO, whole conversations with IDs 1, 2, 3, ... (the last possibly cut off), then at most one CLOSE that never follows a cut conversation; IDs are never reused and refused once the counter wraps to 0; nothing follows a frame that was written in part. |
| Racing.StepKeeps | client.go:272-283 | Each atomic step (TryLock, the closed flag, taking an ID, one frame, failure, unlock, swap, CLOSE) keeps the invariant behind it, including that a given-up conversation leaves the session closed and the connection down before the lock is free. |
| Racing.GlobalOk | application.go:194-221 | An unfinished conversation is always either its talker's to finish or being torn down; once CLOSE or a partial frame is out, its sender is past sending; the ID counter equals the number of conversations begun plus one modulo 2^32. |
| Racing.LoneCall | client.go:176-203 | A caller that finds the lock free, the session open and an ID left puts its whole conversation on the wire under that ID and leaves the session free. |
| Racing.LoneClose | client.go:272-283 | Close on a session that is open and free sends CLOSE once and shuts the connection. |
| Racing.TurnedAway | client.go:176-190 | A caller that finds the session busy, closed or out of IDs leaves everything as it was. |
| ServerLoop.ServeConnection | server.go:110-209 | The server's loop on a frame stream, whatever arrives and whenever its writes start to fail: its output is the state machine's trace up to the moment the stream is full, and its provider calls are a prefix of the trace's calls, all of them if everything fit. |
| ServerLoop.ServeRequests | server.go:142-208 | The request loop with `lastID` and `requestCount` carries out the state machine from its idle state. |
| ServerLoop.ConnectionSafe | server.go:110-208 | For every frame sequence an arbitrary client can send, and every moment its connection fails: output obeys the conversation grammar with any ERROR last; the provider is called at most once per request ID, with strictly increasing IDs, at most `MaxRequestsPerSession` times. |
| ServerLoop.ConnectionJustified | application.go:284-317 | Each provider call answers a complete stretch of the input: one FETCH request, or an EXCHANGE request, its submission and a DATA/END transcript of exactly the announced size whose digest matches; its path and query passed the resource check. |
| Server.CallsOrdered | server.go:158-192 | Calls of the provider from any phase: strictly increasing IDs above the floor of that phase, and no more than the limit still admits. |
| Server.OutputLegal | server.go:211-259 | Whatever arrives, the frames sent obey the grammar WELCOME, then RESPONSE DATA* END or CONTINUE RESPONSE DATA* END with growing IDs, END carrying the size and digest of the DATA before it, ERROR last. |
| Server.PrefixLegal | server.go:139-208 | The grammar holds at every moment of a run, not only at its end. |
| Server.CallJustified | application.go:300-317 | For every frame sequence the stretch of the input that justifies each provider call. |
| Server.ServeExchange | application.go:276-345 | The frame-by-frame machine inside an exchange is the second REQUEST, then the body receiver, then the provider, then the reply. |
| ServerLoop.Transfer | server.go:211-259 | transfer puts the FETCH plan on the wire: refusals, RESPONSE, DATA*, and END exactly when the reader yields the announced bytes and then ends, in time. |
| ServerLoop.TransferBody | server.go:231-258 | The sender loop of transfer, written apart from sendBody, emits the same frames for the same reader, also when its context ends between chunks. |
| ServerLoop.ReceiveAndRespond | application.go:280-344 | The server half of an exchange after CONTINUE: frames, provider calls, failure and unread input are those of its specification. |
| ServerLoop.CheckRequest | server.go:163-191 | The refusal of a REQUEST is the first failing check in the source's order. |
| ServerLoop.CheckHello | server.go:114-138 | A HELLO is taken exactly when it offers 1 to 16 distinct versions from 1 to 65535 that include 2; otherwise the refusal is the source's. |
| ServerLoop.SendError | server.go:261-274 | What the peer is told of a failure: its own RemoteError if reportable, PROTOCOL_ERROR, or INTERNAL_ERROR. |
| Server.HelloAnswered | server.go:114-141 | WELCOME exactly for an offer of 1 to 16 different versions from 1 to 65535 with 2 among them, UNSUPPORTED_VERSION when only 2 is missing, PROTOCOL_ERROR otherwise. |
| Server.RequestAnswered | server.go:152-203 | Every frame of an idle session: for CLOSE, PROTOCOL_ERROR, UNKNOWN_AUTHORITY, UNSUPPORTED_OPERATION, SESSION_LIMIT and RATE_LIMITED the condition on frame, count and limiter that gives it, without any provider call; otherwise the request is served. |
| Server.FetchAnswered | server.go:212-259 | The answer to a FETCH: the provider's resource with an exact body and then idle, or the error (the provider's own, INTERNAL_ERROR, TOO_LARGE, RESOURCE_CHANGED) under its condition. |
| Server.SubmitAnswered | application.go:280-299 | The second REQUEST is taken exactly when its method, size, headers and ID fit; a reportable ERROR is passed back, all else is PROTOCOL_ERROR. |
| Server.UploadAnswered | application.go:300-303 | Each frame of an upload: DATA that fits is kept, a matching END hands the submission on unless time is up, everything else is denied with its code. |
| Server.SubmissionAnswered | application.go:305-316 | An application provider answers itself; a provider of resources alone is asked for GET and HEAD, answered 200 without headers, and never asked for other methods, answered a fixed 405. |
| Server.ReplyAnswered | application.go:317-345 | The answer to an EXCHANGE: status, headers and body, no body for HEAD, or the error under its condition. |
| Server.EndAnswered | server.go:148-151 | A stream that ends between requests ends in silence; inside an exchange the client is told. |
| Client.Session.Fetch | client.go:165-270 | Against an arbitrary peer: local refusals touch nothing; otherwise frames out, destination bytes and unread input are those of `Converse`, the result is the verified answer, or the reason: a write or destination that failed or a context that ended is local, a remote error is handed on, anything else is what `WhyFailed` says; any failure closes the session and the connection. |
| Client.Session.Exchange | application.go:174-274 | The same for the four-phase EXCHANGE, with its upload sent only after an acceptable CONTINUE, reasons of failure included. |
| Client.Session.ReceiveResource | client.go:225-268 | The receive loop inside Fetch, written apart from receiveBody, accepts the same frames, hands the destination the same bytes and fails for the same reasons. |
| Client.Session.Close | client.go:272-283 | Close marks the session closed, sends at most one CLOSE and only while no call holds the lock, and a second Close does nothing. |
| Client.Dial | client.go:115-151 | One HELLO goes out, and a session with `nextID` 1 comes back exactly when the first frame is an acceptable WELCOME. |
| Client.FinishedIffTranscript | client.go:208-268 | For every frame stream: a call finishes with that answer and content exactly when an acceptable RESPONSE, DATA frames under the active ID that concatenate to exactly the announced size, and an END with that size and digest stand at its front; nothing behind them is read. |
| Client.DeliversPrefix | client.go:239-249 | On every path, failing or not, the destination was handed the bodies of leading DATA frames after an accepted RESPONSE, no longer than the announced size and the client's limit. |
| Client.OnReplyIs | client.go:212-223 | The RESPONSE checks in order accept exactly the frames with a fitting kind, ID, media type, size, status and headers. |
| Client.RunIsDrain | application.go:269-273 | Fetch's own loop and receiveBody agree on every stream: same verdict, same bytes, same unread frames. |
| Client.ConverseFinishes | application.go:222-273 | A whole call finishes with that answer exactly when its metadata can be written and the stream starts, after a CONTINUE for app/1 in an exchange, with an acceptable reply of matching size and digest. |
| Client.WhyFailed | client.go:208-268 | Why a call did not finish: the stream ended, or the last frame read tells: a reportable ERROR under the ID anywhere in the reply is handed on, a FETCH body over the client's limit is refused locally, every other frame is a protocol error. |
| Client.OnContinueIs | application.go:225-238 | Exactly CONTINUE under the ID for app/1 with 1 MiB uploads lets an exchange go on; a reportable ERROR is handed on, all else is a protocol error. |
| Client.RefusalIs | client.go:173-190 | The local checks: which of them gives which outcome, and that a call passes exactly when none does. |
| Body.SendBody | application.go:95-119 | For any reader: the frames sent, cut where the stream is full, are DATA chunks followed by END exactly when the reader yields the announced bytes and then ends, in time; every failure is told apart. |
| Body.ReceiveBody | application.go:121-161 | For any frame stream and a destination that may fail anywhere: what it is handed, what is left unread, the digest and the error. |
| Body.ChunkingIsExact | application.go:97-113 | A body of n bytes travels in ceil(n/65536) DATA frames, each non-empty and legal, that concatenate to it. |
| Body.VerifiedIffTranscript | application.go:121-161 | The receiver verifies a content exactly when a transcript of the announced size stands at the front of the stream, and leaves the rest. |
| Body.DrainDelivers | application.go:133-144 | What the destination was handed is the concatenation of leading DATA bodies under the ID, never more than the announced size. |
| Body.SentIsVerified | application.go:95-161 | Whatever the sender emits for an exact body, the receiver told the same size verifies whole, without reading on. |
| Messages.ValidateHeaders | application.go:68-93 | The header loop accepts exactly the lists of at most 64 well-formed headers of at most 6144 bytes together. |
| Messages.ErrorTravels | client.go:285-303 | The reason a peer reads out of an ERROR frame is the remote error it was sent if that may be reported, and otherwise PROTOCOL_ERROR or INTERNAL_ERROR with a fixed text. |
| Messages.ExpectIs | client.go:285-303 | expect passes exactly the awaited frame; a reportable ERROR under the ID is handed on, anything else is a protocol error. |
| Messages.HeaderBytesAdd | application.go:72-91 | The total that is limited counts the name and value of every header once. |
| Body.DrainRefuses | application.go:121-161 | Why a body was refused: the first frame that is neither fitting DATA nor the END tells, as a remote error or a protocol error. |
| Body.StopsWhere | application.go:99-117 | Where a sender stops on a reader that is short, long or out of time, and what it then reports. |
| Limiter.RefinesMemory | limits.go:96-153 | For non-decreasing times and requests only from holders of a slot, the evicting table answers as a limiter that never forgets a peer, and refuses for lack of room exactly when an untracked peer meets 4096 entries that stay after the prune allowed to it. |
| Limiter.TwicePerMinute | limits.go:105-153 | Any half-open minute holds at most 2*240 admitted connections and 2*RequestsPerMinute allowed requests of one peer, across disconnects, reconnects and evictions. |
| Limiter.ActiveIsHeld | limits.go:117-138 | A peer's `active` is exactly its granted slots not yet returned, at most the maximum; while it is positive the peer is in the table. |
| Limiter.TableBounded | limits.go:100-114 | The table never exceeds 4096 entries, on any history at all. |
| Limiter.AlikeStep | limits.go:102-116 | One call keeps the relation between table and memory: tracked budgets equal, forgotten ones stale for good; a peer re-created after eviction starts as a reset would leave it. |
| Limiter.BudgetStep | limits.go:126-130 | One call keeps the count of grants in any fixed minute within what the current window and the one before allow. |
| Limiter.PeerLimiter.Acquire | limits.go:96-124 | acquire with its in-place budget updates and its throttled sweep does what the specification step says. |
| Limiter.PeerLimiter.Prune | limits.go:103-107 | The sweep, in any iteration order, deletes exactly the inactive entries whose window is over. |
| Limiter.PeerLimiter.Release | limits.go:132-138 | release gives back one active slot if there is one. |
| Limiter.PeerLimiter.AllowRequest | limits.go:140-153 | allowRequest resets an expired window and counts one request within the limit. |
| Limiter.AnswersByHistory | limits.go:117-153 | From the history alone, exactly: an acquire gets Yes when the peer holds fewer than the maximum and was granted fewer than 240 since the call that opened its current minute, a request when it was granted fewer than the limit since then. |
| Limiter.FairToAll | limits.go:117-153 | Nobody is turned away early: below the maximum and below 240 connections (or the request limit) in the minute that ends now, the answer is Yes unless there is no room; at the maximum it is No. |
| Limiter.FullMeans | limits.go:100-114 | No room exactly for a new peer at 4096 entries when a sweep was less than a second ago or no entry is idle with its minute over. |
| Limiter.MemoryIsRecorded | limits.go:126-130 | A budget is what the history says: opened by that call, that many connections and requests granted since. |
| AcceptLoop.EverySlotOnce | server.go:52-84 | In every interleaving of the accept loop and its workers: `active` equals the pending acquire plus the workers that have not released, occupied capacity equals the workers that have not drained and never exceeds MaxConnections, no drain or release runs without something to return, the limiter's callers are orderly, and all counts are zero when Serve returns. |
| AcceptLoop.StepKeeps | server.go:58-83 | Each shared step of the loop or a worker keeps those accounts. |
| AcceptLoop.CanReturn | server.go:52-53 | Once accepting has stopped, the workers can always finish and the loop return: nothing they do blocks. |
| AcceptLoop.SlotFate | server.go:65-69 | A new connection goes on exactly when the limiter says Yes; with few workers and few connections of its peer in the last minute it does, unless the table is full. |
| AcceptLoop.ConnectionFate | server.go:70-82 | A connection with a slot gets a worker exactly when fewer than MaxConnections workers have yet to drain; otherwise its slot goes back. |
| Codec.ReadFrame | protocol.go:71-98 | On a reader that fragments at will, ReadFrame consumes and returns exactly what the specification decoder says. |
| Codec.WriteFrame | protocol.go:100-122 | A successful write appends the encoding; a failed one leaves a prefix of it; a refused frame writes nothing. |
| Codec.WriteAll | protocol.go:124-139 | On a writer that takes any part and may misreport it: success means all bytes are out, anything else a prefix. |
| Codec.ReadFull | interop/python_probe.py:96-104 | receive_exact and io.ReadFull: whole or nothing, however the source fragments. |
| Codec.DecodeEncode | protocol.go:71-122 | Reading back what was written gives the same frame and leaves every later byte alone. |
| Codec.EncodeDecode | protocol.go:71-122 | Every byte string ReadFrame accepts is exactly what WriteFrame emits for the result, which WriteFrame would accept. |
| Codec.SelfDelimiting | protocol.go:100-122 | No encoding is a proper prefix of another; streams that agree agree on their first frame. |
| Codec.DecodeAllEncodeAll | protocol.go:71-122 | Any concatenation of encodings decodes to exactly those frames. |
| Codec.SplitsOneWay | protocol.go:71-122 | A concatenation of encodings splits into frames one way only. |
| Codec.ProbeAgrees | interop/python_probe.py:107-122 | The probe's reader accepts exactly the Go frames other than CONTINUE, with the same result and remainder. |
| ProxyCodec.WriteProxyMessage | proxy.go:39-54 | A successful write appends preface, length and data; a failed one a prefix; an empty or oversized message nothing. |
| ProxyCodec.ReadProxyMessage | proxy.go:57-71 | On a fragmenting reader it consumes exactly one message or reports the error its specification names. |
| ProxyCodec.DecodeEncode | proxy.go:39-71 | A message read back leaves the TLS bytes behind it intact. |
| ProxyCodec.EncodeDecode | proxy.go:57-71 | Every message accepted is exactly what WriteProxyMessage emits for it. |
| ProxyCodec.SelfDelimiting | proxy.go:39-71 | No message is a proper prefix of another. |
| Codec.HeaderLayout | protocol.go:110-116 | The bytes of a frame spelled out: DEEP, 2, type, two zeros, ID, metadata and body length in big-endian order, metadata, body. |
| Codec.HeaderTable | protocol.go:48-68 | Which ID and body size each of the nine types allows, and that no other type is legal. |
| ProxyCodec.MessageLayout | proxy.go:44-54 | The bytes of a message spelled out: DPRX0001, big-endian length, 1 to 4096 bytes. |
| Surrogates.ValidateSurrogates | protocol.go:251-291 | Accepts exactly the byte strings that can be cut into pieces whose in-string escapes are complete, with four hex digits after `\u`, every high surrogate immediately followed by a low one and no lone low. |
| Surrogates.Scan | protocol.go:251-291 | The loop with its index jumps accepts exactly what the structural cut and pairing accept. |
| Surrogates.CutSpell | protocol.go:251-291 | The cut into pieces is unique: spelling well-formed pieces and cutting gives them back. |
| Surrogates.SpellCut | protocol.go:251-291 | Whatever the cut accepts is well-formed and spells the input. |
| Surrogates.ProbeAgrees | interop/python_probe.py:58-67 | On text with complete escapes, as in all well-formed JSON, the byte scan agrees with the probe's search for surrogates in the decoded text. |
| JsonTokens.WalkJson | protocol.go:197-248 | On any token stream the recursive walker with its loops accepts and consumes what the specification walk says. |
| JsonTokens.WalkValue | protocol.go:197-248 | On the tokens of any value it consumes exactly that value and accepts exactly when containers nest within the depth left and no object repeats a key. |
| JsonTokens.ObjectPasses | protocol.go:175-195 | A metadata object passes exactly when containers nest at most 16 deep and no object repeats a decoded key. |
| JsonTokens.ValidateTokens | protocol.go:183-194 | The token part of validateJSON: one object and nothing behind it. |
| JsonTokens.ProbeWalksAlike | interop/python_probe.py:45-69 | The Go walker and the probe's two checks accept the same objects. |
| JsonTokens.ProbeNesting | interop/python_probe.py:58-64 | validate_json_values refuses exactly the values whose containers nest more than 16 deep. |
| JsonTokens.UniqueObject | interop/python_probe.py:45-51 | The dictionary of the pairs, refused exactly when a key repeats. |
| JsonTokens.CheckAdapterJsonValue | adapters.go:535-590 | On any token stream the adapter's walker accepts and consumes what its specification says. |
| JsonTokens.CheckValue | adapters.go:535-590 | On the tokens of any value: accepted exactly when every node, scalars included, lies at most 64 levels below the root, none is null and no object repeats a key; then exactly that value is consumed. |
| Surrogates.ParsePrinted | protocol.go:271-274 | Reading the four digits of an escape inverts printing them in any mix of cases, for every number below 65536. |
| Surrogates.ParsedIsPrinted | protocol.go:271-274 | Whatever is read is a printing of the value read; every other four bytes are refused. |
| Surrogates.PairPasses | protocol.go:279-287 | The escaped pair of any code point from U+10000 to U+10FFFF, in any mix of cases, passes and decodes to it. |
| Surrogates.LoneFails | protocol.go:276-287 | A surrogate escape on its own is refused, in any mix of cases. |
| JsonTokens.WalkIff | protocol.go:197-248 | On any token stream: accepted with that rest exactly when the stream is one value followed by it that nests within the depth left without repeated keys. |
| JsonTokens.TokensAreObject | protocol.go:175-195 | Any token stream passes as metadata exactly when it is one object, at most 16 deep, with no repeated key and nothing behind it. |
| JsonTokens.CheckIff | adapters.go:535-590 | On any token stream at the root: accepted exactly when it starts with one value of height at most 64 without null or repeated keys. |
| Uri.ParseURI | uri.go:26-66 | Accepts exactly the texts that are a spelling of a DEEP URI, and returns the URI they denote. |
| Uri.ParsesOnce | uri.go:26-66 | A text denotes one URI only: the decomposition is unique. |
| Uri.ParsedPassesServer | server.go:168-183 | Authority, path and query of every parsed URI pass the server's own checks. |
| Uri.ResourceFits | uri.go:101-111 | The 4096-byte check in ValidateResource can never be what rejects a URI of at most 4096 bytes. |
| Uri.PrintParses | uri.go:26-66 | Printing and reparsing gives the same URI exactly when the print is at most 4096 bytes, and it outgrows the text by one byte at most. |
| Uri.ComponentIsGrammar | uri.go:131-147 | validateComponent matches the character grammar of sections 2.1 and 3.3 to 3.5 of RFC 3986. |
| Uri.ValidateComponent | uri.go:131-147 | The index loop with its escape jumps accepts exactly the components. |
| Uri.ValidateAuthority | uri.go:71-77 | Accepts exactly two labels around one dot, the first of which may hold underscores. |
| Uri.ValidateResource | uri.go:101-119 | Accepts exactly the paths from `/` and queries that are components and fit 4096 bytes together. |
| Uri.ValidLabel | uri.go:83-93 | Accepts exactly 1 to 63 lower-case alphanumerics and hyphens with alphanumeric ends. |
| Viewer.ScanTail | viewer/DEEP.Viewer/NavigationPolicy.cs:22-33 | The viewer's loop with its escape jumps and fragment counter accepts what its specification scan says. |
| Viewer.ScanAgrees | viewer/DEEP.Viewer/NavigationPolicy.cs:22-33 | For every tail the viewer's single pass accepts exactly when the Go split into path, query and fragment followed by three component checks accepts, escapes cut by a delimiter included. |
| Viewer.HostPatternIs | viewer/DEEP.Viewer/NavigationPolicy.cs:7-8 | The host pattern accepts exactly the authorities of ValidateAuthority, or one followed by a final newline, which `$` lets through. |
| Viewer.AgreesWithParser | viewer/DEEP.Viewer/NavigationPolicy.cs:10-35 | Where System.Uri cuts the text faithfully, the viewer accepts exactly the texts ParseURI accepts. |
| Uri.ReadsParts | uri.go:26-66 | Every text put together from a well-formed authority in either case, path, query and fragment reads back as exactly those parts. |
| Der.DerFields | interop/python_probe.py:227-250 | For every input: the result re-encodes to the input, and a refusal means the input is over 65536 bytes or no list of fields encodes to it. |
| Der.ParseIsInverse | interop/python_probe.py:227-250 | Decoding is the exact inverse of concatenating canonical definite-length encodings (sections 8.1.3 and 10.1 of X.690) with one-byte tags. |
| Der.LengthIsCanonical | interop/python_probe.py:237-244 | Every length that is read is the shortest encoding of its value; every other is refused. |
| Der.LengthIsShortest | interop/python_probe.py:237-244 | Among all definite lengths of a number, minimal or not, the canonical one is the single shortest. |
| Upstream.TakesWhenFree | http_upstream.go:156-160 | A waiting exchange can go ahead exactly when fewer than eight slots are held. |
| Upstream.CanFreeAll | http_upstream.go:130-136 | From every moment, failing what is in flight and closing what is open gives all eight slots back without waiting. |
| Probe.Fetch | interop/python_probe.py:151-185 | The probe's fetch loop succeeds on exactly the streams on which the Go client's FETCH does, with the same bytes, digest and unread frames. |
| Upstream.EverySlotReturns | http_upstream.go:151-160 | In every interleaving of upstream exchanges, failures and repeated or concurrent closes: occupied slots equal the exchanges in flight plus bodies not yet closed, at most 8; each slot is given back at most once, exactly once after an error or a close; the releasing receive never blocks. |
| Upstream.StepKeeps | http_upstream.go:130-136 | Each step, the once-only release included, keeps those accounts. |
| Upstream.AllFree | http_upstream.go:68-84 | When every exchange has ended and every body is closed, all slots are free again. |

## Left out

- TLS, certificates, pins and ML-DSA identities (security.go): library cryptography.
- Sockets, dialing, DNS, deadlines and contexts as such: only their effect on a stream is modelled, as described above.
- JSON text below the token level and the typed decoding of `encoding/json`: the walkers run on tokens, the protocol on decoded metadata. Python's refusal of non-finite numbers is not modelled.
- The injectivity of JSON marshalling and the exact size at which metadata becomes oversized.
- `configured()` defaults and bounds, config loading, CLI commands, viewer settings and the release scripts: straight-line checks.
- FileHandler, file publication, Registry and the adapters that run processes: operating system semantics and thin map access.
- `net/http`, header and location rewriting, cookies and redirects in http_upstream.go: foreign calls; only the slots are modelled.
- System.Uri in the viewer: its result is a parameter, and agreement is proved where it cuts the text faithfully.
- The message texts of errors; the two RESOURCE_CHANGED messages are one. Nil and empty header lists are the same.
- Strings hold one character per byte; all text the protocol checks is ASCII.
- Budgets in the peer table are values in the map rather than pointers; they never leave the lock, so aliasing does not arise.
- Limiter.RefinesMemory: takes call times as non-decreasing in lock order; `time.Now()` is read before the lock, so real calls can arrive slightly out of order.
- Racing.RacersKeepOrder: reads are left out of that machine, since they put nothing on the wire; a failed read is a failure step.
- Fairness: progress is proved as a measure that falls with every step and a step that is always there, not as a temporal property of a scheduler.
- AcceptLoop.EverySlotOnce: what a worker does with its connection is one step there; Server and ServerLoop cover it.
