# chttp, verified models

Dafny models of the parts of chttp that carry its promises, and proofs about them:
the asynchronous HTTP client, streaming multipart uploads, deferred service calls,
download files, and the codecs between them.

## What is modelled

- **The client** (`Client*.dfy`): request slots, HTTP/1.1 connections and HTTP/2
  sessions in fixed tables, with submission, pooling, cancellation, deadlines,
  delivery, the reaper and stopping. A step is one call of the application, one
  event of a connection, of a stream or of the file runtime, or one pass of the poll
  loop; what the layers below answer is part of the step. The theorems hold in every
  state that any run reaches, and over all later states. The same handlers are proved
  in place on mutable tables.
- **Multipart and uploads** (`Multipart*.dfy`, `Upload*.dfy`): the incremental parser
  over arbitrary chunkings and the transaction built on it, for every application.
- **Service lifetime** (`ServiceLifetime.dfy`): all interleavings of handlers,
  workers and the destroyer of method records.
- **Streams and files** (`BodyStream.dfy`, `ChunkedBody.dfy`, `FileSink.dfy`,
  `Sse*.dfy`, `H2*.dfy`): bodies sent, bodies stored, events sent, responses received.
- **Codecs** (`Request*.dfy`, `Flash*.dfy`, `Form*.dfy`, `Login.dfy`, `RpcPlan.dfy`):
  each with the reader that undoes it.

One `char` is one octet. Sizes are unbounded naturals; wherever the source tests
against the largest size or a hard limit, the model makes the same test.

## What is taken from the layers below

- The pool offers only connections filed under the key asked for, and an acquisition
  succeeds exactly when the reservation callback accepts.
- Releasing a lease runs the release callback at most once, and the slot is given
  back only when the release succeeds.
- The network completes each send once, and reports nothing for a connection after
  its close.
- The file runtime reports a source ready only after a read that had to wait.
- The protocol engine's order of callbacks is not assumed: `H2Response.ShapedIffOrdered`
  says what follows from it.
- The operating system applies a completed write at the offset and from the octets
  that were submitted; a write that fails may have applied any prefix.
- The server does not run a handler of a service while admission is being closed.

## Findings

Promises of the source that do not hold as they stand, each with an input and the
exact condition under which they do:

- A slot and its connection point to each other: not after the reaper of a stopping
  client meets a close that fails (`ClientWitness.StaleLink`); exactly otherwise
  (`ClientWitness.StaleExactly`).
- A failed submission never calls back: not when the request was refused by a reused
  pooled connection and the pool then refuses the lease
  (`ClientWitness.FailedSubmitCallsBack`); exactly otherwise (`ClientRuns.FailedSubmit`).
- Destroying a service is safe: not while deferred admission is open, whatever is in
  flight (`ServiceLifetime.OpenAdmissionFaults`); exactly if it was closed first
  (`ServiceLifetime.DestroySafeExactly`).
- The response callbacks follow the message shape by themselves: not for data inside
  an open trailer block (`H2Response.TornBlockAccepted`); exactly if the engine keeps
  its order (`H2Response.ShapedIffOrdered`).
- The login page finds the target under `return_to`: not if the login path has
  a query that is no form, such as an empty one (`Login.EmptyQueryLosesTarget`), or one
  that brings another `return_to` first (`Login.OwnReturnToWins`); exactly otherwise, with
  room in the parser (`Login.ReturnToFoundExactly`).
- Flash messages without octets need no octet storage: the check before the second
  pass says so, the second pass refuses (`FlashSession.EmptyMessageRefused`); a consume
  succeeds exactly with room for the messages and, if there are any, octet storage
  (`FlashSession.PushThenConsume`).

## Model

| member | source | states |
|---|---|---|
| ClientRuns.CallbackOnce | http_client/src/chttp_client.c:424-463 | in every reachable state a handle was issued at most once and called back at most once; a recycled slot was called back exactly once; only admitted requests are called back |
| ClientHistory.CalledForever | http_client/src/chttp_client.c:435-463 | once called back, a handle has exactly one callback in every later state of every run |
| ClientHistory.RecycledForever | http_client/src/chttp_client.c:320-326 | the handle of a recycled slot resolves to nothing and is never issued again, whatever happens after |
| ClientHistory.SubmittedIsSettled | http_client/src/chttp_client.c:906-956 | a submitted request is, in every later state, live under its own handle or called back exactly once |
| ClientHistory.RunGrows | http_client/src/chttp_client.c:396-422 | no run takes back an issued, submitted, leaked, called or recycled handle, a finished exchange or a timeline entry; slot generations, session epochs and the counters never fall |
| ClientHistory.StepGrows | http_client/src/chttp_client.c:1684-1728 | the same of each single step, from any state at all |
| ClientRuns.HandleResolves | http_client/src/chttp_client.c:424-433 | a handle resolves exactly while its request is not recycled, and then to a request that was admitted under it |
| ClientRuns.TerminalWasCalled | http_client/src/chttp_client.c:906-956 | a slot that is terminal had its one callback |
| ClientRuns.WireIdsDistinct | http_client/src/chttp_client.c:1529-1559 | the wire identifiers of live RPC requests are pairwise distinct |
| ClientRuns.IdleIsClean | http_client/src/chttp_client.c:906-941 | an idle connection serves nobody, has nothing in flight, and every request whose octets it took ended in a complete keep-alive response with its whole body sent |
| ClientRuns.SessionPointsBack | http_client/src/chttp_client.c:1424-1460 | the request a connection serves is live and points to that connection, so no connection serves two |
| ClientRuns.SlotPointsBack | http_client/src/chttp_client.c:906-941 | a slot and its connection point to each other, except for a finished request of a stopping client |
| ClientRuns.RegistryPointsBack | http_client/src/chttp_h2_session.c:305-329 | an HTTP/2 session counts its registry entries, every entry is a live request that points back to its session and index, and a free session has none |
| ClientRuns.RequestIsRegistered | http_client/src/chttp_client.c:1066-1091 | a live HTTP/2 request holds exactly its registry entry until its slot is recycled, and is terminal exactly when completed |
| ClientRuns.NothingAfterDraining | http_client/src/chttp_h2_session.c:1144-1185 | in no run is a request admitted to a session after that session began to drain |
| ClientRuns.DrainingIsRecorded | http_client/src/chttp_h2_session.c:654-691 | every draining, closing or closed session has its retirement on the timeline |
| ClientRuns.H1KeysNameOrigins | http_client/src/chttp_client.c:343-381 | two live HTTP/1.1 sessions share a pool key if and only if URI, authority, TLS profile and destination agree |
| ClientRuns.H2KeysNameOrigins | http_client/src/chttp_client.c:343-381 | two live HTTP/2 sessions share a pool key only if their origins agree |
| ClientRuns.KeysNameProtocols | http_client/src/chttp_client.c:363-380 | sessions of different protocols never share a pool key |
| ClientSubmitKeeps.SubmitOrigin | http_client/src/chttp_client.c:1361-1523 | an admitted request goes to a session of exactly the protocol and origin it asked for |
| ClientRuns.StepKeeps | http_client/src/chttp_client.c:1684-1728 | every step, whatever the layers below answer and the callbacks cancel, keeps the tables, links, registries, keys and ledger consistent |
| ClientSubmitKeeps.SubmitKeeps | http_client/src/chttp_client.c:1361-1523 | a submission keeps all of it, on each of its failure paths |
| ClientSubmitKeeps.SubmitRpcKeeps | http_client/src/chttp_client.c:1529-1559 | so does an RPC submission, and the new wire identifier stays distinct |
| ClientRuns.FailedSubmit | http_client/src/chttp_client.c:1345-1359 | a failed submission calls nobody back and leaves no request behind exactly when it did not strand on a pooled connection whose lease could not be returned |
| ClientRuns.FailedSubmitRpc | http_client/src/chttp_client.c:1529-1559 | the same of an RPC submission; one whose wire identifier is taken changes nothing |
| ClientH1Keeps.DeliverKeeps | http_client/src/chttp_client.c:435-463 | a delivery, with any cancellations inside the callback, keeps links, registries, keys, traffic and ledger consistent |
| ClientH1Keeps.CancelKeeps | http_client/src/chttp_client.c:1608-1630 | a cancellation of any handle, live or stale, does |
| ClientH1Keeps.FailAndCloseKeeps | http_client/src/chttp_client.c:493-502 | failing a request and closing behind it does, whatever the pool and the network answer |
| ClientH1Keeps.CompleteResponseKeeps | http_client/src/chttp_client.c:565-581 | completing a response does, on each of its ways out |
| ClientH1Keeps.ConnectedKeeps | http_client/src/chttp_client.c:768-793 | a connection that came up does |
| ClientH1Keeps.SentKeeps | http_client/src/chttp_client.c:738-751 | a send that completed does, and the request after it |
| ClientH1Keeps.ReceiveKeeps | http_client/src/chttp_client.c:840-890 | octets for a live, finished or absent request do |
| ClientH1Keeps.ClosedKeeps | http_client/src/chttp_client.c:753-838 | a connection that closed or failed does |
| ClientH1Keeps.SourceAdvanceKeeps | http_client/src/chttp_client.c:607-724 | a step of the request body does |
| ClientH1Keeps.FileSinkReadyKeeps | http_client/src/chttp_client.c:583-605 | a file sink that became ready does |
| ClientH2Keeps.CompleteKeeps | http_client/src/chttp_client.c:1047-1054 | the completion of an HTTP/2 request does, once |
| ClientH2Keeps.FailSessionKeeps | http_client/src/chttp_h2_session.c:683-691 | failing a session with all its requests does |
| ClientH2Keeps.StreamClosedKeeps | http_client/src/chttp_h2_session.c:613-652 | a stream that closed does, noted for later or completed at once |
| ClientH2Keeps.GoawayKeeps | http_client/src/chttp_h2_session.c:654-661 | a GOAWAY does, and puts the retirement on record |
| ClientH2Keeps.ClosedH2Keeps | http_client/src/chttp_h2_session.c:739-781 | the end of an HTTP/2 connection does |
| ClientH2Keeps.BeginStopH2Keeps | http_client/src/chttp_h2_session.c:1230-1244 | so does telling a session to stop |
| ClientReapKeeps.ReapKeeps | http_client/src/chttp_client.c:906-956 | the reaper does, also when an error ends its pass |
| ClientReapKeeps.ReapH1SlotKeeps | http_client/src/chttp_client.c:906-941 | on each way a connection leaves its request: to rest, to close, or stuck |
| ClientReapKeeps.PoolProgressKeeps | http_client/src/chttp_client.c:958-990 | giving connections back to the pool and the manager does |
| ClientReapKeeps.FinishKeeps | http_client/src/chttp_client.c:1345-1359 | so does the clean-up behind a refused submission |
| ClientService.Serve | http_client/src/chttp_client.c:1684-1728 | events handled one after the other on the tables in place reach exactly the state of the state machine, and every handler leaves the client valid |
| ClientService.HandleConnection | http_client/src/chttp_client.c:738-890 | connect, send, receive and close events in place take the step of the machine and restore validity |
| ClientService.HandleProgress | http_client/src/chttp_client.c:583-605 | file-source and file-sink events and the pass over pending closes do |
| ClientService.HandleApplication | http_client/src/chttp_client.c:1608-1663 | so do a cancellation, the pass over deadlines and the start of a stop |
| ClientService.HandleReap | http_client/src/chttp_client.c:906-956 | so does the reaper, whether its pass ends early or not |
| ClientTable.Client.FindFree | http_client/src/chttp_client.c:320-326 | the loop finds the first free slot whose generation can still rise |
| ClientTable.Client.FindKey | http_client/src/chttp_client.c:343-354 | the loop finds the key of the first live session of the same origin |
| ClientTable.Client.CancelRequest | http_client/src/chttp_client.c:1608-1630 | the cancellation of a handle in place |
| ClientTable.Client.DeliverTo | http_client/src/chttp_client.c:435-463 | delivery in place, with any cancellations made inside the callback |
| ClientTable.Client.CloseSession | http_client/src/chttp_client.c:465-484 | closing a connection in place, or noting that the close is owed |
| ClientTable.Client.Fail | http_client/src/chttp_client.c:493-502 | delivery of a failure, then close or end |
| ClientTable.Client.Complete | http_client/src/chttp_client.c:565-581 | delivery of a response, then reuse, close or end |
| ClientTable.Client.OnConnected | http_client/src/chttp_client.c:768-793 | a connection that came up |
| ClientTable.Client.AdvanceSource | http_client/src/chttp_client.c:607-724 | a step of the request body, as far as the tables see it |
| ClientTable.Client.OnSent | http_client/src/chttp_client.c:738-751 | a send that completed |
| ClientTable.Client.OnReceive | http_client/src/chttp_client.c:840-890 | octets that arrived |
| ClientTable.Client.OnClosed | http_client/src/chttp_client.c:753-838 | a connection that closed or failed |
| ClientTable.Client.RetryAllCloses | http_client/src/chttp_client.c:892-904 | the loop over closes still owed |
| ClientTable.Client.ReapAll | http_client/src/chttp_client.c:906-956 | the loop over finished requests, ended by the first error |
| ClientTable.Client.ExpireAll | http_client/src/chttp_client.c:1635-1663 | the loop over RPC deadlines |
| ClientWitness.StaleLink | http_client/src/chttp_client.c:918-930 | a run after which a slot points to a connection that does not point back |
| ClientWitness.StaleExactly | http_client/src/chttp_client.c:906-941 | for every reaped slot: the link is broken if and only if the client is stopping, the connection is active, and its close fails with an error other than lack of buffers |
| ClientWitness.FailedSubmitCallsBack | http_client/src/chttp_client.c:1345-1359 | a run in which a submission returns an error and its request is called back all the same |
| Multipart.ChunkingIrrelevant | app/src/chttp_web_multipart.c:770-879 | two chunkings of a body within the total limit give the same verdict and, on success, the same final state, for every data callback that treats a text like its pieces |
| Multipart.FeedLoopIsFold | app/src/chttp_web_multipart.c:770-879 | the loop that skips runs and replays pending octets computes the octet-by-octet fold |
| MultipartRoundTrip.FirstDelimiterFound | app/src/chttp_web_multipart.c:838-874 | dropping the pending octets on a mismatch still stops at the first CRLF--boundary, with exactly the octets before it delivered |
| MultipartRoundTrip.RoundTripExactly | app/src/chttp_web_multipart.c:770-896 | every chunking of a printed body reads back as exactly its parts if and only if no part holds the delimiter |
| MultipartRoundTrip.RoundTrip | app/src/chttp_web_multipart.c:510-666 | printed header blocks, data and delimiters are parsed back to the parts, within the limits |
| MultipartPrint.HeaderUndoesPrint | app/src/chttp_web_multipart.c:510-666 | the header parser gives back name, file name and content type of a printed block |
| MultipartPrint.ParameterUndoesQuote | app/src/chttp_web_multipart.c:133-194 | reading a quoted parameter undoes quoting |
| MultipartParser.Parser.Feed | app/src/chttp_web_multipart.c:770-879 | the parser object in place, with its limit check and termination measure, computes the chunk loop |
| MultipartParser.Parser.Finish | app/src/chttp_web_multipart.c:881-896 | finishing succeeds exactly after the closing delimiter |
| MultipartParser.Open | app/src/chttp_web_multipart.c:337-366 | a parser exactly for valid limits and an acceptable Content-Type |
| MultipartSim.ChunksSim | app/src/chttp_web_multipart.c:384-405 | two parsers whose callbacks simulate each other accept alike and end in related states, until something bad has happened |
| Upload.EveryRunIsShaped | app/src/chttp_web_upload.c:160-416 | whatever arrives and whatever the application answers, its calls are begin, nested parts, then one accepted commit or one abort, and the stage says where they stand |
| UploadDelivery.OneTerminal | app/src/chttp_web_upload.c:63-81 | a legal trace tries commit at most once, aborts at most once, and never ends both ways |
| UploadDelivery.CommitNeedsEveryGate | app/src/chttp_web_upload.c:306-382 | commit is tried only by a finalizer after the closing delimiter, with the CSRF token and the validation passed |
| UploadDelivery.DeliversWhatIsParsed | app/src/chttp_web_upload.c:83-146 | an upload that reaches its finalizer has handed over exactly the parts the parser found except the CSRF part, whose data is the token |
| UploadDelivery.DeliversAllButCsrf | app/src/chttp_web_upload.c:83-146 | so of a printed body exactly its parts |
| UploadDelivery.FinalizerReachedExactly | app/src/chttp_web_upload.c:83-146 | no body reaches the finalizer unless it parses and has at most one CSRF part, without file name and of at most 64 octets; if the application accepts everything, all of those do |
| UploadRequest.UploadSlot.Open | app/src/chttp_web_upload.c:182-246 | opening in place, each refusal with its status |
| UploadRequest.UploadSlot.SinkWrite | app/src/chttp_web_upload.c:160-180 | a write in place is the transaction step, with the status the transport sees |
| UploadRequest.UploadSlot.Close | app/src/chttp_web_upload.c:248-290 | the end of the body in place |
| UploadRequest.UploadSlot.Finalize | app/src/chttp_web_upload.c:306-382 | the finalizer in place |
| UploadRequest.UploadSlot.RequestAbort | app/src/chttp_web_upload.c:384-401 | an abort asked for by the caller |
| UploadRequest.UploadSlot.Reset | app/src/chttp_web_upload.c:403-416 | reset is refused before the terminal outcome |
| ServiceLifetime.NoUseAfterFree | app/src/chttp_service.c:1147-1194 | with admission closed before destruction, no interleaving of handlers, workers, cancellation and destroyer touches a freed record, and each record counts exactly the invocations that hold it |
| ServiceLifetime.ScanIsSound | app/src/chttp_service.c:1917-1943 | reading the counts one after the other suffices: behind the scan no invocation is left that can reach a record |
| ServiceLifetime.OpenAdmissionFaults | app/src/chttp_service.c:1489-1583 | the condition is needed: from every state that still admits, whatever is in flight, some continuation of a destruction touches a freed record |
| ServiceLifetime.DestroySafeExactly | app/src/chttp_service.c:1917-1943 | wherever a service gets, a destruction begun there is safe under every continuation if and only if admission is closed |
| ServiceLifetime.FinalizedOnce | app/src/chttp_service.c:1179-1194 | in every such run an invocation is finalized at most once, and once exactly when it is gone |
| FileSink.History | http_client/src/chttp_file_sink.c:55-216 | over any events, short writes and answers: the transfer in place follows the value model, the file is a prefix of the data of the appends that succeeded, and all of it at every event that reports ready |
| FileSink.AcceptedIsAppended | http_client/src/chttp_file_sink.c:137-155 | what is accepted is the concatenation of the appends that succeeded, alone or inside a write |
| FileSink.ReadyMeansWritten | http_client/src/chttp_file_sink.c:177-216 | ready means everything is written and nothing in flight; after a flush it means durable |
| FileSink.FailureIsFinal | http_client/src/chttp_file_sink.c:55-97 | the first failure stays, accepts no more data and never reports ready |
| FileSink.Transfer.Append | http_client/src/chttp_file_sink.c:137-155 | append in place: all of the data, or a failed transfer |
| FileSink.Transfer.Advance | http_client/src/chttp_file_sink.c:157-186 | submitting what is left, at the offset where the file ends |
| FileSink.Transfer.Write | http_client/src/chttp_file_sink.c:188-193 | an append and, only behind one that succeeded, an advance |
| FileSink.Transfer.Flush | http_client/src/chttp_file_sink.c:195-216 | a flush only behind the last write |
| FileSink.Transfer.Complete | http_client/src/chttp_file_sink.c:55-97 | a completion lands its octets once, at their own offset, or fails the transfer |
| BodyStream.CompletedBody | http_client/src/chttp_client.c:607-724 | a body that completes is received as exactly what the source produced, through the chunked decoder of section 7.1 of RFC 9112 or at its declared length |
| BodyStream.RunTakesEveryRead | http_client/src/chttp_client.c:607-724 | over any reads and send answers nothing is dropped, repeated or reordered, and the body ends only at a read that produced nothing |
| BodyStream.IncompleteBody | http_client/src/chttp_client.c:677-694 | before its final chunk a body of unknown length does not decode |
| BodyStream.SendBody | http_client/src/chttp_client.c:526-563 | the stream in place over any run is that run, and on completion its octets decode to what was read |
| BodyStream.Stream.Advance | http_client/src/chttp_client.c:607-724 | one advance in place: which piece is accepted, and exactly when the body fails, ends or is complete |
| ChunkedBody.DecodeUndoesFrames | http_client/src/chttp_client.c:700-724 | decoding the chunks of any non-empty pieces and the final chunk gives their concatenation |
| ChunkedBody.FrameChunk | http_client/src/chttp_client.c:700-724 | framing in place never overwrites the payload, and the size always fits its reserved prefix |
| H2Response.DeliveredExactly | http_client/src/chttp_h2_session.c:387-524 | every accepted run, wherever it stops, holds exactly the regular fields no informational block carried, in order, all of the data, and the status of its final block |
| H2Response.MessageDelivered | http_client/src/chttp_h2_session.c:483-524 | a message delivers its final block, whether or not that ends the stream, then its trailers, and nothing of its informational blocks |
| H2Response.ResponseSound | http_client/src/chttp_h2_session.c:399-481 | list size, storage use, limits and content length are those of the fields held, in every accepted run |
| H2Response.StorageNeverRunsOut | http_client/src/chttp_h2_session.c:246-290 | a field that passes the list limits always fits the text storage |
| H2Response.SuccessMeetsLength | http_client/src/chttp_h2_session.c:613-652 | success implies the content-length rule of section 8.1.1 of RFC 9113 |
| H2Response.ShapedIffOrdered | http_client/src/chttp_h2_session.c:387-524 | an accepted run has the message shape of section 8.1 of RFC 9113 exactly when the engine kept blocks whole and ended once |
| H2Response.TornBlockAccepted | http_client/src/chttp_h2_session.c:526-545 | the callbacks alone do not enforce it: data inside an open trailer block is accepted |
| H2Callbacks.Receive | http_client/src/chttp_h2_session.c:387-545 | the callbacks in place accept exactly the accepted runs, and every delivered header reads back, up to its terminator, as the field that arrived |
| H2Callbacks.Callbacks.OneHeader | http_client/src/chttp_h2_session.c:399-481 | one header in place, its storage test never failing |
| H2Callbacks.HeaderText.Add | http_client/src/chttp_h2_session.c:467-481 | copying a field leaves the earlier ones readable where they are |
| Sse.EventReadsBack | app/src/chttp_web_sse.c:136-158 | a formatted event reaches the reader of sections 9.2.5 and 9.2.6 of the HTML Living Standard as written, dispatched exactly when it has data |
| Sse.StreamReadsBack | app/src/chttp_web_sse.c:136-158 | a stream of events reads back event by event |
| Sse.JoinedIsNormalised | app/src/chttp_web_sse.c:104-134 | the data lines joined are the data with its line breaks normalised |
| SseWriter.FormatEvent | app/src/chttp_web_sse.c:160-194 | the measuring pass decides, the writing pass then cannot fail and writes what was measured |
| SseWriter.Writer.AppendData | app/src/chttp_web_sse.c:104-134 | the loop over line breaks writes one data line for each |
| SseWriter.Stream.Read | app/src/chttp_web_sse.c:221-267 | octets read and octets buffered are together the events taken, and a read reports the end only when nothing is missing |
| SseWriter.ReadAll | app/src/chttp_web_sse.c:221-267 | reads of any sizes give a prefix of the formatted events, and enough reads give all of it exactly when no answer of the application breaks the stream |
| Decimals.ValueOfShow | http_client/src/chttp_request.c:203-206 | a printed decimal reads back as the number |
| RequestText.RequestReadsBack | http_client/src/chttp_request.c:143-282 | an admitted request is read back by section 3 of RFC 9112: method, target, Host, the one framing field, the headers in order, then exactly the body |
| RequestText.FramingReadsBack | http_client/src/chttp_request.c:46-75 | the headers of the caller cannot change how the message is framed |
| RequestText.SizeIsExact | http_client/src/chttp_request.c:130-136 | the size pass is the length of what the write pass produces |
| RequestBuild.Build | http_client/src/chttp_request.c:143-282 | the status of the first check that fails, or a buffer filled exactly with the request |
| RequestBuild.Write | http_client/src/chttp_request.c:254-279 | no copy of the write pass leaves the buffer |
| RequestBuild.MeasureHeaders | http_client/src/chttp_request.c:224-236 | the loop that validates and adds up the headers |
| FlashSession.PushThenConsume | app/src/chttp_web_session.c:343-466 | any pushes onto a fresh session and one consume give the accepted messages in order and an empty session, exactly when the storage has room |
| Flash.PushesAppend | app/src/chttp_web_session.c:343-419 | whatever is stored, any pushes append exactly the accepted messages |
| Flash.PushAppends | app/src/chttp_web_session.c:343-419 | an accepted push appends its message, also behind a payload this code did not write |
| Flash.PushSucceedsExactly | app/src/chttp_web_session.c:366-404 | when a push succeeds; the length buffer is never the reason it does not |
| FlashSession.Scan | app/src/chttp_web_session.c:255-341 | the measuring and the storing pass count the same messages and octets, and the storing pass lays out exactly the queue |
| FlashSession.EmptyMessageRefused | app/src/chttp_web_session.c:304-313 | a message without octets is pushed, needs no octets by the measuring pass, and is refused by the storing pass when no octet storage is given |
| FlashSession.ParseSize | app/src/chttp_web_session.c:230-253 | the loop reads a decimal number exactly when it is one and fits a size |
| FlashSession.Session.Push | app/src/chttp_web_session.c:343-419 | a push in place with the status of its first failing check; a failed one changes nothing |
| FlashSession.Session.Consume | app/src/chttp_web_session.c:421-466 | the whole queue and then nothing stored, or no message and the session as it was; octet storage must exist for any message, even an empty one |
| Login.ReturnToRecovered | app/src/chttp_web_auth.c:243-306 | the query of the destination is a form exactly when the login path has no query or one that is itself a non-empty form, and there is room; then the target is its last pair |
| Login.ReturnToFoundExactly | app/src/chttp_web_auth.c:243-306 | looking up the first return_to of the destination gives the target exactly when the login path moreover brings no return_to or the same one first; there is exactly one if and only if it brings none |
| Login.EmptyQueryLosesTarget | app/src/chttp_web_auth.c:289-290 | an accepted login path that ends in a question mark loses every target |
| Login.OwnReturnToWins | app/src/chttp_web_auth.c:289-290 | an accepted login path with its own return_to hides every other target |
| Login.AcceptedTargets | app/src/chttp_web_auth.c:127-188 | the one-pass check accepts exactly the targets whose decoded octets are a path of this origin without control characters, backslash or number sign |
| Login.EncodeReadsBack | app/src/chttp_web_auth.c:294-304 | decoding the encoded target gives it back, whatever its octets |
| Login.LoginDestination | app/src/chttp_web_auth.c:243-306 | behind the divided capacity check the destination and its terminator always fit |
| Login.HardMaximumSuffices | app/src/chttp_web_auth.c:213-217 | the storage of the redirect fits every accepted target |
| Login.ValidateTarget | app/src/chttp_web_auth.c:127-188 | the scan loop |
| Form.JoinedForms | app/src/chttp_web_form.c:72-148 | two forms joined by an ampersand parse exactly when both do, the second in the room the first leaves, and then to the pairs of both |
| FormParser.ParseForm | app/src/chttp_web_form.c:72-148 | the parser in place: every pair in order in the storage of the caller, or the status of the first failure |
| Form.CountedIsFound | app/src/chttp_web_form.c:160-182 | an occurrence of a name is found exactly when it is below the count |
| Form.PairAdded | app/src/chttp_web_form.c:160-182 | one more pair is one more occurrence of its name, found behind the others |
| FormParser.CountNamed | app/src/chttp_web_form.c:160-169 | the counting loop |
| FormParser.FindNamed | app/src/chttp_web_form.c:171-182 | the lookup loop, for any occurrence |
| FormParser.DecodeInto | app/src/chttp_web_form.c:29-70 | decoding a component into shared storage, never past its limit |
| RpcPlan.OrdinalsArePermutation | http_client/rpc/chttp_client_rpc_service.c:359-408 | an admitted positional plan has exactly one parameter for every position |
| RpcPlan.LookupIsTotal | http_client/rpc/chttp_client_rpc_service.c:162-177 | so every position is found, and the right one |
| RpcPlan.EncodesExactlyGapless | http_client/rpc/chttp_client_rpc_service.c:224-265 | encoding succeeds exactly when absent parameters come last; an interior gap is refused |
| RpcPlan.EveryValueAtItsPosition | http_client/rpc/chttp_client_rpc_service.c:224-265 | every parameter that is there is sent at its own position |
| RpcPlan.KeysDistinct | http_client/rpc/chttp_client_rpc_service.c:192-222 | an admitted plan by name never repeats a key |
| RpcPlan.MemberFor | http_client/rpc/chttp_client_rpc_service.c:192-222 | every parameter that is there becomes a member under its name |
| RpcPlan.OnlyFlagsRefuse | http_client/rpc/chttp_client_rpc_service.c:57-106 | for an admitted plan only contradictory flags are refused, no access is out of range |
| RpcPlan.Admit | http_client/rpc/chttp_client_rpc_service.c:359-440 | the admission loops: status of the first failure, and the mode |
| RpcPlan.WriteArray | http_client/rpc/chttp_client_rpc_service.c:224-265 | the array branch of the encoder |
| RpcPlan.WriteObject | http_client/rpc/chttp_client_rpc_service.c:192-222 | the object branch of the encoder |

## Left out

- The network, pool, connection manager, TLS, file runtime, HTTP/2 framing and header
  compression, HTTP/1.1 response parsing, typed data binding and templates: their
  answers are parameters of the steps.
- ClientService.Serve: submission, the HTTP/2 events and returning connections to the
  pool are steps on values, not handlers in place; so update in place is not captured
  for them.
- ClientRuns.StepKeeps: a callback may cancel requests but not submit new ones from
  inside, and body sources and sinks do not call back into the client.
- ClientRuns.CallbackOnce: counts callbacks; the outcome and status values delivered,
  and the deadline outcome of an RPC call, are not modelled.
- ClientTable.Client.AdvanceSource: sees only whether the source waits, fails, ends or
  sends; the octets are in BodyStream.
- BodyStream.Stream.Advance: a read is a whole value; that the source writes at most
  its capacity into the buffer is its own contract.
- Allocation failure everywhere, destruction of the client, and the wrap-around of the
  file runtime's lease counter.
- UploadRequest.UploadSlot.Open: the application's callbacks cannot call back into
  the upload.
- MultipartPrint.HeaderUndoesPrint: the scans over a header block are recursive
  functions where the source has loops; the quoted-parameter reader is claimed to undo
  quoting, not to accept only well-formed quotes, as the source tests just the last octet.
- RequestText.RequestReadsBack: character tests over a text are predicates where the
  source has loops, and optional whitespace around a field value is not trimmed.
- Sse.EventReadsBack: validity of UTF-8 is not modelled; the reader works on octets.
- SseWriter.Stream.Read: an answer that breaks the stream is not consumed, as the
  reader gives up at the first failing read.
- RpcPlan.WriteArray: a token sink that fails and the encoding of a scalar are
  parameters; responses and the error table of a plan are not modelled.
- Login.LoginDestination: the redirect response around it is not modelled.
- ServiceLifetime.NoUseAfterFree: memory order is sequential consistency.
- Sessions, cookies, security headers, validation tables, static assets, JWT and the
  WebSocket client: they would add easy members only.
