# Cherokee file server: a verified model

Cherokee is a reactor file server: a main thread waits in epoll, turns reports
into events and appends them to a thread pool; the workers run the handlers that
parse requests, store uploads and send lists, downloads and redirects. This
project models its three protocols in Dafny and proves what holds of them over
every input, every chunking, every schedule and every interleaving.

The code works by updating shared state step by step, and so does the model: the
static maps, the request and response objects, the pool and the dispatch loop are
classes whose methods follow the branches of the original. Each method is proved
equal to a function on values, and the lemmas are about these functions.

| file | models |
|---|---|
| `Bytes.dfy` | `find`, `substr`, stream extraction, `stoll`, `to_string` |
| `Message.dfy` | requests and responses, the header parser |
| `Scanner.dfy`, `Upload.dfy` | the streaming search for the closing delimiter, and its effect on file and buffer |
| `RequestMachine.dfy` | the receiver as a transition function |
| `HandleRecv.dfy` | `HandleRecv::process` and the maps it updates, in place |
| `ResponseMachine.dfy` | routing, response heads, the resumable send |
| `HandleSend.dfy` | `HandleSend::process`, in place |
| `Connection.dfy` | one run of either handler, as a function on one connection |
| `Chunking.dfy` | many receive runs: when the chunks matter and when not |
| `Naming.dfy`, `Faults.dfy` | which requests crash the send handler, which streams the receive handler |
| `RequestText.dfy`, `ResponseText.dfy` | lines, words, numbers, names and heads by their bytes |
| `Branches.dfy`, `ExactSends.dfy` | receive and send runs to the byte, branch by branch |
| `RoundTrip.dfy`, `WholeRequests.dfy`, `Framing.dfy` | printing and reading back: header blocks, uploads, Content-Length |
| `KeepAlive.dfy`, `PutRequest.dfy` | many exchanges on one connection; what is different about PUT |
| `ThreadPool.dfy` | mutex, semaphore and queue as a transition system with program counters |
| `Server.dfy`, `Dispatch.dfy` | epoll, main thread, pool and handlers together |
| `Crashes.dfy`, `LostConnections.dfy` | when the server goes down, when a connection is stranded |
| `Isolation.dfy`, `Sequential.dfy`, `Clients.dfy` | one connection among others, against a server of its own |

How the pieces are read:

- Characters stand for bytes. Lengths and counters are unbounded, except where the
  original's width decides something: `stoll` rejects what does not fit 64 bits, and
  the last index of an empty file wraps around to 2^64 - 1.
- Undefined behaviour and uncaught exceptions are outcomes of the model (`Fault`,
  `Crashed`, `Malformed`), not preconditions: an empty header key, a Content-Type
  parameter cut short, a boundary that is missing, a file name without closing
  quote, an empty resource.
- `recv`, `send`, `sendfile` and opening the upload file are lists of results that
  the world chooses: data, EAGAIN, end of stream, other errors, short counts.
- The receiver's smallest move is one line or one byte of content. The loops of
  the original make many such moves at once, and differently for different chunks;
  that each move is decided by bytes that have arrived is what makes the outcome
  the same.
- A handler run is one atomic step of the server; the steps of the pool, the main
  thread and epoll interleave freely with each other and with handler runs.

Where the code does something other than its shape or its comments suggest, the
model follows the code:

- After a response is complete, line 454 looks the entry up again and re-creates
  a default one. It is harmless for the matching of replies to requests
  (`KeepAlive.KeepAliveMatching`), but the entry is present and not absent.
- A hard send error marks the request entry (369, 393, 412), so the branch that
  closes the connection at 443 is never taken (`Crashes.SendNeverCloses`); the
  receiver closes the connection at its next run (`Connection.FailedRequestCloses`).
- The download head passes the last index of the file where the redirect location
  is expected (304): a download carries a `Location` line and no `Content-Range`.
- A PUT is answered in every receive run that reads something once its head is
  complete, and is never completed. It stores what has been read when a send run
  routes it (`PutRequest.PutStoresWhatWasRead`); later bytes, once received, are
  appended to the buffer, which is stored and answered again (`PutRequest.PutAgain`).
- An upload whose content holds its own terminator is cut there;
  `WholeRequests.UploadRoundTrip` gives the exact condition.
- Bytes behind a completed request are dropped if the same `recv` call returned
  them and are read as a new request otherwise, so chunk independence holds exactly
  for streams of which no proper prefix answers a request, that is, completes it or
  ends the head of a PUT (`Chunking.IndependentIff`).
- A `boundary` parameter that follows its semicolon without a space loses its first
  byte, so that no boundary is known (`Branches.TightBoundaryCrashes`).
- A request line without a resource is accepted, and the send handler crashes on it
  (`Naming.EmptyResourceCrashes`).
- When the upload file does not open, the handler leaves its connection open and
  disarmed (175). This and a report with neither EPOLLIN nor EPOLLOUT are the only
  ways in which an open connection loses its token (`LostConnections.TokenKeptIff`),
  and nothing wakes it again (`LostConnections.StrandedForever`).
- A header line without a key, an upload without a boundary and a file name without
  its closing quote crash the receive handler (`Faults.RecvCrashIff` and the inputs
  beside it).

`dafny verify dfyconfig.toml` checks the project.

## Model

| member | source | states |
|---|---|---|
| `Scanner.ScanFindsFirst` | event/myevent.cpp:178-210 | The streaming search refines a plain search: it stops on a terminator exactly when the whole stream holds one, and what it has kept by then is the stream up to the first occurrence, for any content including bare carriage returns and near-matches |
| `Scanner.HoldBackClosedForm` | event/myevent.cpp:178-210 | Closed form of the hold-back: as long as the terminator has not fully arrived, the file holds the stream up to the first carriage return among its last boundary length + 7 bytes (all of it if there is none); what is pending is empty or starts with a carriage return and is shorter than the terminator |
| `Scanner.ScanRun` | event/myevent.cpp:195-209 | Flushing a whole run of decided bytes at once leaves the search where taking them one by one leaves it, so the different run lengths of the branches do not matter |
| `Scanner.ScanStepAppend` | event/myevent.cpp:183-207 | A byte that the bytes at hand decide is decided the same way when more bytes follow |
| `Scanner.TerminatorBorder` | event/myevent.cpp:186-188 | A terminator whose boundary holds no carriage return overlaps itself only in its two-byte CRLF border |
| `Scanner.TerminatorText` | event/myevent.cpp:188 | The terminator is CRLF, two dashes, the boundary, two dashes, CRLF (section 5.1.1 of RFC 2046) |
| `Scanner.SurvivesIff` | event/myevent.cpp:186-193 | Content followed by its terminator is recovered whole if and only if the content followed by CRLF does not hold the terminator |
| `Upload.SettleRun` | event/myevent.cpp:208-209 | Writing a run of decided bytes to the file and erasing it from the buffer in one go is as good as doing so byte by byte |
| `Upload.SettleContent` | event/myevent.cpp:178-220 | Where the content phase settles: the file has gained the bytes before the first terminator, or before the held-back tail, and the request is complete with the redirect target exactly when the terminator has arrived |
| `Upload.ContentOverChunks` | event/myevent.cpp:171-220 | Over any number of handler runs and recv calls: while the body bytes received do not hold the bytes of the closing delimiter the file has gained them up to the hold-back point of the closed form and the rest is pending; when they end with their first one the request is answered and the file has gained exactly the bytes before it |
| `Upload.OpeningCreates` | event/myevent.cpp:171-172 | Opening in append mode creates the file before any byte of content has arrived |
| `RequestMachine.Step` | event/myevent.cpp:67-238 | No move of the receiver goes back to an earlier stage, and a move within a stage takes bytes off the front of the buffer; this is the measure on which every loop of the receiver ends |
| `RequestMachine.Settle` | event/myevent.cpp:65-239 | After one iteration of the receive loop no stage can advance without more input, and the request has not gone back |
| `RequestMachine.SettleConsumes` | event/myevent.cpp:65-239 | What is pending is a suffix of what was pending before: consumed bytes followed by pending bytes are the received bytes |
| `RequestMachine.StepAppend` | event/myevent.cpp:67-238 | A move that the bytes at hand allow is the same move when more bytes follow |
| `RequestMachine.SettleAppend` | event/myevent.cpp:65-239 | Settling early and receiving the rest later ends where settling once on everything ends, faults included |
| `Chunking.LoopReads` | event/myevent.cpp:46-239 | For any results of the recv calls, with the upload file opening or not, the loop ends in the state in which the machine settles on the bytes it has read, faults included; it leaves bytes unread only when it has answered or the file does not open |
| `Chunking.LoopCrashIff` | event/myevent.cpp:46-239 | A run crashes exactly when the machine faults on the bytes on offer |
| `Chunking.UnopenedReadsOneCall` | event/myevent.cpp:172-176 | When the upload file does not open, the run ends behind its first call, so what is pending depends on the cut |
| `Chunking.LoopSettles` | event/myevent.cpp:46-239 | A run on a healthy socket does what settling once on all its bytes does, but for the bytes left unread behind an answer |
| `Chunking.ChunkIndependence` | event/myevent.cpp:39-251 | Over any number of handler runs and recv calls: while a stream leaves the request incomplete the connection holds the same status, file status, headers, file name and pending bytes, and the directory the same files, however it was cut; a stream on which the machine faults crashes the server; one that answers the request with its last byte (completes it, or ends the head of a PUT) arms the connection with the same target, entry and files |
| `Chunking.EarlyEndMatters` | event/myevent.cpp:241-243 | If a proper prefix completes the request, the outcome does depend on the cut: with the last byte in a run of its own that byte opens a new request and disarms the answer, in one piece it is dropped |
| `Chunking.EarlyPutMatters` | event/myevent.cpp:230-237 | If a proper prefix ends the head of a PUT, the outcome depends on the cut too: with the last byte in a call of its own the run ends before it reads that byte |
| `Chunking.IndependentIff` | event/myevent.cpp:39-251 | The exact condition, for every stream and every method: the state a stream leaves is the same for every cut if and only if no proper prefix of it answers the request |
| `RequestMachine.SettleKeepsValid` | event/myevent.cpp:80-239 | The upload phases are only ever entered behind the header block and with a boundary known, so the lookups of the boundary in the content loop cannot throw |
| `Message.Request.SetRequestLine` | message/message.h:58-61 | The request holds the three words of the line (a missing word reads as empty) and is otherwise unchanged |
| `Message.Request.AddHeaderOpt` | message/message.h:63-91 | The whole request after one header line equals its specification, and the method fails exactly where the original throws or pops from an empty key |
| `Message.Request.AddContentType` | message/message.h:78-87 | The type and its parameter are stored as RequestText.TypeByPosition says, and the method fails exactly when substr throws |
| `RequestText.TypeByPosition` | message/message.h:78-87 | For every value with a semicolon, by positions: the type stands before it, the name begins two bytes behind it whatever the byte between is and ends at the equals sign, the parameter stands behind that; with the sign directly behind the semicolon, without a sign, and with nothing behind the semicolon |
| `RequestText.StoredAsIs` | message/message.h:85-90 | A type without a semicolon, and every other key, is stored as it is |
| `RequestText.LineOfThree` | message/message.h:58-61 | A request line with any blanks around and between three words reads as them |
| `RequestText.LineOfTwo` | message/message.h:58-61 | With two words the version reads as empty |
| `RequestText.LineOfOne` | message/message.h:58-61 | With one word only the method is read, with none nothing |
| `RequestText.SpaceIsBlank` | event/myevent.cpp:3-12 | White space is the blank and the bytes 9 to 13 |
| `RequestText.LineOfHeader` | message/message.h:63-74 | For every header line: the key is the first word without its last byte, whatever that is, the value what stands behind the one byte that follows, up to the line feed and without a trailing carriage return |
| `RequestText.NumberText` | message/message.h:76-77 | stoll by bytes: blanks, at most one sign, digits, anything behind; the number if it fits 64 bits, else an exception |
| `RequestText.SizeText` | event/myevent.cpp:283 | A printed size is digits without a leading zero |
| `RequestText.NameByPosition` | event/myevent.cpp:156-162 | The file name begins ten bytes behind the start of filename and ends at the next quote; it is appended to what was read before, and white space is dropped from the whole |
| `RequestText.SpacesDropped` | event/myevent.cpp:4-12 | Blanks are dropped from a name and everything else stays |
| `Message.RemoveSpaces` | event/myevent.cpp:4-12 | The loop yields the characters of the name that are not white space, in order |
| `Bytes.WithoutSpacesKeeps` | event/myevent.cpp:4-12 | A file name without white space is stored as it is |
| `HandleRecv.ParseRequestLine` | event/myevent.cpp:69-78 | Running the request-line stage does not change where the machine settles, and afterwards this stage cannot advance |
| `HandleRecv.ParseHeaderLine` | event/myevent.cpp:84-105 | One turn of the header loop: no line, the empty line (entering the body), a stored field or a malformed one, with the whole request after each |
| `HandleRecv.ParseHeaders` | event/myevent.cpp:80-107 | The header loop does not change where the machine settles; it reports a fault exactly as the machine does, and afterwards this stage cannot advance |
| `HandleRecv.ParseBeginFlag` | event/myevent.cpp:122-141 | The opening delimiter stage keeps the settled outcome in all its branches: not yet there, matched, not matched (redirect), no boundary (fault) |
| `HandleRecv.ReadFileName` | event/myevent.cpp:156-164 | The character loop and the removal of spaces compute the file name the specification cuts from the line; failure exactly when the closing quote is missing |
| `HandleRecv.ParseFileHead` | event/myevent.cpp:143-169 | The part-header loop keeps the settled outcome, and afterwards this stage cannot advance |
| `HandleRecv.ChooseRun` | event/myevent.cpp:179-207 | One turn of the content loop as written: it stops exactly when CRLF, two dashes, the boundary, two dashes, CRLF stand at the front, blocks exactly when the search waits, and otherwise picks a non-empty run of bytes every one of which is decided to be content |
| `HandleRecv.SaveContent` | event/myevent.cpp:178-210 | The content loop, appending to the file and erasing from the buffer in place, ends, and keeps the settled outcome |
| `HandleRecv.OpenAndSave` | event/myevent.cpp:171-212 | The content stage with its opening in append mode; when the file does not open nothing changes and the handler stops |
| `HandleRecv.ParseMultipart` | event/myevent.cpp:120-220 | The four multipart stages in order reach exactly the settled machine, a redirect, a fault or the unopened file |
| `HandleRecv.ParseBody` | event/myevent.cpp:109-238 | GET, POST and PUT branches reach the settled machine; target, response entry and re-arming are set exactly when the request is answered |
| `HandleRecv.Consume` | event/myevent.cpp:65-238 | Appending a chunk and running the stages in place reaches exactly the state in which the specification settles on the longer buffer |
| `HandleRecv.ReceiveLoop` | event/myevent.cpp:46-239 | The loop around recv computes the specification of the whole loop for any results of the calls: data, EAGAIN, end of stream, error |
| `HandleRecv.Process` | event/myevent.cpp:39-251 | HandleRecv::process does to the entries of its connection, the files and the epoll interest exactly what the value model says, and leaves every entry of other connections as it was |
| `HandleRecv.Conclude` | event/myevent.cpp:241-250 | A completed request is erased, a failed one is erased and its socket leaves epoll; nothing else changes |
| `Faults.BadFieldIff` | message/message.h:63-91 | A header line throws exactly when it has no key, its Content-Length is no number that fits, or its Content-Type ends at its first semicolon |
| `Faults.UnquotedIff` | event/myevent.cpp:156-161 | A part header line is read past its end exactly when it names a file and has no quote behind the opening one |
| `Faults.PartLine` | event/myevent.cpp:146-164 | One line of a part header: the empty one enters the content phase, an unclosed name faults, any other continues the file name with what it names |
| `Faults.HeadBlock` | event/myevent.cpp:80-107 | A header block faults on a bad line, and otherwise stores all its fields and enters the body once the empty line has arrived |
| `Faults.BodyFaultIff` | event/myevent.cpp:109-220 | The body phase faults exactly when an upload has no boundary, or its opening line is the delimiter and a complete line of the part header does not close a file name |
| `Faults.StreamFaultIff` | event/myevent.cpp:65-239 | The machine faults on exactly the streams that the line-by-line description calls bad |
| `Faults.RecvCrashIff` | event/myevent.cpp:39-251 | On a connection without a request, a receive handler crashes if and only if the bytes on offer are a bad stream |
| `Faults.RecvAllCrashIff` | event/myevent.cpp:39-251 | The same over any number of runs, for streams of which no proper prefix answers a request |
| `Faults.EmptyKeyCrashes` | message/message.h:67-68 | The input: a header line of white space has no key and crashes the receive run |
| `Faults.NoBoundaryCrashes` | event/myevent.cpp:129 | The inputs: a multipart POST that declares no boundary crashes with the first complete line of its body |
| `Faults.BareMultipartCrashes` | event/myevent.cpp:129 | The simplest of them, with one field and a body of one line |
| `Faults.UnclosedNameCrashes` | event/myevent.cpp:156-161 | The inputs: an upload whose part header names a file and does not close the quote |
| `Branches.TightBoundaryCrashes` | message/message.h:83 | The inputs, in bytes: a multipart POST whose boundary parameter follows its semicolon without a space stores no boundary and crashes with its first body line |
| `Branches.WrongDelimiterRedirects` | event/myevent.cpp:133-138 | An upload whose first body line is not the opening delimiter is answered with the redirect and stores nothing |
| `Branches.PlainPostRedirects` | event/myevent.cpp:221-227 | A POST that is no multipart form is answered with the redirect as soon as its head is complete |
| `Branches.OtherMethodWaits` | event/myevent.cpp:109-238 | A method other than GET, POST and PUT is never answered; what follows its head stays pending |
| `Branches.RunEnds` | event/myevent.cpp:49-63 | A receive run that does not answer: EAGAIN keeps the request and arms for reading only; end of stream and every other error drop the request and close the connection, and leave the response entry |
| `ResponseMachine.SplitPrinted` | event/myevent.cpp:264-277 | A target /op/name splits back into (op, name) if and only if op holds no slash and name is not empty |
| `ResponseText.TargetOfTwo` | event/myevent.cpp:267-273 | The same whatever the first byte of the target is |
| `ResponseText.TargetOfOne` | event/myevent.cpp:271-276 | A target without a second slash, or with nothing behind it, is redirected |
| `ResponseText.HeadTexts` | event/myevent.cpp:459-466 | The four heads of the server, spelled out to the byte |
| `ResponseText.RepliesText` | event/myevent.cpp:279-348 | What the list, a file, a missing file, a deletion and a PUT are owed, spelled out to the byte, with the directory behind each |
| `ResponseText.OthersRedirect` | event/myevent.cpp:350-357 | Every other operation and every target without a name is owed the redirect |
| `ResponseMachine.RoutingTerminates` | event/myevent.cpp:262-360 | Routing faults exactly on the empty target; every other target reaches a response after at most one re-route |
| `ResponseMachine.RouteSendable` | event/myevent.cpp:279-359 | Routing hands the send loop consistent lengths and a cursor at the start of the head |
| `ResponseMachine.Count` | event/myevent.cpp:365-380 | A call that reports n bytes, of what it was offered, moves the cursor by exactly n; the cursor never passes the part being sent |
| `ExactSends.SendLoopExact` | event/myevent.cpp:362-437 | Calls that report how many of the bytes offered they have taken put exactly that many on the wire, those behind the bytes already out, across head and body, and leave the response that much further or over |
| `ExactSends.SendPassExact` | event/myevent.cpp:255-457 | The whole connection behind a send run, to the byte: wire, cursor, interest, and a request entry marked exactly when a call has failed with anything but EAGAIN before the response was complete |
| `ExactSends.RoutedIsSent` | event/myevent.cpp:262-360 | A response routed in the run is sent as one that was already there |
| `ExactSends.HardErrorCloses` | event/myevent.cpp:367-371 | A send run with more to send marks the request entry if and only if a call fails; whatever the next receive run reads, it then closes the connection |
| `ResponseMachine.SendLoopExtends` | event/myevent.cpp:362-437 | Across short writes, EAGAIN and errors, what one pass sends is exactly what the cursor moves over |
| `ResponseMachine.WirePrefix` | event/myevent.cpp:362-452 | Over any schedule of short writes, EAGAINs, errors and re-entries the wire holds a prefix of head followed by body, all of it when the response is complete and (empty page or file aside) only then |
| `ResponseMachine.EnoughCallsComplete` | event/myevent.cpp:362-437 | Every successful call brings the end nearer: as many calls as bytes are left complete the response |
| `ResponseMachine.EmptyBodyEndsWithHead` | event/myevent.cpp:426-431 | With an empty body the pass that finishes the head finishes the response |
| `HandleSend.GetMessageHeader` | event/myevent.cpp:509-535 | The lines present for each combination of arguments, in order |
| `HandleSend.FindSlash` | event/myevent.cpp:267-270 | The loop finds the first slash behind the first character, or the length |
| `HandleSend.ReadTarget` | event/myevent.cpp:263-277 | Operation and name for every target, with the empty target as the case in which substr throws |
| `HandleSend.RouteResponse` | event/myevent.cpp:262-360 | The routing phase updates the response entry, the files and the interest in place to exactly what the specification of routing says, in all its branches |
| `HandleSend.SendBytes` | event/myevent.cpp:362-437 | The send loop in place computes the specification of the loop: final entry, error flag and the bytes added to the wire |
| `HandleSend.NextPiece` | event/myevent.cpp:365-425 | One successful call that reports n bytes sends the n bytes at the cursor and moves the cursor by n, or on to the next phase |
| `HandleSend.MarkFailed` | event/myevent.cpp:367-371 | A hard error marks the request entry and not the response entry (what the mark is and does: ExactSends.HardErrorCloses) |
| `Connection.FailedRequestCloses` | event/myevent.cpp:244-250 | The receive run behind that drops the marked request and closes the connection, whatever it reads |
| `Crashes.SendNeverCloses` | event/myevent.cpp:443-449 | In every reachable state no response is in the error status, so a send run never takes the branch that closes the connection and always arms it again |
| `HandleSend.Release` | event/myevent.cpp:439-456 | After the loop: finished responses are erased and re-created with default values by the last test, the interest is reset, unfinished ones stay armed |
| `HandleSend.Process` | event/myevent.cpp:255-457 | HandleSend::process does to the entries of its connection, the files, the interest and the wire exactly what the value model says, and leaves other connections alone |
| `Connection.RecvPassValid` | event/myevent.cpp:39-251 | A receive handler leaves a connection in a state that either handler can take up |
| `Connection.SendPassValid` | event/myevent.cpp:255-457 | So does a send handler, and a connection it leaves armed for writing has a response with a target or a built head |
| `RoundTrip.RequestLineBack` | message/message.h:58-61 | A printed request line reads back as its three words |
| `RoundTrip.HeaderFieldsBack` | message/message.h:63-74 | A printed header line reads back as its key and value |
| `RoundTrip.LastAssignmentWins` | message/message.h:78-90 | The header map holds exactly the assigned keys, each with the value assigned last |
| `RoundTrip.SpecialFields` | message/message.h:76-84 | A Content-Type with one parameter stores type and parameter under their own names; a printed Content-Length becomes the number if it fits 64 bits and throws otherwise |
| `RoundTrip.HeadBack` | event/myevent.cpp:69-107 | Header block round trip: printing a request line and any accepted list of fields and reading them recovers method, resource, version and the last-wins map, with the bytes behind the head left pending |
| `WholeRequests.HeadOverRuns` | event/myevent.cpp:39-251 | The same over any number of handler runs and recv calls, for a request still incomplete: its entry holds method, resource, version, the last-wins map and the announced length |
| `RoundTrip.PartHeadBack` | event/myevent.cpp:143-169 | A printed part header, with any plain lines around the naming one, yields its file name and enters the content phase |
| `RoundTrip.UploadBack` | event/myevent.cpp:69-220 | A printed one-file upload completes with the redirect target; the file has gained the body up to its first terminator, and the rest is left in the buffer |
| `WholeRequests.UploadRoundTrip` | event/myevent.cpp:39-251 | Every way to receive a printed upload, over any number of handler runs and recv calls, appends exactly its content, touches no other file and is answered with the redirect, if and only if the content followed by CRLF does not hold the terminator |
| `WholeRequests.GetIsWhole` | event/myevent.cpp:109-116 | A printed GET completes with its last byte and not before; its target is the resource and no file changes |
| `WholeRequests.UploadIsWhole` | event/myevent.cpp:118-220 | A printed upload completes with its last byte and not before, and stores exactly its content, if and only if the content followed by CRLF does not hold the terminator |
| `Framing.ListAnnounces` | event/myevent.cpp:279-289 | The list head, read back by the header parser, announces its body length if that length fits 64 bits; otherwise the parser throws on it |
| `Framing.DownloadAnnounces` | event/myevent.cpp:301-310 | The same for the download head |
| `Framing.ShortHeadsAnnounce` | event/myevent.cpp:340-357 | The redirect head and the PUT reply announce an empty body |
| `Framing.BodyFraming` | event/myevent.cpp:279-452 | Whatever a target routes to and over any send schedule: a reader of the bytes that a complete response has put on the wire finds as many bytes behind the head as its Content-Length says, if and only if that number fits 64 bits |
| `ThreadPool.ProducerStepInv` | threadpool/threadpool.cpp:36-59 | Every step of appendEvent keeps: mutex ownership, queue length = semaphore + workers between wait and pop + unposted push, FIFO order, exactly-once |
| `ThreadPool.WorkerStepInv` | threadpool/threadpool.cpp:67-102 | Every step of a worker keeps the same invariant |
| `ThreadPool.HoldingSeesEvent` | threadpool/threadpool.cpp:81-87 | A worker that holds the mutex before its pop finds the queue non-empty, so the empty-queue branch is unreachable |
| `ThreadPool.RunAllInv` | threadpool/threadpool.cpp:36-102 | The invariant holds in every reachable state, for any number of workers and any schedule |
| `ThreadPool.StepsEnd` | threadpool/threadpool.cpp:36-102 | Every step that is not a new append decreases a measure, so the threads come to rest without new events |
| `ThreadPool.LockHolderMoves` | threadpool/threadpool.cpp:36-102 | Whoever holds the mutex can move |
| `ThreadPool.RestMeansDone` | threadpool/threadpool.cpp:36-102 | When no thread can move, the queue is empty and every appended event has been handled exactly once |
| `ThreadPool.ThreadPool.StepProducer` | threadpool/threadpool.cpp:36-59 | The class executes one step of appendEvent in place: it moves exactly when the protocol allows it, to exactly the next state |
| `ThreadPool.ThreadPool.StepWorker` | threadpool/threadpool.cpp:67-102 | The class executes one step of run in place: it moves exactly when the protocol allows it, to exactly the next state |
| `ThreadPool.ThreadPool.Run` | threadpool/threadpool.cpp:36-102 | Any schedule of the threads in place reaches the state of the value model, with the invariant |
| `Server.TurnGood` | event/myevent.cpp:39-457 | After any handler run the connection is in order, and one armed for writing has a response to send; its target is not empty if the request line read names a resource |
| `Server.PollClientInv` | fileserver/fileserver.cpp:122-137 | A report disarms its connection, and its event holds the token instead |
| `Server.DispatchInv` | fileserver/fileserver.cpp:126-140 | Building an event from a report and appending it loses no token |
| `Server.HandledHoldsToken` | fileserver/fileserver.cpp:133-139 | An event being handled holds the token of an open, disarmed connection, and is the only event of that connection in flight |
| `Server.StepEvents` | fileserver/fileserver.cpp:116-144 | Every step accounts for the events in flight: reports bring them, handlers finish them, everything else only moves them |
| `Server.HandleInv` | event/myevent.cpp:20-457 | A handler run, whichever it is, gives the token back at most once |
| `Server.RunInv` | fileserver/fileserver.cpp:116-144 | The invariant of the whole server holds in every reachable state, under every interleaving |
| `Server.OneShotToken` | utils/utils.cpp:101-142 | In every reachable state a connection is in at most one of: armed in epoll, reported, queued or in a thread, being handled; a closed one in none |
| `LostConnections.TurnDisarmsIff` | event/myevent.cpp:171-176 | A handler run leaves its connection disarmed if and only if it is a receive run whose bytes reach the content phase of an upload whose file does not open; every other run arms it again or closes it |
| `LostConnections.StrandedStep` | fileserver/fileserver.cpp:126-141 | A step makes an open connection one that is neither armed nor on its way exactly when it is such a run or a report for it with neither EPOLLIN nor EPOLLOUT, and no step takes it out of that state |
| `LostConnections.TokenKeptIff` | event/myevent.cpp:39-457 | In every reachable state an open connection has exactly one token and a closed one none, if and only if no step of the run was one of these two for it |
| `LostConnections.StrandedForever` | fileserver/fileserver.cpp:116-144 | A connection that has lost its token is never woken again, whatever the run |
| `LostConnections.ByteLoses` | event/myevent.cpp:172-176 | The input: with the file not opening, any byte in the content phase leaves the connection disarmed |
| `LostConnections.UnopenedUploadRun` | event/myevent.cpp:171-176 | A run of the whole server with any printed upload whose file does not open ends with its connection open and without a token |
| `Server.ResponsePresent` | event/myevent.cpp:257-260 | In every reachable state, wherever a send event is on its way (reported, queued, taken or being handled), its connection has a response entry, so the guard for a missing response never fires; and if the request lines read name their resources, that entry has a target or is past routing |
| `Connection.SendCrashIff` | event/myevent.cpp:264-272 | A send handler crashes if and only if it has to route an empty target |
| `Naming.SettleWords` | event/myevent.cpp:69-238 | Settling reads method and resource off the request line and keeps them; an answered GET or PUT has its resource as target, an answered POST the redirect |
| `Naming.LoopWords` | event/myevent.cpp:46-239 | The same for a whole receive run, told from the bytes on offer before it |
| `Naming.AnswerCrashIff` | event/myevent.cpp:109-116 | The send run behind an answer crashes if and only if the request is a GET or PUT whose request line has no second word |
| `Naming.EmptyResourceCrashes` | event/myevent.cpp:267-275 | The input that shows it: the request line GET alone is accepted and answered, and the send run behind it crashes |
| `Sequential.EmptyResourceRun` | event/myevent.cpp:267-275 | The same as a run of the whole server that ends crashed |
| `Server.SendNeverCrashes` | event/myevent.cpp:255-457 | As long as the request line of every GET and PUT that is read has a second word, which can be told from the bytes on offer, no send handler crashes, in any reachable state and under any interleaving |
| `Crashes.RunCrashIff` | event/myevent.cpp:39-457 | A run of the server ends crashed if and only if one of its steps is a receive run on bytes on which the machine faults or a send run that has to route an empty target |
| `Crashes.NeverCrashes` | event/myevent.cpp:39-457 | The server never goes down in a run in which every GET and PUT line read has a second word and no receive run is on bytes on which the machine faults |
| `Dispatch.WebServer.DispatchReports` | fileserver/fileserver.cpp:126-141 | The loop over the reports appends the events they ask for, in order, and leaves the event pointer empty; each report of a client that can be read from appends a receive event, writable or not, and each that can only be written to a send event |
| `Dispatch.EachReport` | fileserver/fileserver.cpp:128-137 | What each kind of report appends: an accept event, a receive event, a send event, or nothing |
| `Dispatch.ReadableIsReceived` | fileserver/fileserver.cpp:133-137 | On the server, a report of a client that can be read from puts one receive event and no send event on its way |
| `Dispatch.SendEventOrigin` | fileserver/fileserver.cpp:133-137 | In every reachable state a send event on its way was reported by a client that could be written to and not be read from |
| `Dispatch.EventsOfCounted` | fileserver/fileserver.cpp:126-141 | Counted, the appended events are the ones the server counts as outstanding for the batch |
| `Dispatch.OrderKept` | fileserver/fileserver.cpp:116-144 | First in, first out, end to end: taken events, then the queue, then the event in the main thread, then the unread reports are the events epoll reported, in its order |
| `Isolation.TurnTwin` | event/myevent.cpp:39-457 | A handler run depends only on its connection and on the files it names |
| `Isolation.TurnOutside` | event/myevent.cpp:39-457 | A handler run changes no file that it does not name |
| `Isolation.OtherStep` | threadpool/threadpool.cpp:67-102 | A step that runs no handler of a connection changes nothing that the connection depends on, and brings an event for it only by delivery |
| `Isolation.OwnStep` | threadpool/threadpool.cpp:92-100 | A handler run of a connection could be delivered to its counterpart that runs alone, and does the same to it |
| `Isolation.IsolationFrom` | threadpool/threadpool.cpp:67-102 | From any state of the server: under every interleaving each connection ends as when its own handler runs are delivered and run one after the other |
| `Sequential.TurnsRun` | fileserver/fileserver.cpp:122-141 | The handler runs of one connection, delivered one after the other, are a run of the server with one worker and this connection only |
| `Sequential.ConnectionIsolation` | event/myevent.cpp:39-457 | For any run of the server from the moment a connection is accepted, with file names not shared between connections: parse state, response state, wire bytes and files of the connection equal those at the end of a run of the server with one worker and this connection only |
| `KeepAlive.RouteReplies` | event/myevent.cpp:262-360 | Routing builds the reply owed for the target, or re-routes to a target with the same reply |
| `KeepAlive.SendTurnsReply` | event/myevent.cpp:255-457 | Over any number of send passes the wire gains a prefix of the reply, and all of it once the response is complete and the connection is idle again, the re-created default entry included |
| `KeepAlive.KeepAliveMatching` | event/myevent.cpp:39-457 | For any sequence of whole requests whose client waits for each response, the k-th reply on the wire belongs to the k-th request: completed replies in full and in order, then a part of the next; the files are those the requests produce |
| `KeepAlive.UploadOwed` | event/myevent.cpp:214-219 | An upload is owed the redirect and has appended its content |
| `KeepAlive.GetsAndUploads` | event/myevent.cpp:39-457 | For any sequence of printed GETs and surviving uploads, over any chunking and send schedule: the replies on the wire are, in order, the list, file or redirect each request is owed on the files its predecessors left; every upload is owed the redirect and has appended its content |
| `Clients.MatchingUnderInterleaving` | fileserver/fileserver.cpp:116-144 | Inside the whole server, under any interleaving with other connections that use other file names: the wire of a client that waits for each reply holds the replies to its requests, completed ones in full and in order, then a part of the next; a next request that is still arriving leaves the wire as it is, and its entry is the one its bytes so far describe |
| `PutRequest.PutMore` | event/myevent.cpp:230-237 | Over any number of runs in the body phase of a PUT, each takes one call, answers again and keeps the request; the buffer grows by exactly what they read |
| `PutRequest.PutReads` | event/myevent.cpp:39-251 | Over any number of runs from the first byte of the head on, a PUT is answered with exactly what the bytes read leave pending |
| `PutRequest.PutStoresWhatWasRead` | event/myevent.cpp:327-348 | What a PUT stores is the body bytes that all receive runs before the routing send run have read; it is a given body if and only if those runs have read the head and exactly that body |
| `PutRequest.PutFirst` | event/myevent.cpp:230-457 | The first round from an idle connection: the file holds what was read, one response goes out, and behind it the PUT still stands |
| `PutRequest.PutAgain` | event/myevent.cpp:230-457 | One more round on a standing PUT overwrites the file with the longer buffer and sends another response |
| `PutRequest.PutRounds` | event/myevent.cpp:230-457 | Behind n complete rounds the wire has gained n responses and the file is everything read so far |

## Left out

- Failing pthread, semaphore and epoll_ctl calls; thread creation, shutdown of the pool.
- Sockets, signals and the signal pipe, the listening socket, logging, the child process that watches the cache, shared memory.
- `AcceptConn` beyond the new, armed connection it leaves behind.
- The instruction-level races of the original: a handler re-arms its connection (61, 112, 135, 216, 223, 233) before it has finished with the static maps, which no lock protects. The model runs a handler as one step.
- Several connections that take turns on one descriptor number: a closed descriptor stays closed. The original's receive error path does not erase the response entry, so a later connection with that number would find it.
- ResponseMachine.WirePrefix: for an empty page or file all bytes are out one zero-byte call before the response is complete, so completeness follows from the bytes only when the body is not empty or has the empty type.
- ResponseMachine.Count: takes a successful `send` of a positive length to return at least one byte.
- ResponseMachine.RouteSendable: the file behind a download is a snapshot taken when it is opened; shrinking, growing or overwriting it during the send is not modelled.
- HandleSend.Release: does not model closing the download's descriptor at 454-456, which reads an uninitialised body type.
- HandleSend.RouteResponse: takes the list page as given; reading the directory and the HTML template is not modelled, and neither is a PUT file that does not open.
- KeepAlive.KeepAliveMatching: takes the list page of each exchange as given, and clients that do not pipeline (a request that follows early is dropped or read as a new one, see Chunking.EarlyEndMatters).
- PutRequest.PutAgain: speaks of bytes that arrive when no response is under way. What a receive run does during a response is PutRequest.PutMore (the buffer grows, the response stays where it is); rounds that overlap in this way are not composed.
- Clients.MatchingUnderInterleaving: speaks of healthy sockets, on which calls fail only with EAGAIN.
- Sequential.ConnectionIsolation: asks that no file name is shared between connections; the list page is an input of each send run, so two runs that list the directory are compared on the same page.
- HandleRecv.OpenAndSave: an upload file either opens or does not, for a whole run; file names are taken as keys, without directories or length limits.
- Uploads with several parts, and methods other than GET, POST and PUT: the original has no path that completes them; the machine waits, as the original does.
- `msgBodyRecvLen` and the three status-line members of a response, which nothing reads.
