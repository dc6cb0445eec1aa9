# Verification of the epoll web server

A Dafny model of the server's stateful core and proofs of what it keeps over whole runs. `dafny verify dfyconfig.toml`
checks everything. Paths below are relative to the root of the repository.

The five parts, and how they hang together:

- **One connection** (`http_conn.cpp`). `HttpParser` gives the resumable parser as functions on a buffer and its
  cursors; `HttpArrivals` proves what cutting the input does to it, `HttpBodies` when a body completes and where its
  terminator is written, `HttpRoundTrip` that printed requests parse back (RFC 7230, sections 3.1.1 and 3.2), and
  `HttpGrammar` exactly which lines are taken and which are refused. `HttpResponse` has what is answered, and
  `HttpAnswers` what a client reads in the answer - status, type, payload, whether the connection goes on - told from the
  request and the file system alone. `HttpStreams` has what a whole pipelined stream gets, `HttpSend` what the resumable
  sender hands to the kernel, and `HttpDialogue` proves that over a connection's whole life the bytes that have gone out
  are exactly what the bytes that have come in deserve. `HttpConn` is the object as it is written - one byte buffer edited
  in place, cursors moved by loops, two descriptors - and each of its methods is proved against those functions.
- **Idle timers** (`timer_heap.cpp`). `TimerHeap` compares the heap with lazy deletion to a plain map of deadlines, on
  values and as a class.
- **The thread pool** (`thread_pool.cpp`). `ThreadPool` interleaves every lock, flag read, queue access, block and
  wake-up of any number of workers and submitters and one shutdown.
- **The log** (`async_log.h`). `AsyncLog` interleaves front ends and back end; its two classes do the same on buffers.
- **A sub-reactor with the kernel and the workers around it** (`sub_reactor.cpp`). `SubReactor` is the step machine,
  over the timers of `TimerHeap`; `SubReactorOwnership` and `SubReactorRuns` say who owns a connection and for how long
  that stays so, and `SubReactorDeadlines` when each idle timer runs out; `SubReactorBadRuns` has runs in which
  ownership does not last; `SubReactorHandlers` has the handlers as a class over
  a table of `HttpConn` objects and a `TimerHeap` object, each proved to take the step machine's step and to move the
  connection's object along its dialogue; and `ReactorDialogues` runs the step machine with one dialogue for each open
  descriptor, so that what is proved of one connection holds of all of them at once.

Where the code says less than its comments, the model follows the code, and the exact condition is a theorem:

- `modfd` does not set `EPOLLONESHOT` (`http_conn.cpp:86-91`), although `sub_reactor.cpp:223-225` and `311` count on it. The
  model carries a flag for it. `Breaks` lists the steps that end single ownership, `OwnedThroughoutIff` shows
  they are all of them and each of them does, and `PlainRearmingShares` is the run the code as written allows.
- HUP or ERR together with a request (`sub_reactor.cpp:358-382`) closes a connection whose task is queued
  (`HangupOrphansTask`); RDHUP alone would, with one-shot re-arming, leave a connection to its timer (`RdhupForgets`); and a
  descriptor number given out again while its last holder's event waits shares the new connection
  (`ReuseUnderEventShares`).
- Timer versions restart at 0 (`timer_heap.cpp:21` and `34`), while `timer_heap.h:12` has them only grow. Deadlines stay
  exact if and only if no add meets an older node with its number that is due before it (`AddIsExactIff` for one add,
  `HeapRefinesDeadlinesIff` for a run). The code as written does meet one: a connection accepted at 0 and served at 10 is
  closed at 15, with a deadline of 25 (`ServedConnectionTimesOutEarly`).
- `process_read` looks up and opens the file itself (`http_conn.cpp:189` and `194`), on the I/O thread, where the comment at
  577-578 leaves that to the pool; so a submitted code is never GetRequest, and the pool only writes the response.
- A bad line break makes `process_read` return NoRequest (`http_conn.cpp:175` and `202`), and nothing that arrives later changes that
  (`BadLineIsStuck`).
- A body is looked at by the line scanner after an incomplete turn. So it does not complete when all its bytes are in:
  it completes in the first call that finds as many unscanned bytes as the declared length, where each incomplete look
  has scanned everything up to the first line break that is no CRLF (`BodyCompletesIff`, for any bytes and any arrivals).
  For bodies without line breaks that means one arrival as long as the whole body (`BodyNeedsOneArrival`).
- Its terminator (`http_conn.cpp:309`) is written unchecked. From before the body it falls behind the buffer if and only
  if the buffer is full and the head with the body it declares fills it exactly (`OverrunsIff`, over runs
  `TerminatorOverrunsIff`); `GET / HTTP/1.0` with a Content-Length of 16343 and that many bytes does it on the first read
  (`TerminatorOverruns`).
- The log's exit path writes the current buffer only (`async_log.h:204-212`): nothing is missing if and only if the ready list
  was empty then (`CompleteIff`), which is to say that what was logged since the back end last took the buffers fits one
  (`CompleteIffOneBuffer`); and it need not be (`ShutdownCanLoseABuffer`).

## Model

| member | source | states |
|---|---|---|
| HttpArrivals.LineFeed | http_conn.cpp:140-165 | a line scan that ended keeps its answer when bytes are added behind it; one that ran out of bytes goes on where it stopped |
| HttpArrivals.RunFeed | http_conn.cpp:169-203 | process_read now and again after more bytes ends exactly like one call on all of them, unless a body begins |
| HttpArrivals.ArrivalsDoNotMatter | http_conn.cpp:169-203 | for any bytes that declare no body and any cutting into arrivals: same result, url, version, host, linger, cursors and buffer as one call on the whole |
| HttpArrivals.DecisionIsFinal | http_conn.cpp:565-573 | once a result is not NoRequest, extra bytes change nothing but the buffer's length |
| HttpArrivals.BadLineIsStuck | http_conn.cpp:153-161 | a bad line break: NoRequest for ever, whatever arrives and however it is cut |
| HttpArrivals.RunKeepsCursors | http_conn.cpp:169-203 | one call keeps the cursor invariant, and none of its line scans takes the branch for a LF behind an earlier CR |
| HttpArrivals.ScanIsLinear | http_conn.cpp:142-163 | one process_read makes at most one scan step per byte it passes, and one more |
| HttpArrivals.ArrivalsAreLinear | http_conn.cpp:140-203 | over all calls for a request, bodies included: at most the bytes received plus the number of calls |
| HttpBodies.BodyTurn | http_conn.cpp:169-196 | one call inside a body, for any bytes: it completes exactly when the unscanned bytes reach the declared length; otherwise what a line scan leaves of them is all that still counts |
| HttpBodies.BodyCompletesIff | http_conn.cpp:169-196 | over any arrivals of any bytes, when a body completes, both ways |
| HttpBodies.BodyNeedsOneArrival | http_conn.cpp:302-313 | a body without line breaks completes if and only if one arrival alone is as long as the whole body |
| HttpBodies.PrintedBodyCompletesIff | http_conn.cpp:169-313 | the same from the first byte of any request that declares a body |
| HttpBodies.BodyCutInTwoStalls | http_conn.cpp:308-312 | the same request completes with its body in one piece and stalls with it in two |
| HttpBodies.BodyOverrunsIff | http_conn.cpp:309 | inside a body: the terminator falls behind the buffer if and only if the buffer is full, the body ends there, and the text pointer stands at the scan |
| HttpBodies.OverrunsIff | http_conn.cpp:309 | from before the body: if and only if the buffer is full and the head's length plus the length it declares is the buffer's |
| HttpBodies.PrintedOverrunsIff | http_conn.cpp:309 | for any printed head and any bytes behind it: if and only if it declares a body, head and body are as long as the buffer, and all of it is in |
| HttpBodies.FullBufferOverruns | http_conn.cpp:309 | a request of 16384 bytes whose terminator is written at index 16384 |
| HttpRoundTrip.ScanLine | http_conn.cpp:140-153 | a printed line is found, to its CRLF and no further |
| HttpRoundTrip.ParseFields | http_conn.cpp:244-300 | printed header fields parse to the last Host, the last Connection decision and the last Content-Length; other fields change nothing |
| HttpRoundTrip.ParsePrintedRequestLine | http_conn.cpp:205-242 | a printed request line gives back its url, version and default for keeping the connection |
| HttpRoundTrip.PrintThenParse | http_conn.cpp:140-300 | any printed GET with a legal url, version 1.0 or 1.1 and well-formed fields parses back to itself and consumes exactly its own bytes, whatever follows; 1.1 without Host is a bad request |
| HttpGrammar.LineIff | http_conn.cpp:140-165 | a line is complete if and only if its first break is CR LF; more bytes are waited for if and only if there is no break or only a final CR; anything else is bad |
| HttpGrammar.RequestLineIff | http_conn.cpp:205-242 | a request line is taken if and only if it is GET, target and version with single spaces between them; the target and the version come from there; everything else is refused |
| HttpGrammar.HeaderRefusedIff | http_conn.cpp:244-300 | a header line is refused if and only if it ends an HTTP/1.1 head without host, has no colon, or gives a length that is not taken; and exactly when the empty line completes the request |
| HttpGrammar.NamedLine | http_conn.cpp:258-291 | Host, Connection and Content-Length, named in any case and with any blanks before the value: what each sets |
| HttpGrammar.ContentLengthIff | http_conn.cpp:266-291 | the lengths taken: an optional sign, zeros and the number as printed, ten digits at most, from 0 to 16383; with a minus only 0 |
| HttpGrammar.SkipBlanksIff | http_conn.cpp:260 | what is left of a text without its leading spaces and tabs |
| HttpGrammar.EqNoCaseIff | http_conn.cpp:217 | names are compared letter by letter, A to Z in either case, all else as it is |
| HttpGrammar.TypeByExtension | http_conn.cpp:366-378 | what follows the last dot decides the type, in any case; without a dot it is plain text |
| HttpResponse.Outcomes | http_conn.cpp:315-362 | which url leads to which code, by what the file system says of its path; a descriptor is kept exactly for a file to send |
| HttpResponse.DotDotOpensNothing | http_conn.cpp:334-339 | a url with two dots in a row is answered without a look at the file system |
| HttpResponse.Answer | http_conn.cpp:575-586 | a decided request always has a response, never for NoRequest, GetRequest or InternalError |
| HttpResponse.DecimalOfDec | http_conn.cpp:430 | the printed length reads back as the length |
| HttpResponse.ResponseIsFramed | http_conn.cpp:380-435 | a client reading the head line by line finds its end, the payload's length and whether the connection stays open, as the server will act |
| HttpResponse.HeadFits | http_conn.cpp:426-435 | the head is shorter than the 512 bytes it is formatted in, for any 64-bit length |
| HttpAnswers.StatusIff | http_conn.cpp:315-435 | the first line a client reads, both ways: 400 for a refused request, 404 when the path is missing, a directory or does not open, 403 for two dots or a special file, 200 for "/" or a file |
| HttpAnswers.DeservedStatusIff | http_conn.cpp:244-435 | the same for a printed request, from the request and the file system alone |
| HttpAnswers.RefusedReads | http_conn.cpp:393-396 | a refused request: status 400, the page that names it, and the connection closes |
| HttpAnswers.DeniedReads | http_conn.cpp:397-400 | a denied one: status 403, the page that names it, and the connection closes |
| HttpAnswers.AbsentReads | http_conn.cpp:401-404 | nothing there: status 404, the page that names it, and the connection stays as the request wished |
| HttpAnswers.WelcomeReads | http_conn.cpp:316-331 | for "/": status 200 and the welcome page, and the connection stays as the request wished |
| HttpAnswers.FileReads | http_conn.cpp:341-362 | for a file: status 200, its type, its bytes, as many as it had when opened, from the descriptor opened |
| HttpAnswers.AnsweredUntilClosed | sub_reactor.cpp:245-287 | a list of requests is answered in order up to the first that is refused, denied or wishes the connection closed; it stays open if and only if there is none such |
| HttpStreams.PumpFeed | sub_reactor.cpp:246-283 | answering what is complete now and the rest later is answering all at once |
| HttpStreams.StreamCutsDoNotMatter | sub_reactor.cpp:185-287 | the list of responses to a body-free stream and the state it leaves do not depend on how its bytes arrive |
| HttpStreams.SuffixUntouched | http_conn.cpp:519-536 | every byte written in place lies before the start of the next line |
| HttpStreams.PipelineIsAList | http_conn.cpp:519-561 | requests pipelined in one buffer are answered as if each were alone, and what follows is left exactly as received |
| HttpStreams.PumpPrinted | sub_reactor.cpp:246-287 | printed requests back to back get what each deserves by itself, up to the first that ends the connection |
| HttpStreams.PrintedStreamIsServed | sub_reactor.cpp:185-287 | end to end: any list of printed requests, cut into arrivals anyhow, gets that list of answers |
| HttpSend.Write | http_conn.cpp:447-515 | the offset only grows and ends inside the message; 1 is returned exactly at its end |
| HttpSend.CallsDoNotMatter | http_conn.cpp:447-515 | EAGAIN and EINTR anywhere, over any number of calls, change neither how far sending gets nor how it ends |
| HttpSend.SendingIsExact | http_conn.cpp:447-515 | the bytes handed to the kernel over any number of calls are the message from the first offset to the last, none skipped or repeated; all of them if and only if the last call says so |
| HttpSend.TookAdvances | http_conn.cpp:459-512 | a send of n bytes moves the offset by exactly n, or to the end of what was offered if n is more |
| HttpSend.OneCall | http_conn.cpp:447-515 | one call sends exactly the sum of what the kernel took before the first error or full buffer, and returns 1, 0 or 2 accordingly |
| HttpSend.SentIsAtMostTheSum | http_conn.cpp:447-515 | over any number of calls no more counts as sent than the kernel says it took |
| HttpSend.SentIsTheSum | http_conn.cpp:447-515 | and exactly that much, as long as it takes no more than it is offered |
| HttpDialogue.BodyFreeBefore | http_conn.cpp:169-203 | a stream without bodies has none in any of its beginnings |
| HttpDialogue.CompletedOwes | sub_reactor.cpp:245-287 | finishing a response moves it from what is owed to what is answered; nothing else changes hands |
| HttpDialogue.WireIsFaithful | sub_reactor.cpp:185-288 | at every moment, for any arrivals within the buffer and any kernel: the wire holds the answered responses in full, then the current one up to its offset, and these with what is still owed are what the bytes received deserve taken all at once |
| HttpDialogue.PrintedDialogue | sub_reactor.cpp:185-288 | for printed requests, whenever the connection waits or the server has closed it: everything they deserve is out, byte for byte, and nothing else |
| HttpDialogue.CursorsInEveryRun | http_conn.cpp:99-165 | in every state of every run, bodies included: start <= checked <= read <= buffer size, and no CR or LF between the first two while the connection waits |
| HttpDialogue.LoneLfIsDeadInEveryRun | http_conn.cpp:154-160 | no line scan of any run takes that branch, neither on an arrival nor behind a reset |
| HttpDialogue.TerminatorOverrunsIff | http_conn.cpp:309 | over every run: exactly which arrivals make the terminator fall behind the buffer; a request found behind a reset never does |
| HttpDialogue.TerminatorOverruns | http_conn.cpp:309 | a run of one arrival that does |
| HttpDialogue.DeservedIsFramed | http_conn.cpp:425-438 | each response on the wire can be told from the next, and says whether the server goes on |
| HttpConn.HttpConn.Init | http_conn.cpp:44-52 | only on a closed slot: one more socket is owned, none overwritten; everything else as fresh |
| HttpConn.HttpConn.CloseConn | http_conn.cpp:54-66 | every socket adopted and every file opened has been closed once, in order |
| HttpConn.ReceiveMeans | http_conn.cpp:99-136 | the bytes stored are the first of all that arrive before an empty socket, an end of stream or an error, as many as there is room for; EINTR changes nothing; failure exactly on an error, or on an end of stream that brought nothing |
| HttpConn.HttpConn.ReadOnce | http_conn.cpp:99-136 | in place, those bytes and that result, both ways; a full buffer fails first and stores nothing |
| HttpConn.HttpConn.ParseLine | http_conn.cpp:140-165 | in place, the line scan of HttpParser, in that many loop turns |
| HttpConn.HttpConn.ParseRequestLine | http_conn.cpp:205-242 | in place, the function whose round trip is proved |
| HttpConn.HttpConn.ParseHeaders | http_conn.cpp:244-300 | likewise for one header line, with the checks on Content-Length |
| HttpConn.HttpConn.ParseBody | http_conn.cpp:302-313 | likewise for a body; and whether the terminator was written behind the buffer |
| HttpConn.HttpConn.DoRequest | http_conn.cpp:315-362 | the resource for the url; a file opened is owned |
| HttpConn.HttpConn.ProcessRead | http_conn.cpp:169-203 | the loop ends and leaves result, buffer and cursors of HttpParser.ProcessRead; every descriptor accounted for; a write behind the buffer exactly when HttpParser.Overruns says so |
| HttpConn.HttpConn.PrepareIoRead | http_conn.cpp:565-573 | 0 exactly for NoRequest; after 1 the response the business side will make is the one the request deserves |
| HttpConn.HttpConn.ProcessWrite | http_conn.cpp:380-443 | head, body and Connection decision for a code, those that HttpAnswers shows a client reading; nothing of the parse is disturbed |
| HttpConn.HttpConn.RunBusinessAndPrepareWrite | http_conn.cpp:575-586 | never fails on a decided request, and produces the planned response |
| HttpConn.HttpConn.Write | http_conn.cpp:447-515 | for sendfile and writev: offset and result of HttpSend.Write, and the bytes sent are the message between the two offsets; each call is offered something and counts exactly what it took |
| HttpConn.HttpConn.ResetForNext | http_conn.cpp:519-561 | the bytes behind the request move to the front, all else is fresh, an open file is closed once |
| HttpConn.HttpConn.MoveDown | http_conn.cpp:519-536 | the defence against cursors out of order is never reached; the rest of the buffer moves to the front |
| TimerHeap.AddIsExactIff | timer_heap.cpp:8-12 | adding keeps every deadline exact if and only if no older node of the descriptor carries the new version and is due earlier |
| TimerHeap.InvalidateKeepsValid | timer_heap.cpp:19-23 | exactly one descriptor goes dead, and exactness is kept |
| TimerHeap.ExactIff | timer_heap.cpp:25-38 | tick follows the deadlines at every moment if and only if no node counts early |
| TimerHeap.NeverLate | timer_heap.cpp:25-38 | as written, reused versions or not: a live descriptor whose deadline has come fires |
| TimerHeap.RunIsValid | timer_heap.cpp:8-38 | over any run: each live version has its node at the last deadline |
| TimerHeap.HeapRefinesDeadlinesIff | timer_heap.cpp:8-38 | throughout a run the heap calls back exactly what a plain map of deadlines would, if and only if no add of the run meets such a reuse |
| TimerHeap.ReusedVersionFiresEarly | timer_heap.cpp:19-36 | a run of three operations in which a connection is timed out ten seconds early |
| TimerHeap.TimerHeap.Add | timer_heap.cpp:8-12 | the whole new state |
| TimerHeap.TimerHeap.Invalidate | timer_heap.cpp:19-23 | the whole new state |
| TimerHeap.TimerHeap.NextExpire | timer_heap.cpp:40-43 | -1 for an empty heap, otherwise the least expiry, never later than any deadline |
| TimerHeap.TimerHeap.PopDue | timer_heap.cpp:26-36 | one turn of tick's loop |
| TimerHeap.TimerHeap.Tick | timer_heap.cpp:25-38 | the popping loop calls back each descriptor that must fire once, in non-decreasing order of the nodes that fired them, and leaves only later nodes |
| ThreadPool.InvHolds | thread_pool.cpp:21-69 | the mutex, phase, wake-up and history invariants hold in every state of every interleaving |
| ThreadPool.TakeIsSafe | thread_pool.cpp:54-60 | no worker takes from an empty queue |
| ThreadPool.DrainedForGood | thread_pool.cpp:56-58 | once any worker has returned: stopped, queue empty, and nothing accepted from then on |
| ThreadPool.ShutdownDrains | thread_pool.cpp:21-36 | when the shutdown call that won returns, every accepted task has been started in FIFO order and has finished exactly once |
| ThreadPool.StartedInOrder | thread_pool.cpp:45-60 | at every moment tasks start in the order of their acceptance, and none finishes that was not started |
| ThreadPool.SubmitIsHonoured | thread_pool.cpp:38-47 | over any run, every submit that has returned put its own task at the end of the queue, or found the flag set while it held the mutex |
| ThreadPool.ClearFlagMeansPush | thread_pool.cpp:40-45 | a check that finds the flag clear is followed by the push of that task, whatever the queue holds |
| ThreadPool.NoLostWakeup | thread_pool.cpp:26-47 | while a worker sleeps, every queued task has a worker on its way or a submitter about to notify; after notify_all nobody sleeps, although the flag is set outside the mutex |
| ThreadPool.JoiningIsBounded | thread_pool.cpp:30-33 | while shutdown joins, the workers take at most a fixed number of steps, however the threads interleave |
| ThreadPool.JoiningIsNeverStuck | thread_pool.cpp:26-33 | until then some thread can always move, or shutdown can return |
| ThreadPool.Pool.WinStop | thread_pool.cpp:21-25 | one call wins the flag |
| ThreadPool.Pool.SubmitLocked | thread_pool.cpp:38-46 | the critical section is the submitter's two steps: the task goes to the end of the queue exactly if the flag is clear |
| ThreadPool.Pool.TakeLocked | thread_pool.cpp:54-61 | the critical section is the worker's step, and takes the oldest entry |
| AsyncLog.Line | async_log.h:113-132 | a line has at most 1279 bytes and ends in a newline |
| AsyncLog.LineReads | async_log.h:113-132 | it is the header's first 255 bytes at most, the message's first 1023 at most, and a newline |
| AsyncLog.AcceptedIsLogged | async_log.h:141-148 | over any run the lines accepted are those of exactly the appends between Start and Shutdown, in order |
| AsyncLog.ReachableIsConserved | async_log.h:141-212 | in every state: the accepted lines, in order, are the file, then the taken buffers, then the ready list, then the current buffer |
| AsyncLog.FileIsAPrefix | async_log.h:199-202 | until the exit the file is a prefix of the accepted lines |
| AsyncLog.NoLineIsCut | async_log.h:143-148 | the append into a new buffer cannot fail: the line is whole at the end of the current buffer |
| AsyncLog.CompleteIff | async_log.h:204-212 | at the exit nothing is missing if and only if the ready list was empty; what is missing is that list |
| AsyncLog.CompleteIffOneBuffer | async_log.h:141-212 | that is, if and only if the lines accepted since the back end last took the buffers fit one buffer |
| AsyncLog.ShutdownIsBounded | async_log.h:153-161 | over a run: after the flag is cleared the back end takes at most a fixed number of steps, whatever the front ends do |
| AsyncLog.ShutdownEnds | async_log.h:153-161 | once the flag is clear only the back end moves the log, it always can, and each step brings its exit nearer |
| AsyncLog.ShutdownCanLoseABuffer | async_log.h:192-212 | a run that loses 4193841 accepted bytes |
| AsyncLog.LogBuffer.Append | async_log.h:45-50 | appended whole or refused unchanged, by the space left |
| AsyncLog.AsyncLog.Append | async_log.h:141-148 | on buffers, the front end's step |
| AsyncLog.AsyncLog.Swap | async_log.h:180-196 | on buffers, the back end's swap; what it takes shares nothing with the new current buffer |
| AsyncLog.AsyncLog.WriteAll | async_log.h:199-202 | on buffers, the whole write loop |
| AsyncLog.WrittenOutIsConcat | async_log.h:199-202 | writing one buffer after the other appends them all in order |
| AsyncLog.AsyncLog.Exit | async_log.h:204-213 | on buffers, the exit path |
| SubReactor.DeliveringHolds | sub_reactor.cpp:73-91 | the mail invariant over every run |
| SubReactor.MailIsDelivered | sub_reactor.cpp:135-164 | each message is handled once, in push order, and none is left with nobody to wake the loop |
| SubReactorOwnership.ClientEventTouches | sub_reactor.cpp:350-382 | what one event makes of its descriptor in every case, and that no other descriptor is touched |
| SubReactorOwnership.HandleMsgTouches | sub_reactor.cpp:297-323 | the same for one message |
| SubReactorOwnership.TimeoutKeeps | sub_reactor.cpp:125-133 | a tick closes only connections on the I/O side |
| SubReactorOwnership.StepKeepsOwnershipIff | sub_reactor.cpp:168-382 | single ownership survives a step if and only if it is not one of four named kinds; the timers then agree too |
| SubReactorRuns.OwnedThroughoutIff | sub_reactor.cpp:168-382 | over a whole run every descriptor is in exactly one place - armed or with the I/O thread, queued, with a worker, in one BusDone - if and only if no such step is taken |
| SubReactorRuns.OneShotBreaks | sub_reactor.cpp:223-225 | with one-shot re-arming three kinds are left |
| SubReactorRuns.UnbrokenIsGood | sub_reactor.cpp:168-382 | until then ownership, timers and phases agree in every state |
| SubReactorRuns.WorkerIsAlone | sub_reactor.cpp:204-225 | while business is queued or running: slot open, request parsed, no second task, no arming, event or message, timer off |
| SubReactorRuns.OnlyTheWorkerTouches | sub_reactor.cpp:223-225 | no step but that worker's own changes the connection |
| SubReactorRuns.BusinessIsReported | sub_reactor.cpp:205-222 | a worker that is done posts its own connection with the outcome, and the slot holds a response exactly if that is good |
| SubReactorRuns.BusDoneIsFresh | sub_reactor.cpp:303-319 | every BusDone finds its slot open, holding the response if and only if business succeeded, and is the only message for it |
| SubReactorRuns.TimersFollowOwnership | sub_reactor.cpp:290-318 | a timer is on exactly while the connection is open and on the I/O side; a due one is closed by a tick; none of a worker's is |
| SubReactorRuns.HandlersSuit | sub_reactor.cpp:356-367 | reading meets only connections waiting for input, writing only those with a response, business only a parsed request |
| SubReactorDeadlines.EventDeadline | sub_reactor.cpp:185-283 | a connection read from or written to and still timed has fifteen more seconds from then, its timer on or off before; no other deadline moves |
| SubReactorDeadlines.MessageDeadline | sub_reactor.cpp:168-319 | likewise for a new connection and for a response that is ready; a failed business ends the timer |
| SubReactorDeadlines.DeadlineIsLastActivePlus15 | sub_reactor.cpp:168-319 | over any run in which ownership lasts: each idle connection's deadline is fifteen seconds after it was last accepted, read from, written to or armed for sending |
| SubReactorBadRuns.PlainRearmingShares | http_conn.cpp:86-91 | as written: the I/O thread about to read into a connection that a worker is running |
| SubReactorBadRuns.HangupOrphansTask | sub_reactor.cpp:358-382 | a worker runs for a connection that is closed |
| SubReactorBadRuns.RdhupForgets | sub_reactor.cpp:368-382 | an open connection, blocked in sending, in no place at all |
| SubReactorBadRuns.ReuseUnderEventShares | sub_reactor.cpp:358-365 | a connection queued for business while still armed, with one-shot re-arming |
| SubReactorBadRuns.ServedConnectionTimesOutEarly | timer_heap.cpp:19-36 | accepted at 0, read and answered at 10, closed at 15 with a deadline of 25 |
| ReactorDialogues.LinksHold | sub_reactor.cpp:168-382 | while no step breaks ownership, every open descriptor has a dialogue that is a run of HttpDialogue, in its slot's phase, and no other has one |
| ReactorDialogues.HandlersMayRun | sub_reactor.cpp:356-367 | the handlers are called only where the dialogue allows it |
| ReactorDialogues.EveryWireIsFaithful | sub_reactor.cpp:185-288 | in the whole reactor, every open connection whose bytes declare no body has on its wire what they deserve, as far as sending has got |
| SubReactorHandlers.SubReactor.CloseConnection | sub_reactor.cpp:290-295 | on the objects: the table's step, and the slot closed |
| SubReactorHandlers.SubReactor.DealRead | sub_reactor.cpp:185-227 | on the objects: the table's step, with the outcome the bytes dictate; the dialogue reads them; a submitted request has its response planned |
| SubReactorHandlers.SubReactor.DealWrite | sub_reactor.cpp:229-288 | on the objects: the table's step, with the outcome that the kernel, the Connection decision and the buffered rest dictate; the dialogue sends |
| SubReactorHandlers.SubReactor.OnClient | sub_reactor.cpp:358-382 | the three tests in order: the table's step and the dialogue's, with the outcomes of the two handlers |
| SubReactorHandlers.SubReactor.HandleMsg | sub_reactor.cpp:297-323 | on the objects: the table's step |
| SubReactorHandlers.SubReactor.AddNewConn | sub_reactor.cpp:168-183 | on the objects: the table's step, and the start of a dialogue |
| SubReactorHandlers.SubReactor.RunTask | sub_reactor.cpp:204-222 | succeeds exactly on an open slot, and the response to be sent is the one planned when the request was submitted |
| SubReactorHandlers.SubReactor.HandleTimeout | sub_reactor.cpp:125-133 | tick's loop with the closing callback inside it: closes exactly what fires, once, in order, and leaves the table the step machine has |

## Left out

- Sockets, epoll, eventfd, timerfd and the file system are scripts, step parameters or an oracle on the path; a send
  call takes at least one byte or fails with an errno.
- Real time: `arm_timerfd` (`sub_reactor.cpp:107-123`) pushes a due expiry on by a second at each I/O event, so no bound on lateness holds;
  timerfd may fire at any moment in the model.
- HttpArrivals.ArrivalsDoNotMatter: says nothing of requests with a body, because it is false of them; HttpBodies.BodyCompletesIff has the exact condition.
- HttpStreams.StreamCutsDoNotMatter: does not bound the buffer; HttpDialogue does, and a request that fills its 16384 bytes is closed, as HttpConn.HttpConn.ReadOnce states.
- HttpStreams.PrintedStreamIsServed: does not bound the buffer either; HttpDialogue.PrintedDialogue does.
- HttpDialogue.WireIsFaithful: says nothing of streams with bodies, for the same reason as HttpArrivals.ArrivalsDoNotMatter; a failed read, a hang-up or a timeout is a run that goes no further.
- HttpConn.HttpConn.Write: `sendfile` returning 0, on a file that has shrunk, is one of the kernel's three failures by the errno left over; which one is not modelled.
- HttpConn.HttpConn.ParseBody: records a write behind the buffer in `overran` and says nothing of the byte it hits.
- HttpConn groups the fields that the request line and headers set into one record, and those of the open file into another; `m_method` and the peer's address are not kept.
- `read_once` and `write` take the kernel's answers as a list; what stands behind its end is an empty, or full, socket.
- `std::priority_queue` is a multiset from which some node with the least expiry is taken; ties may come in any order.
- Versions, offsets and the eventfd counter do not wrap around.
- ThreadPool.JoiningIsBounded: promises the end of shutdown only if the threads are scheduled and the tasks return; exceptions of a task count as its end.
- Second and later calls of the pool's `shutdown`, which return at once, and `stop` of a sub-reactor.
- The classes ThreadPool.Pool and AsyncLog.AsyncLog give each critical section alone; how threads interleave is in the step machines.
- SubReactorHandlers leaves the message queue, its mutex and the eventfd to the step machine, and takes each handler's call on its own: the loops over events and messages are steps of SubReactor.
- TimerHeap.TimerHeap.Tick: collects the descriptors; SubReactorHandlers.SubReactor.HandleTimeout is the same loop with the callback run inside it.
- SubReactor leaves the gap between `accept` and the push of NewConn, and between a worker's business and its push of BusDone, inside one step; nobody else can reach the connection there.
- Log formatting beyond its length limits, levels, day rolling, echo to stderr, and a log file that cannot be opened.
- `main.cpp`, `Server`, `FdGuard` and round-robin dispatch: plumbing.
