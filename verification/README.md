# A verified model of the reactor web server

The server accepts connections in one thread and spreads them over event loops.  Each loop owns an epoll
instance, a priority queue of timers, the connections registered with it and a queue of functors that
other threads hand to it.  A connection reads a request into a buffer, parses it with two hand-written
parsers, writes an answer and registers itself for its next event.  Beside that runs a logger: all threads
append lines to double buffers, one consumer thread writes them to a file.

The model has two layers.  The lower one says what each part does as a function or a state machine over
values, and holds the theorems over all inputs and all runs.  The upper one gives the parts the form they
have in the sources, objects whose methods update fields and run loops, and proves each method against the
lower layer, so that the theorems hold of the objects.

| files | what they model |
|---|---|
| `Text`, `RequestLine`, `LostByte` | the request line parser, with `size_t` wrap-around and `int` truncation, also on a line without its first byte |
| `HeaderGrammar`, `HeaderResume`, `HttpRequest` | the nine-state header automaton, the language it accepts, resumed calls, whole requests |
| `Connection`, `Exchange`, `Response`, `Outcome` | the handlers of one connection; pipelined requests and half-closed peers; the bytes that it sends; how its events end |
| `Timers`, `Reactor`, `Batch`, `Deadline` | the clock, the lazy timer queue, one event loop with all its connections over whole runs, a poll handled in two phases, and what events do to deadlines and lives |
| `HttpData`, `Epoll` | the same as objects: channel, timer node, connection, epoll tables and timer queue |
| `LoopProtocol`, `EventLoop` | the functor queue and its wakeups, as a protocol and as an object |
| `LogProtocol`, `AsyncLogging`, `FileUtil`, `LogStream` | the double-buffered logger, its sink and its number formatting |

Threads are modelled as atomic steps that interleave freely, one step per critical section.  What the
surroundings decide is a parameter: how many bytes a read or write moves and how it ends, whether a system
call succeeds, what a file name leads to, the time, and which events epoll reports.  Connections and timer
nodes have identities that are used once.

## What the code does differently from what it says

Each of these follows the code and is stated as a theorem.

- `FixedBuffer::avail()` (`base/LogStream.h:26`) answers the size of the whole array, not the room that is
  left, so the guard in `append` is a room check only for an empty buffer (`LogProtocol.GuardIsRoomCheckIff`).
  A run stays inside the arrays if and only if at no time more than a buffer's size has been appended since
  the current buffer was last handed over (`InBoundsIff`); two lines can be too much (`TwoLinesOverflow`).
  Buffers are handed over only for lines of a whole buffer's size, and the loss condition is about such
  lines (`LossIff`).  `LogStream::formatInteger` has the same guard (`LogStream.FormatInteger`).
- `parseURI` compares positions of type `size_t` with 0, so it never answers `PARSE_URI_AGAIN`
  (`HttpData.cpp:316`); an incomplete request line is refused, or, with only its CR missing, accepted and
  left in the buffer.
- `parseHeaders` steps over one byte behind the blank line (`HttpData.cpp:402`, `:493-498`).  A request sent
  right behind another one therefore loses its first byte.  It is refused, unless its target names a method
  with a slash at or behind the name: then it is accepted as a request for something else
  (`LostByte.BeheadedIff`, `Exchange.PipelinedIsRefused`, `PipelinedErrorIff`); a target `/GET/x` is answered
  with the file `x` (`Exchange.MisreadOfGet`).  With any one byte in between it is read
  (`Exchange.SpacedIsComplete`).
- The four indices of `parseHeaders` are locals while `hState_` survives (`HttpData.cpp:398`), so a call that
  resumes inside a line has lost the line's beginning.  Two pieces are read like one exactly when the first
  holds nothing but line breaks (`HeaderResume.TwoPiecesLikeOneIff`).
- A peer that closes its side while its answer is still being sent is left without a timer and without a
  new registration (`HttpData.cpp:179-181`).  In every run every half-closed connection is one that is left
  behind: open, without a timer, and with nothing waiting for EPOLLOUT (`Reactor.HalfClosedIsAbandoned`).  With
  the one-shot mask of a new connection its registration is spent and nothing happens to it any more
  (`SpentForEver`, `Exchange.AbandonedIsReachable`); with the mask for reading, behind a request that was answered
  completely, it stays armed for reading only (`AbandonedForEver`, `Exchange.AbandonedLaterIsReachable`).  Such a
  connection is closed instead exactly when no call of `handleRead` in that event left output unsent
  (`Response.LeftIffStalled`); if one did and a later one sent it, the connection is left behind with nothing to
  send (`Response.AbandonedWithNothingUnsent`).
- The stored clock starts again every 10000 seconds (`Timer.cpp:16`, `:36`).  Every end of a window puts a
  deadline off by 10000 seconds (`Timers.DeadlineMoves`, `VerdictIsRightIff`), so a node that has expired can be
  valid again (`ExpiredIsValidAgain`), and one with a deadline behind its window's end never expires
  (`NeverExpiresIff`).
- The page "hello" overwrites output that is still unsent (`HttpData.cpp:532-535`,
  `Connection.PendingOutputKeptIff`).  The response stream is the answers in order exactly when that does not
  happen (`Response.StreamIsKeptIff`), and it does happen (`Response.SecondHelloOverwrites`).
- `loop` clears `quit_` when it begins (`EventLoop.cpp:93`), so a `quit()` called before it is lost
  (`EventLoop.Loop`).
- `poll` repeats `epoll_wait` until it brings a channel (`Epoll.cpp:78-87`), and timers are looked at only behind
  it.  While no event comes no deadline is enforced, whatever the time is (`Epoll.Round`).

## Model

| member | source | states |
|---|---|---|
| HeaderGrammar.SuccessIff | HttpData.cpp:396-509 | parseHeaders answers SUCCESS exactly for the buffers that begin with a header block of the grammar it encodes |
| HeaderGrammar.AgainIff | HttpData.cpp:396-509 | it answers AGAIN exactly when no block is there yet but some continuation has one |
| HeaderGrammar.ErrorIff | HttpData.cpp:396-509 | it answers ERROR exactly when no continuation of the buffer begins with a block |
| HeaderGrammar.AgainKeeps | HttpData.cpp:507-508 | an unfinished call keeps of the buffer just what it has read of the current line, with the LF of the line before |
| HeaderGrammar.VerdictStable | HttpData.cpp:402-509 | SUCCESS and ERROR are stable under more input, with everything the scan has found |
| HeaderGrammar.BlockIsRead | HttpData.cpp:396-509 | a rendered block is read back line by line; the residue is what follows the blank line less one byte |
| HeaderGrammar.BlockIsUnique | HttpData.cpp:396-509 | no buffer is a header block in two ways, so the extracted lines are determined by it |
| HeaderGrammar.ScanReadsConsumed | HttpData.cpp:402-500 | every accepted character is accounted for: skipped breaks, stored lines and the partial line make up the text read |
| HeaderGrammar.FirstRefusal | HttpData.cpp:418-490 | an error keeps what the scan knew before the first refused character |
| HeaderGrammar.MergeIsLastWins | HttpData.cpp:463 | the stored map has exactly the keys of the lines, each with the value of its last line |
| HeaderGrammar.Completable | HttpData.cpp:402-500 | from every unfinished state of the automaton some continuation completes a block |
| HeaderGrammar.PositionsInText | HttpData.cpp:503-507 | the positions used to cut the buffer lie inside it |
| HeaderResume.TwoPiecesLikeOneIff | HttpData.cpp:396-509 | a header block that arrives in two pieces is read as in one, whatever the second piece, if and only if the first holds only line breaks |
| HeaderResume.ResumedLineIsLost | HttpData.cpp:398 | a call resumed inside a line has no start index: the line cannot be stored |
| HeaderResume.SplitBeforeBlankLine | HttpData.cpp:471-491 | a blank line that arrives alone is refused, though the whole was complete |
| HeaderResume.SplitInsideBlankLine | HttpData.cpp:398-509 | with only its LF missing the block is found, and the LF is handed on as the next request's first byte |
| HeaderResume.SplitInsideLine | HttpData.cpp:398-509 | for every split inside a line there is a continuation that one piece reads and two do not |
| RequestLine.RoundTrip | HttpData.cpp:311-394 | a printed request line gives back the rest of the buffer always, and the method, success, the file and the version if no earlier method name hides in the target; with one hidden, in a line shorter than 2 GiB, another method |
| RequestLine.NeverAgain | HttpData.cpp:316-318 | PARSE_URI_AGAIN is never answered; the buffer loses its line exactly when it holds a CR |
| RequestLine.PartOfLineIsRefused | HttpData.cpp:311-394 | a request line cut anywhere before its end is answered with ERROR |
| RequestLine.LineWithoutCrStays | HttpData.cpp:314-325 | with only its CR missing a line is accepted and stays in the buffer |
| RequestLine.MethodIsPicked | HttpData.cpp:327-347 | GET is preferred to POST and POST to HEAD, wherever in the line they stand |
| RequestLine.NameInLine | HttpData.cpp:327-329 | behind its front a printed line names a method only inside its target |
| RequestLine.QueryIsCutOff | HttpData.cpp:359-364 | the file is the part of the target before its first question mark |
| RequestLine.AcceptedIff | HttpData.cpp:327-392 | any line that names a method, well formed or not: accepted exactly when a version stands behind its slash, blank and slash, or at its beginning if one of these is missing; the file is what stands between the first two |
| RequestLine.UnnamedIsRefused | HttpData.cpp:327-347 | a line that names no method is refused |
| LostByte.BeheadedIff | HttpData.cpp:311-394 | a printed line without its first byte is accepted if and only if its target names a method with a slash at or behind the name, and then with that method, the version and the file named behind that slash |
| RequestLine.RestIsNoLonger | HttpData.cpp:320-325 | parseURI never makes the buffer longer |
| HttpRequest.RequestRoundTrip | HttpData.cpp:311-509 | printing a request of RFC 7230 and running parseURI and then parseHeaders recovers method, file, version and header lines |
| Exchange.CallIsParsed | HttpData.cpp:215-249 | on a waiting connection a complete request is parsed in one go, into the last-wins header map, and loses the first byte of what follows |
| Exchange.NextIsRead | HttpData.cpp:279-291 | behind an answered request, wherever in buffer and socket it stood, the connection waits again with the rest of the buffer, and handleRead goes on with it |
| Exchange.PipelinedIsRefused | HttpData.cpp:187-295 | of two requests sent back to back the first is answered, and the second is refused if its target can be taken for no other request, and is otherwise parsed as that other one |
| Exchange.PipelinedErrorIff | HttpData.cpp:187-295 | over the whole of handleRead, when nothing follows the second request and what it may be taken for has an answer: it ends in an error if and only if the second request can be taken for nothing |
| Exchange.MisreadOfGet | HttpData.cpp:327-364 | a second request for `/GET/x` is taken for a GET of `x` |
| Exchange.SpacedIsComplete | HttpData.cpp:187-295 | with one more byte between them the second one is complete when its turn comes |
| Exchange.HalfClosedIsLeft | HttpData.cpp:151-185 | on any waiting connection: a request followed by the end of the stream, with an answer sent in part, makes handleConn leave the connection alone |
| Exchange.AbandonedIsReachable | HttpData.cpp:179-181 | such a run exists for every printed request of that page: it ends in a connection with unsent output, without a timer, whose registration is spent |
| Exchange.HelloIsServed | HttpData.cpp:151-295 | a request of that page that is answered completely leaves the connection waiting, registered for reading |
| Exchange.AbandonedLaterIsReachable | HttpData.cpp:179-181 | and behind such a request a second one with the end of the stream ends in a connection with unsent output that is armed for reading only |
| Connection.BlockHasLength | HttpData.cpp:396-509 | a header block takes at least one byte, unless the automaton was already at its end |
| Connection.HeadersTakeInput | HttpData.cpp:233-249 | parsing headers with success shortens the buffer, the fact on which the recursion of handleRead rests |
| Connection.BlockKeeps | HttpData.cpp:190-277 | the block of handleRead leaves a connection in order, in error or finished; finished only for GET or HEAD and with fewer bytes |
| Connection.HandleReadKeeps | HttpData.cpp:187-295 | through any depth of pipelining: in error or in order, unsent output has asked for EPOLLOUT, and no byte is invented |
| Connection.ParseSectionsKeep | HttpData.cpp:215-249 | the stages only advance, and an error or a wait for input leaves a connection that can go on |
| Connection.AnswerSectionsKeep | HttpData.cpp:251-276 | the answering sections take no input and finish only what is no POST |
| Connection.HandleConnKeeps | HttpData.cpp:151-185 | it closes exactly on an error or a half-closed connection for which no handler has asked for EPOLLOUT, and registers exactly when connected and without error |
| Connection.MaskIsRearmed | HttpData.cpp:154-178 | the registered mask is EPOLLOUT when a handler has asked for it and EPOLLIN otherwise, never both and never one-shot |
| Connection.HandleEventsKeeps | HttpData.cpp:151-309 | one event completely handled keeps the connection in order or closes it, and asks for EPOLLOUT while output is unsent |
| Connection.PendingOutputKeptIff | HttpData.cpp:532-582 | an answer goes behind unsent output, if and only if it is not the page "hello" or nothing is unsent |
| Response.StreamIsKeptIff | HttpData.cpp:279-309 | over any pipelining and any partial writes of one handleRead, what was sent and what is unsent are the earlier output and the answers in order, if and only if no call answered "hello" over unsent output |
| Response.EventStreamIsKeptIff | HttpData.cpp:279-309 | the same over one event with both its read and its write handler |
| Response.ChainIsAnswered | HttpData.cpp:187-295 | any number of requests with one byte between them are answered in order in one handleRead, one call each, and the connection waits for the next |
| Response.ChainIsSentIff | HttpData.cpp:279-309 | their answers are sent or unsent completely and in that order if and only if no call answered "hello" over unsent output |
| Response.AsksIffStalled | HttpData.cpp:279-309 | handleRead asks for EPOLLOUT if and only if one of its calls left output unsent; what is unsent at its end is what the last call left |
| Response.LeftIffStalled | HttpData.cpp:151-185 | an event that finds its peer half closed leaves the connection behind instead of closing it if and only if a call of its handleRead left output unsent |
| Response.AbandonedWithNothingUnsent | HttpData.cpp:179-181 | a run exists that leaves a connection behind although all its output was sent |
| Response.SecondHelloOverwrites | HttpData.cpp:532-535 | two requests for that page with one byte in between, the first answer sent in part: what was unsent of it is never sent |
| Response.ErrorIffWrong | HttpData.cpp:187-309 | handleRead ends in an error if and only if one of its calls, at any depth of pipelining, failed to read, failed to write what there was to send, or refused what it had read |
| Response.WrongCloses | HttpData.cpp:151-309 | such an event, or one whose write handler fails, is answered with a close, and no other one carries an error |
| Response.AwaitsIffUnfinished | HttpData.cpp:284-293 | handleRead asks for EPOLLIN if and only if it has left a request half read |
| Response.TimeoutAfterRead | HttpData.cpp:153-178 | 300000 ms for a connection that is kept alive, otherwise 2000 ms while a request is half read or output was left unsent, and 150000 ms behind complete answers |
| Response.TimeoutAfterWrite | HttpData.cpp:153-178 | the same three after an event that only writes |
| Outcome.HangUpWithData | EventLoop.cpp:99-101 | with something to read a hang-up makes no difference (`Channel.h:83`) |
| Outcome.DroppedIff | EventLoop.cpp:99-101 | no handler runs exactly for an error and for a hang-up without anything to read (`Channel.h:83-92`) |
| Outcome.HeadersDecide | HttpData.cpp:233-249 | header lines that no continuation completes to a block are answered with a close; unfinished ones, and only they, are waited for, with what was read of them; both also behind a request line in the same read |
| Outcome.CompleteGoesOn | HttpData.cpp:233-249 | a complete block is merged into the stored headers, and the request goes on with what follows it less one byte |
| Outcome.RefusedLineCloses | HttpData.cpp:215-231 | a request line that parseURI refuses is forgotten and answered with a close |
| Outcome.PartOfLineCloses | HttpData.cpp:215-231 | so is a request line that arrives in part, wherever it is cut |
| Outcome.AnswerDecides | HttpData.cpp:265-276 | a complete GET or HEAD ends in an error if and only if the server has no answer to it; a file that cannot be read takes the unsent output with it, a missing one does not |
| Outcome.UnanswerableCloses | HttpData.cpp:265-276 | and then its event is answered with a close, with the same output |
| Outcome.BodyDecides | HttpData.cpp:251-263 | a POST without a length is refused, a malformed length throws, an incomplete body is waited for unchanged, and a complete one is refused |
| Outcome.PostDecides | HttpData.cpp:251-263 | the same for a POST just parsed, by the value of its last Content-length line |
| Outcome.StoiReads | HttpData.cpp:254 | std::stoi reads white space, a sign and all digits behind it, and throws outside 32 bits |
| Outcome.StoiNeedsDigit | HttpData.cpp:254 | and throws without a digit there |
| Outcome.HalfClosedOnlySends | HttpData.cpp:194-197 | a half-closed connection takes no request any more: a readable event sends, and closes it or leaves it again |
| Outcome.EndOnlySends | HttpData.cpp:207-213 | the end of the stream without data takes no request either |
| Timers.StampIsModulo | Timer.cpp:16 | the stored clock is true milliseconds modulo 10000000 |
| Timers.ExactInWindow | Timer.cpp:33-43 | as long as the clock's window has not ended a node is valid exactly until its creation time plus its timeout |
| Timers.DeadlineMoves | Timer.cpp:33-43 | at any later time: each window that has ended since its creation puts a node's deadline off by a window |
| Timers.VerdictIsRightIff | Timer.cpp:33-43 | at any later time isValid is right if and only if no window has ended, the deadline is not reached, or it lies as many windows back as have ended |
| Timers.ExpiredIsValidAgain | Timer.cpp:33-43 | a node found expired is valid at a later time |
| Timers.NeverExpiresIff | Timer.cpp:33-43 | a node is valid for ever if and only if its deadline lies behind the end of its window |
| Timers.ClearIsRemoval | Timer.cpp:45-48 | clearing a queued node is removal from the map of deadlines that the queue stands for |
| Timers.AddIsInsertion | Timer.cpp:54-58 | addTimer is insertion into that map |
| Timers.SweepIsExact | Timer.cpp:60-71 | taking dead and expired nodes off the top until a live one is found removes exactly the deadlines at or before the last reading |
| Reactor.ReachableInv | Epoll.cpp:28-117 | in every run the tables, the kernel, the timer queue and the connections agree |
| Reactor.LazyRefinesEager | Timer.cpp:54-71 | in every run the lazily cleaned queue stands for a map of deadlines that is updated at once by registering, detaching and expiry |
| Reactor.SweepClosesExpired | Timer.cpp:60-71 | a call of handleExpiredEvent anywhere in a run, with readings that do not run backwards, closes, once each, exactly the connections whose deadline is at or before its last clock reading, keeps the other deadlines, and leaves no node with such a key |
| Reactor.SweepBounds | Timer.cpp:60-71 | whatever the clock does during the call: it closes, once each, all connections due at its last reading and none whose deadline is behind all readings, and keeps the other deadlines |
| Reactor.OneTimer | Timer.cpp:54-58 | at any time at most one node holds a connection, it is the one its timer_ is linked to, and there is one exactly while the connection is open and connected |
| Reactor.CloseOnce | HttpData.cpp:614-618 | handleClose runs at most once for a connection, by expiry or otherwise, and then no table and no node knows it |
| Reactor.OpenIsSteady | HttpData.cpp:187-295 | between two events every open connection is in PARSE_URI, PARSE_HEADERS or, for a POST, RECV_BODY, without error |
| Reactor.KernelAgrees | Epoll.cpp:48-63 | in every reachable state the kernel's mask is the channel's last mask, only a one-shot mask can be disarmed, and unsent output of a connected peer waits for EPOLLOUT |
| Reactor.ArmedAfterHandleConn | HttpData.cpp:151-178 | after handleConn of a connected connection without error whose system call succeeds, the descriptor is armed for EPOLLIN or EPOLLOUT |
| Reactor.ElisionIsSound | Epoll.cpp:48-63 | wherever handleConn registers, leaving out the system call for an unchanged mask leads to the same state as making it |
| Reactor.ElidedRunIsAlwaysRun | Epoll.cpp:48-63 | the same for every event of every run whose system calls succeed |
| Reactor.OfferedIsCallable | Epoll.cpp:92-109 | in every run an event that epoll reports finds its connection and can be handled unless stoi throws |
| Reactor.LeaveAbandons | HttpData.cpp:179-181 | whatever a connection was registered for, a half-closed one that handleConn leaves alone is left behind: no timer, its old registration spent if it was the one-shot one and armed for reading otherwise |
| Reactor.HalfClosedIsAbandoned | HttpData.cpp:151-185 | in every run exactly the half-closed connections are left behind: open with a channel, no timer, nothing waiting for EPOLLOUT, registration spent or for reading only |
| Reactor.AbandonedForEver | HttpData.cpp:179-181 | unless epoll reports EPOLLIN without EPOLLERR for it, no continuation of the run closes an abandoned connection or sends its output |
| Reactor.SpentForEver | HttpData.cpp:179-181 | with a spent registration nothing at all happens to it in any continuation |
| Reactor.QuietIsHandled | Epoll.cpp:99-103 | that getEventsRequest has already cleared the channel's events makes no difference to its handlers |
| Deadline.DeadlineOfNew | HttpData.cpp:620-623 | a new connection expires after 2000 ms |
| Deadline.DeadlineAfterEvent | HttpData.cpp:151-185 | in every run a dropped event leaves the deadline alone, a registration sets it, and any other event removes it |
| Deadline.DeadlineAfterRead | HttpData.cpp:153-178 | in every run the deadline after an event with something to read, in milliseconds |
| Deadline.DeadlineAfterWrite | HttpData.cpp:153-178 | in every run the deadline after an event that only writes |
| Deadline.DeadlineAfterRequests | HttpData.cpp:520-521 | and after any number of complete requests: 300000 ms if the last Connection line of one of them, or an earlier request, asks for it, and otherwise by what was left unsent |
| Deadline.CloseIsClosed | HttpData.cpp:182-184 | in every run a close that an event asks for is carried out once, and no table or node knows the connection then |
| Deadline.WrongIsClosed | HttpData.cpp:151-309 | in every run a failed read or write, or a refused request, closes the connection with that event |
| Deadline.RefusedIsClosed | HttpData.cpp:237-242 | in every run header lines that can be completed to no block close the connection with the event that brings them |
| Deadline.DroppedIffFailed | Epoll.cpp:48-63 | in every run a registration loses its channel if and only if its mask changes and the system call fails |
| Deadline.ServedIffAdded | Epoll.cpp:28-46 | in every run a new connection gets a timer, and a channel if and only if its system call succeeds |
| Batch.BatchIsSteps | Epoll.cpp:92-109 | a poll whose events are all taken out first and then all dispatched ends in the state reached by handling them one after the other |
| Batch.TurnCommutes | EventLoop.cpp:99-101 | handling one connection and taking out the event of another one commute |
| Batch.FoundIsEnough | Epoll.cpp:95-107 | dispatching only the channels that were found is dispatching all events |
| Batch.PollExtendsRun | EventLoop.cpp:97-101 | a poll continues a run, event by event |
| Batch.IdlePoll | Epoll.cpp:78-109 | a poll that finds no channel changes nothing but registrations whose channels are gone |
| HttpData.Channel.EqualAndUpdateLastEvents | Epoll.cpp:52 | answers whether the mask is the last one, and remembers it |
| HttpData.TimerNode.constructor | Timer.cpp:6-17 | a new node holds its connection until its key |
| HttpData.TimerNode.IsValid | Timer.cpp:33-43 | valid exactly before the key; marks the node deleted otherwise |
| HttpData.TimerNode.ClearReq | Timer.cpp:45-48 | the node lets go of its connection and is deleted |
| HttpData.HttpData.constructor | HttpData.cpp:111-127 | a new connection is connected, empty and waits for a request line |
| HttpData.HttpData.SeperateTimer | HttpData.cpp:143-149 | unlinks the timer and clears its node, and touches no other |
| HttpData.HttpData.Reset | HttpData.cpp:129-141 | back to the state before a request, with buffers and connection kept |
| HttpData.HttpData.ParseURI | HttpData.cpp:311-394 | verdict, fields and remaining buffer are those of the parser whose round trip is proved |
| HttpData.HttpData.ParseHeaders | HttpData.cpp:396-509 | the loop over indices leaves the verdict, state, map and buffer of the automaton whose language is proved |
| HttpData.HttpData.AnalysisRequest | HttpData.cpp:512-590 | answers into the output buffer, or fails, by method, file name and disk |
| HttpData.HttpData.HandleWrite | HttpData.cpp:297-309 | sends a first part of the output; asks for EPOLLOUT while some is left |
| HttpData.HttpData.HandleRead | HttpData.cpp:187-295 | terminates, and leaves the connection that the recursion over values computes; an unlinked node is cleared |
| HttpData.HttpData.HandleConn | HttpData.cpp:151-185 | detaches the timer and sets the mask, and asks the loop for a registration, a close or nothing |
| HttpData.HttpData.HandleEvents | EventLoop.cpp:99-101 | `Channel::handleEvents` (`Channel.h:79-105`): runs the read, write and connection handlers by the reported bits |
| HttpData.TurnIsFeed | HttpData.cpp:402-500 | one turn of the loop is one step of the automaton, and a refusal is the final verdict |
| HttpData.LoopIsDone | HttpData.cpp:502-508 | what the loop has found when it ends is the answer of the automaton on the whole buffer |
| Epoll.Epoll.constructor | Epoll.cpp:21-25 | empty tables, the initial state of the protocol |
| Epoll.Epoll.AddTimer | Timer.cpp:54-58 | a new node in the queue, linked to its connection |
| Epoll.Epoll.EpollAdd | Epoll.cpp:28-46 | timer if there is a timeout, tables and registration of a connection; a failed call drops the channel |
| Epoll.Epoll.EpollMod | Epoll.cpp:48-63 | timer and registration, with the system call left out for an unchanged mask |
| Epoll.Epoll.EpollDel | Epoll.cpp:65-76 | ends the registration and forgets the channel and the connection |
| Epoll.Epoll.HandleClose | HttpData.cpp:614-618 | disconnects and removes from the poller |
| Epoll.Epoll.NewEvent | HttpData.cpp:620-623 | the accepting step of the protocol |
| Epoll.Epoll.GetEventsRequest | Epoll.cpp:92-109 | collects exactly the channels in the table, in order, with their bits set and their events cleared |
| Epoll.Epoll.DispatchAll | EventLoop.cpp:99-101 | the loop over the collected channels takes the turns of all their events |
| Epoll.Epoll.HandlePoll | EventLoop.cpp:97-101 | collecting and dispatching together are one poll of the protocol |
| Epoll.Epoll.PollUntilFound | Epoll.cpp:78-87 | epoll_wait is repeated exactly until it brings a channel; the waits before that change no connection, table or timer |
| Epoll.Epoll.Top | Timer.h:30-36 | some node with the least deadline |
| Epoll.Epoll.Expire | Timer.cpp:33-43 | an expired top leaves the queue and its connection is closed; a valid one stays |
| Epoll.Epoll.HandleExpiredEvent | Timer.cpp:60-71 | terminates, extends the run by expiry steps whatever the clock does, and stops with a live unexpired top or nothing; its last reading is the largest that took a node out unless the clock runs backwards |
| Epoll.Epoll.Round | EventLoop.cpp:95-105 | a round of the loop, its functors aside, extends the run by the events of all its waits and, once a wait has brought a channel, by expiry; until then nothing changes but dropped registrations |
| LoopProtocol.NoLostWakeup | EventLoop.cpp:51-122 | in every run, when the loop polls with functors pending and no thread between push and wakeup, the eventfd is readable with an edge due, and that round takes every pending functor |
| LoopProtocol.ReportsAreSignals | EventLoop.cpp:51-67 | poll reports a write to the eventfd at most once, and an edge that is still due has a write of its own |
| LoopProtocol.FlagIff | EventLoop.cpp:89-128 | the flag is set if and only if quit has been called since the loop began |
| LoopProtocol.NoLostQuit | EventLoop.cpp:89-128 | in every run, when the flag is set while the loop waits and no thread stands in front of its wakeup, the eventfd is readable with an edge due |
| LoopProtocol.QuitEndsLoop | EventLoop.cpp:89-107 | in every run poll returns at most once after a quit, and not at all unless the loop was waiting |
| LoopProtocol.Conservation | EventLoop.cpp:78-122 | executed, current batch and pending functors are the queued ones in lock order |
| LoopProtocol.FifoPerProducer | EventLoop.cpp:78-122 | what has run of a producer's functors is a first part of what it queued |
| LoopProtocol.BatchIsFixed | EventLoop.cpp:109-122 | a functor queued while a batch runs is not part of that batch |
| LoopProtocol.QueueOnLoopIff | EventLoop.cpp:85-86 | exactly in which phases the loop thread may queue without a wakeup |
| EventLoop.EventLoop.Wakeup | EventLoop.cpp:51-58 | the protocol's step: a signal on the eventfd by a thread that has pushed |
| EventLoop.EventLoop.HandleRead | EventLoop.cpp:59-67 | the protocol's step: takes all signals at once |
| EventLoop.EventLoop.Push | EventLoop.cpp:78-85 | the locked part of queueInLoop, and whether a wakeup has to follow |
| EventLoop.EventLoop.Overtaken | EventLoop.cpp:78-87 | between any two steps of the loop thread other threads take any steps they can; they only add functors, signals, themselves and quit |
| EventLoop.EventLoop.QueueHere | EventLoop.cpp:78-87 | queueInLoop on the loop thread, overtaken in front of the lock and between push and wakeup: nothing queued is lost |
| EventLoop.EventLoop.RunBatch | EventLoop.cpp:117-119 | exactly the functors of the batch run, in order, whatever is queued meanwhile; what each of them queues is pending, and a quit among them is seen |
| EventLoop.EventLoop.DoPendingFunctors | EventLoop.cpp:109-122 | all that was pending before has run, executed and pending functors are the queued ones in order, and what the functors queue is pending, whatever other threads do |
| EventLoop.EventLoop.Round | EventLoop.cpp:95-105 | everything pending before the round or queued by its handlers has run when it ends, and pending functors have a signal due unless a thread is between its push and its wakeup, whatever other threads do |
| EventLoop.EventLoop.Quit | EventLoop.cpp:124-129 | sets the flag; another thread then stands in front of its wakeup |
| EventLoop.EventLoop.QuitIsDue | EventLoop.cpp:124-129 | at the object: with the flag set while the loop waits and nobody in front of a wakeup, poll can return the eventfd |
| EventLoop.EventLoop.Loop | EventLoop.cpp:89-107 | the flag is set at its end if and only if another thread, a handler or a functor has called quit since it began; then it ends with that very round; a call before that is lost; after one round all that was pending has run |
| LogProtocol.ReachableInv | base/AsyncLogging.cpp:25-109 | the invariant across producers and consumer: the next buffer is there exactly while no full one waits, so only a second hand-over between two swaps allocates |
| LogProtocol.AssertsNeverFail | base/AsyncLogging.cpp:60-105 | no assert of the consumer fails in any run, and the consumer is never stuck |
| LogProtocol.Conservation | base/AsyncLogging.cpp:25-109 | as long as nothing was cut, file, unwritten batch, full buffers and current buffer are the accepted lines in lock order |
| LogProtocol.FileIsSubsequence | base/AsyncLogging.cpp:59-109 | always, the file holds the kept first parts of all batches and the written buffers of the present one, which is a subsequence of whole accepted lines in order |
| LogProtocol.LossBound | base/AsyncLogging.cpp:28-83 | whichever avail() answers, with lines of at most L < N bytes a cycle that cuts has taken at least 25 * (N - L) bytes since the previous swap; with the guard as written none cuts |
| LogProtocol.LossIff | base/AsyncLogging.cpp:28-83 | with the guard as written: a cycle cuts if and only if at least 25 lines of a whole buffer's size or more came since the previous swap |
| LogProtocol.GuardIsRoomCheckIff | base/AsyncLogging.cpp:28 | the guard as written (`FixedBuffer::avail`, `base/LogStream.h:26`) is a room check exactly for an empty buffer |
| LogProtocol.InBoundsIff | base/AsyncLogging.cpp:25-83 | with the guard as written, in every run and interleaving: no buffer is ever written behind its end if and only if at no time more than N bytes were appended since the current buffer was handed over, by the swap or by a line of N bytes or more |
| LogProtocol.TwoLinesOverflow | base/AsyncLogging.cpp:25-47 | two lines that fit each, but not together, are written behind the end |
| AsyncLogging.AsyncLogging.constructor | base/AsyncLogging.cpp:8-23 | four distinct empty buffers, the initial state of the protocol |
| AsyncLogging.AsyncLogging.Append | base/AsyncLogging.cpp:25-47 | the producer's step, with no buffer object shared |
| AsyncLogging.AsyncLogging.SwapOut | base/AsyncLogging.cpp:64-77 | the consumer's critical section moves and swaps the buffer objects without aliasing |
| AsyncLogging.AsyncLogging.CutDown | base/AsyncLogging.cpp:81-83 | a batch of more than 25 buffers keeps its first two |
| AsyncLogging.AsyncLogging.WriteOne | base/AsyncLogging.cpp:85-87 | the next buffer goes to the file, as much of it as the disk takes; so at any time the file is a first part of each written buffer in order, each whole if the disk always takes something |
| AsyncLogging.AsyncLogging.GiveBack | base/AsyncLogging.cpp:89-107 | drained buffers become the spares again, empty and distinct |
| FileUtil.StoredWholeIff | base/FileUtil.cpp:19-36 | a line is stored whole if and only if the first call and some retries, none of which takes nothing, take enough |
| FileUtil.WillingStoresWhole | base/FileUtil.cpp:19-36 | a disk that always takes something stores every line whole |
| FileUtil.AppendFile.Append | base/FileUtil.cpp:19-36 | the file grows by a first part of the line, in order, without gaps or repeats |
| FileUtil.Retry | base/FileUtil.cpp:23-33 | the retry loop ends and never stores more than is left |
| LogStream.DecimalRoundTrip | base/LogStream.cpp:12-30 | the decimal text is canonical and reads back as the value, for negative values too |
| LogStream.CanonicalRoundTrip | base/LogStream.cpp:12-30 | every canonical text is the text of its value |
| LogStream.DecimalLength | base/LogStream.cpp:35-41 | values of 64 bits, signed or unsigned, need at most 20 characters |
| LogStream.TableIsDigits | base/LogStream.cpp:9-10 | the symmetric table, character by character |
| LogStream.ShiftDigit | base/LogStream.cpp:17-21 | with truncating division the k-th remainder is the k-th digit from the end, and the loop stops exactly behind the last |
| LogStream.WriteDigits | base/LogStream.cpp:14-21 | the do-while loop writes the digits backwards and never leaves the range of its type, also at the minimum |
| LogStream.Reverse | base/LogStream.cpp:28 | the in-place reverse turns the slice around and touches nothing else |
| LogStream.Convert | base/LogStream.cpp:12-30 | the array holds the decimal text, closed by a NUL, and nothing else has changed |
| LogStream.FormatInteger | base/LogStream.cpp:35-41 | the text is appended to the buffer, and stays inside the array if and only if it and its NUL fit behind what is there |

## Left out

- RequestLine.RoundTrip: in lines of 2 GiB and more a position can be negative as an `int`; which method is picked there when an earlier name is hidden in the target is not stated, nor is LostByte.BeheadedIff for such lines.
- Exchange.PipelinedIsRefused: for one read that takes everything and a first request that is answered.
- Reactor.ElidedRunIsAlwaysRun: for system calls that succeed; after a failed one the channel is dropped in one form and not called in the other.
- Reactor.SweepClosesExpired: readings of one call do not run backwards, which holds inside one clock window; across its end the statement is Reactor.SweepBounds.
- LogProtocol.Conservation: about the lines as they were appended; what an array really holds in a run that left its bounds (LogProtocol.InBoundsIff) is not modelled.
- Epoll.Epoll.EpollAdd: the channel of the eventfd, which has no connection behind it, is part of LoopProtocol only.
- Epoll.Epoll.EpollDel: EPOLL_CTL_DEL takes the registration away in any case; the call can fail only for a descriptor that has none.
- Epoll.Epoll.Round: the functors of the round and the connections that they bring are separate steps, in EventLoop and in Epoll.NewEvent; a wakeup through the eventfd, which also ends the wait, is part of LoopProtocol only.
- HttpData.HttpData.HandleConn: its call back into the loop is the request that it returns, carried out by Epoll.Apply; runInLoop calls at once on the loop's own thread.
- Headers extracted by a resumed call whose start index is lost: the resulting map is a parameter, any map at all.
- Reuse of descriptor numbers: identities are used once.
- Reference counts: weak pointers are plain links, and a connection object that nobody holds is simply not used any more.
- `TimerNode::update` and the copy constructor of `TimerNode`, which have no caller.
- Texts of answers and error pages, MIME types, `stat` and `mmap`: the header text and the file's contents are parameters; error pages go straight to the socket.
- Writes that return 0, and `EINTR`: a read or write moves some number of bytes and then stops or fails.
- An exception of `std::stoi` for a malformed Content-length ends the run; how the process ends is not modelled.
- Shutdown of the logger: the consumer's exit leaves the full buffers and the current one unwritten; what a write behind a buffer's end destroys is not modelled, the bytes are kept as a sequence and its reach is recorded.
- Timing of condition variables: a producer's notify and the consumer's timeout only decide when the consumer's step happens.
- The flags `looping_` and `eventHandling_`, which guard nothing but an assert.
- Floating point formatting, log time stamps, log file rolling, the accept loop, options, the thread pool and the test client.
