# Verified models of Linux system programs

Dafny models of the programs in this repository whose correctness depends on the order of a few
system calls, with proofs about every run, every input or every initial state.

| file | program |
|---|---|
| `Runs.dfy` | runs of a step machine: invariants, bounds on the length of runs |
| `MessageQueue.dfy`, `NotifyThread.dfy`, `NotifySignal.dfy` | the two `mq_notify()` readers |
| `SigioLoop.dfy` | signal-driven terminal input |
| `Grants.dfy`, `FifoServer.dfy`, `FifoProtocol.dfy` | the sequence number server and clients over FIFOs |
| `LineReader.dfy`, `Lines.dfy`, `DecimalText.dfy`, `TcpSeqnum.dfy` | `readLine()`, its text format, and the TCP server and client |
| `EpollInput.dfy` | the epoll loop |
| `Descriptors.dfy`, `PipeLsWc.dfy`, `BecomeDaemon.dfy` | descriptor tables, the `ls \| wc -l` pipeline, `becomeDaemon()` |
| `SimplePipe.dfy`, `PipeSync.dfy` | a pipe from parent to child, and a barrier made from a pipe |
| `InotifyWalk.dfy` | the walk over a buffer of inotify events |

## How the models are built

Programs that share state with others (processes, threads, signal handlers, the kernel) are step
machines. `State` holds each process's place in its program and the kernel objects it uses, `Step`
names the atomic steps, `Enabled` says when a step does not block, and `Apply` is what it does,
failure branches included. `Runs.IsRun` is any interleaving of such steps from a start; theorems about
`Last(run)` are about every reachable state, since every prefix of a run is a run. Fields such as
`sent`, `received`, `written` and `arrived` are histories that no step reads. `Runs.IsTrace` is a run
with the names of its steps, and every run has one (`Runs.StepsOf`); what was sent, typed or written is
also read off those names, so that the theorems about it do not rest on the histories.

Code that works alone is imperative: `readLine()`, the server loops, the client's half of the TCP
exchange, the descriptor shuffles, `becomeDaemon()` and the inotify walk are methods over classes and
arrays, and each method is proved against a function or predicate whose own properties are proved
as lemmas.

Some machines carry a switch for one call of the program (drain before re-registering, the server's
extra descriptor, the close of an unused pipe end). The program's setting is named where the switch
is declared. The theorems about it say that the program works if and only if the switch is set as
the program sets it.

## What is assumed of the system

- `mq_send()`, `mq_receive()` and `mq_notify()` behave as in IEEE Std 1003.1: a notification fires only
  when a message arrives on an empty queue, and uses the registration up; receiving takes the oldest
  message of the highest priority. Nobody else receives from the queue or sends SIGUSR1.
- `fork()` succeeds where the program does not handle its failure (the pipe programs), and the
  process ID it gives to a child is not in use as a process, process group or session ID.
- Opening a FIFO for reading waits for a writer and the other way round; requests to the FIFO server
  are written and read whole (they are shorter than PIPE_BUF). No client is killed and no FIFO is
  left over.
- Each descriptor of the epoll loop is the only reader of its FIFO; a FIFO without a reader cannot be
  opened for writing.
- inotify returns whole records in native, least-significant-byte-first order.
- Bytes on a stream socket arrive in order; reads may be interrupted at any point, and the model of a
  descriptor ends in end of file once its outcomes are used up.

## Where the code differs from what it says or seems to promise

Each of these is stated as an if-and-only-if in the model.

- Both `mq_notify()` readers strand messages that are in the queue when the program registers first:
  `NotifyThread.NeverStrandedIffStartedEmpty`, `NotifySignal.NeverStrandedIff`.
- The TCP server's opening comment lets the client take the number it reads as the start of its range.
  The counter is unsigned but is printed with `%d`, so from 2^31 on the text is negative:
  `DecimalText.CounterLineExactIff`. It is right modulo 2^32 throughout.
- The TCP client accepts part of a reply as the whole: `TcpSeqnum.ReplyWholeIffWritten`.
- Ranges granted by the TCP server repeat once more than 2^32 numbers have been granted:
  `TcpSeqnum.GrantsDisjointIff`.
- `readLine()` with a buffer of one byte returns 0 for lines that are not empty:
  `Lines.ZeroMeansEndIffRoom`.
- The comment in the epoll loop says that outstanding input is consumed before a descriptor is closed.
  That needs writers that do not come back after hanging up: `EpollInput.NeverLostIff`.

## Model

| member | source | states |
|---|---|---|
| MessageQueue.ReceiveKeepsOrder | posix_message_queues/mq_notify_thread.c:38-39 | Receiving takes the first message of its priority and leaves the sequence of every other priority unchanged |
| MessageQueue.AccountedIsExactlyOnce | posix_message_queues/mq_notify_thread.c:38-44 | If, priority by priority, what was received is what was sent, then each message sent was received exactly once |
| NotifyThread.StepKeepsInv | posix_message_queues/mq_notify_thread.c:36-60 | Each send, re-registration, receive and EAGAIN keeps the invariant, and the handlers' remaining work is paid for by four units per message sent |
| NotifyThread.RegistrationNeverFails | posix_message_queues/mq_notify_thread.c:49-61 | With any number of handlers, registrations held plus handlers about to register is exactly one, so mq_notify() never fails and the process never exits |
| NotifyThread.NoLostWakeup | posix_message_queues/mq_notify_thread.c:36-44 | In every reachable state a queue that is not empty has a handler that has not yet seen EAGAIN |
| NotifyThread.ReceivedInOrder | posix_message_queues/mq_notify_thread.c:38-39 | At every moment, for each priority, the messages of it received so far followed by those of it still queued are those of it sent, in order |
| NotifyThread.ReceivesHighestFirst | posix_message_queues/mq_notify_thread.c:38-39 | Between any two states of a run with nothing sent in between, messages come out by falling priority, and none left in the queue has a higher priority than one that came out |
| NotifyThread.SentIsWhatWasSent | posix_message_queues/mq_notify_thread.c:38-39 | The messages accounted for are those of the send steps of the run, in order, and those there at the start |
| NotifyThread.AllReceivedOnceFinished | posix_message_queues/mq_notify_thread.c:36-47 | When all handlers have finished, the queue is empty, a registration is held, and every message sent was received exactly once |
| NotifyThread.HandlersNeverBlock | posix_message_queues/mq_notify_thread.c:36-47 | A handler that has not finished can always take its next step, whatever the others do |
| NotifyThread.RunsAreBounded | posix_message_queues/mq_notify_thread.c:36-47 | A run in which k messages are sent has at most 4k steps |
| NotifyThread.LeftoverIsNeverRead | posix_message_queues/mq_notify_thread.c:72-79 | If the queue holds a message at the first registration, no handler is ever started and nothing is ever received, whatever is sent later |
| NotifyThread.NeverStrandedIffStartedEmpty | posix_message_queues/mq_notify_thread.c:72-79 | No reachable state strands a message if and only if the queue is empty at the first registration |
| NotifySignal.StepKeepsInv | posix_message_queues/mq_notify_signal.c:86-101 | The notification is always in exactly one place (registered, pending, or about to be registered), and the loop's remaining work is paid for by five units per message |
| NotifySignal.AsleepMeansAllReceived | posix_message_queues/mq_notify_signal.c:86-101 | Whenever the program is in sigsuspend() with no signal pending it is registered, the queue is empty, and all messages were received once and in order |
| NotifySignal.ReceivesHighestFirst | posix_message_queues/mq_notify_signal.c:93-94 | As for the threads: with nothing sent in between, messages come out by falling priority and none with a higher one stays behind |
| NotifySignal.SentIsWhatWasSent | posix_message_queues/mq_notify_signal.c:93-94 | The messages accounted for are those of the send steps of the run, in order, and those there at the start |
| NotifySignal.RegistrationNeverFails | posix_message_queues/mq_notify_signal.c:79-92 | mq_notify() in the loop never finds a registration, and no notification is merged with a signal already pending |
| NotifySignal.ReachesSleep | posix_message_queues/mq_notify_signal.c:86-101 | The program is asleep or can take a step, and a run with k messages has at most 5k steps |
| NotifySignal.DrainFirstStrands | posix_message_queues/mq_notify_signal.c:89-95 | With the two calls in the other order, a run that strands a message |
| NotifySignal.NeverStrandedIff | posix_message_queues/mq_notify_signal.c:79-101 | No message is ever stranded if and only if the program registers before it drains and the queue is empty at the first registration |
| SigioLoop.StepKeepsInv | alternative_io/demo_sigio.c:22-25 | Handler, test, clear, read and typing, in any interleaving, keep the invariant |
| SigioLoop.PrintsOnlyUpToHash | alternative_io/demo_sigio.c:63-79 | In every run what is printed is a prefix of the input up to and including its first '#' |
| SigioLoop.ExitPrintsAll | alternative_io/demo_sigio.c:63-79 | The loop ends only with the whole input up to the first '#' printed and at most one more character consumed |
| SigioLoop.UnreadIsSignalled | alternative_io/demo_sigio.c:67-78 | Unread input while the loop is not draining implies that the flag is set or a SIGIO is pending |
| SigioLoop.TypedIsAccountedFor | alternative_io/demo_sigio.c:63-79 | Whatever the steps of a run, what was printed, swallowed and is unread make up the characters typed, in order, and what was printed is a prefix of them up to the first '#' |
| SigioLoop.ReadsOnlyWhenSignalled | alternative_io/demo_sigio.c:64-68 | Started with no signal, the loop does not go to read before something has been typed |
| SigioLoop.CanPrintAll | alternative_io/demo_sigio.c:63-79 | Every run can be continued by the program's own steps until all that was typed, up to '#', is printed |
| Grants.TileAt | pipes_and_fifo/fifo_seqnum_server.c:65-71 | The i-th of a series of grants starts at the sum of the lengths before it |
| Grants.DisjointIffTotalFits | sockets/net_stream_sock_seqnum_server.c:136-141 | Consecutive grants from a 32-bit counter are pairwise disjoint as sets of residues if and only if their total is at most 2^32 |
| Grants.CoversIsElement | sockets/net_stream_sock_seqnum_server.c:136-141 | The test for membership in a grant on the circle agrees with counting up from its start |
| FifoServer.FifoNamesDiffer | pipes_and_fifo/fifo_seqnum.h:7-9 | Clients with different process IDs have different FIFOs |
| FifoServer.SeqnumServer.FormatName | pipes_and_fifo/fifo_seqnum_server.c:57 | The name of every client's FIFO fits its buffer and is printed in full |
| FifoServer.SeqnumServer.Run | pipes_and_fifo/fifo_seqnum_server.c:50-72 | The loop makes one attempt for each request whose FIFO opens, on that requester's own FIFO, with grants that tile from the counter on, and leaves the counter at the end of the last |
| FifoServer.AttemptsTile | pipes_and_fifo/fifo_seqnum_server.c:64-71 | With no negative length and a total of at most INT_MAX the counter never overflows, and a number is offered to exactly one client if it is below the final counter and to none otherwise |
| FifoServer.AbandonedTurnsChangeNothing | pipes_and_fifo/fifo_seqnum_server.c:51-62 | A bad read, or a client FIFO that cannot be opened, leaves all other grants as they would have been |
| FifoServer.OtherTurnsAreAttempted | pipes_and_fifo/fifo_seqnum_server.c:56-71 | Every request whose FIFO opens is attempted, after those of the turns before it and before those of the turns after it |
| FifoServer.AttemptIs | pipes_and_fifo/fifo_seqnum_server.c:57-71 | The attempt made for a request is on the FIFO named after its process ID, for the length it asks for, from the counter its turn finds |
| FifoProtocol.ClientStepKeepsInv | pipes_and_fifo/fifo_seqnum_client.c:36-77 | Each client step keeps the invariant that ties every client's phase and FIFO to the server's place |
| FifoProtocol.ServerStepKeepsInv | pipes_and_fifo/fifo_seqnum_server.c:24-72 | Each server step keeps that invariant |
| FifoProtocol.AnswerIsOwn | pipes_and_fifo/fifo_seqnum_client.c:64-77 | A client that finishes printed the answer to its own, only request: the sum of the lengths of the requests that arrived before it |
| FifoProtocol.AnswersAreDisjoint | pipes_and_fifo/fifo_seqnum_server.c:64-71 | With no negative length, the ranges of any two clients that have finished are disjoint |
| FifoProtocol.NothingGoesWrong | pipes_and_fifo/fifo_seqnum_server.c:38-69 | In every interleaving the client's FIFO exists when the server opens it and has a reader when it writes, and neither the server nor any client reads end of file |
| FifoProtocol.NeverStuck | pipes_and_fifo/fifo_seqnum_client.c:53-74 | Unless all clients are done and the server waits for the next one, some process can take a step |
| FifoProtocol.RunsAreBounded | pipes_and_fifo/fifo_seqnum_server.c:50-72 | With n clients no run has more than 13n + 4 steps |
| FifoProtocol.RestMeansAnswered | pipes_and_fifo/fifo_seqnum_client.c:53-77 | At rest each client has finished with its answer, or came before the server had made its FIFO; all requests are answered and the counter is their total |
| FifoProtocol.ServeAll | pipes_and_fifo/fifo_seqnum_server.c:50-72 | Once the server has made its FIFO and no client has failed, any run can be continued until every client is served |
| FifoProtocol.NeverEofIffDummy | pipes_and_fifo/fifo_seqnum_server.c:37-42 | With any client at all, the server never reads end of file if and only if it holds its own FIFO open for writing |
| LineReader.ReadLine | sockets/read_line.c:5-46 | Result, errno, what is left to read, and every byte of the buffer, for any finite series of bytes, interrupts, ends of file and errors: the start of the line that fits, one NUL after it on success, nothing written elsewhere, and nothing at all on a return of 0 with room for a byte; and a null or empty buffer |
| Lines.InterruptsAreInvisible | sockets/read_line.c:23-27 | A call reads the same line, ends the same way and leaves the same rest as on the stream without its interrupted reads |
| Lines.WithoutInterruptsConcat | sockets/read_line.c:24-25 | The stream without its interrupted reads has every other outcome, in order |
| Lines.DataOfBytes | sockets/read_line.c:20-42 | The data of a stream that brings a text byte by byte, interrupted anywhere, is that text |
| Lines.StopsAtFirstEnd | sockets/read_line.c:20-42 | A call consumes through the first newline, end of file or error, and no further, and ends in the way which that outcome says; its line is the bytes it consumed |
| Lines.ZeroMeansEndIffRoom | sockets/read_line.c:28-37 | A return of 0 always means that there was nothing to read if and only if the buffer has more than one byte |
| Lines.SplitLosesNothing | sockets/read_line.c:39-40 | The reference division of a text into lines puts together to the text |
| Lines.CallsReturnLines | sockets/read_line.c:34-45 | Repeated calls return the lines of the stream in order, each cut to n - 1 bytes |
| Lines.CallsExactIffLinesFit | sockets/read_line.c:34-45 | Repeated calls return exactly the lines of the stream if and only if each is shorter than the buffer |
| DecimalText.AtoiReadsDecimal | sockets/net_stream_sock_seqnum_server.c:130 | atoi() of what "%d" prints for any integer is that integer, whatever follows that is not a digit |
| DecimalText.AtoiReads | sockets/net_stream_sock_seqnum_server.c:130 | What atoi() makes of any text: white space is skipped, one sign is taken, and the digits up to the first other byte denote the number position by position |
| DecimalText.AtoiStopsAtNul | sockets/net_stream_sock_seqnum_server.c:130 | What is left in the buffer after the NUL from an earlier request does not affect atoi() |
| DecimalText.CounterLineDenotesCounter | sockets/net_stream_sock_seqnum_server.c:136 | For every 32-bit counter the reply denotes it modulo 2^32, has at most 12 bytes, and one newline, at its end |
| DecimalText.CounterLineExactIff | sockets/net_stream_sock_seqnum_server.c:136 | The reply denotes the counter itself if and only if it is at most INT_MAX, and is negative beyond |
| TcpSeqnum.SeqnumServer.FormatCounter | sockets/net_stream_sock_seqnum_server.c:136 | Printing the counter into the buffer of 30 bytes cuts nothing off |
| TcpSeqnum.SeqnumServer.ServePeer | sockets/net_stream_sock_seqnum_server.c:111-145 | A peer that cannot be accepted or read, that sends nothing, or that asks for a negative length is sent nothing and changes nothing; one that asks for a length of zero or more is sent what write() takes of the line for the counter, which moves on by that length modulo 2^32 even if the write fails |
| TcpSeqnum.SeqnumServer.Run | sockets/net_stream_sock_seqnum_server.c:108-146 | The accept loop serves the connections in order, skipping bad requests, until one cannot be closed |
| TcpSeqnum.SkippedPeersChangeNothing | sockets/net_stream_sock_seqnum_server.c:113-134 | The counter, the grants and the replies of a run are the same without a peer that is silent or asks for a negative length |
| TcpSeqnum.OtherPeersAreGranted | sockets/net_stream_sock_seqnum_server.c:130-145 | A peer that asks for a length of zero or more is granted exactly that, after those before it, and those after it are served unless its connection cannot be closed |
| TcpSeqnum.ServingTiles | sockets/net_stream_sock_seqnum_server.c:136-141 | The counter is the initial value plus the sum of the lengths granted, modulo 2^32, and each grant starts where the last one ended |
| TcpSeqnum.RepliesMatchGrants | sockets/net_stream_sock_seqnum_server.c:136-139 | What is written on each connection is what gets through of the line for the start of its own grant |
| TcpSeqnum.GrantsDisjointIff | sockets/net_stream_sock_seqnum_server.c:108-146 | Over any run the numbers granted are pairwise disjoint modulo 2^32 if and only if at most 2^32 were granted, whether or not replies got through |
| TcpSeqnum.Ask | sockets/net_stream_sock_seqnum_client.c:58-80 | The client's half: what is sent, each way it can fail, and what it prints |
| TcpSeqnum.RequestRoundTrip | sockets/net_stream_sock_seqnum_client.c:58-67 | Every int sent as decimal reaches the server as that number, however its reads are interrupted: a length from 0 to INT_MAX is what the server grants, and a negative one is skipped |
| TcpSeqnum.ReplyRoundTrip | sockets/net_stream_sock_seqnum_client.c:69-80 | The client reads the whole reply, and its number is the counter modulo 2^32, however its reads are interrupted |
| TcpSeqnum.ReplyWholeIffWritten | sockets/net_stream_sock_seqnum_client.c:69-80 | The client prints what was granted if and only if the server's write took the whole line; otherwise it prints a part without noticing |
| EpollInput.StepKeepsInv | alternative_io/epoll_input.c:59-100 | Each wait, read, close and act of a writer keeps the invariant, for any choice of ready entries and any snapshot still being handled |
| EpollInput.BytesAreConserved | alternative_io/epoll_input.c:81-98 | Per descriptor, bytes delivered and bytes buffered are the bytes written; numOpenFds counts the open descriptors; none is closed twice |
| EpollInput.WritesAreConserved | alternative_io/epoll_input.c:81-86 | Whatever the steps of a run, the bytes delivered from a descriptor and those still buffered are what was there at the start and the data of all writes to it, in order |
| EpollInput.ClosedMeansDelivered | alternative_io/epoll_input.c:88-98 | If writers do not come back, a closed descriptor has no writers and all that was written to it was delivered |
| EpollInput.LoopEndsWithAllDelivered | alternative_io/epoll_input.c:59-102 | When the loop ends every byte ever written has been delivered, in order |
| EpollInput.ReopenLoses | alternative_io/epoll_input.c:62-98 | A run in which a writer that comes back between epoll_wait() and close() loses a byte |
| EpollInput.NeverLostIff | alternative_io/epoll_input.c:88-98 | No run loses a byte if and only if writers do not come back |
| EpollInput.LoopTerminates | alternative_io/epoll_input.c:57-101 | Once all writers have gone the loop ends within a bound set by the bytes buffered and the descriptors open |
| Descriptors.LowestFree | pipes_and_fifo/pipe_ls_wc.c:26 | New descriptors are the lowest numbers not in use |
| PipeLsWc.RunLs | pipes_and_fifo/pipe_ls_wc.c:36-52 | From any table, when the first child reaches its exec and which table it then has |
| PipeLsWc.RunWc | pipes_and_fifo/pipe_ls_wc.c:67-83 | From any table, when the second child reaches its exec and which table it then has |
| PipeLsWc.Pipeline | pipes_and_fifo/pipe_ls_wc.c:26-102 | For every initial table the parent gets its own table back, ls differs from it only in standard output and wc only in standard input |
| PipeLsWc.OnlyTheirEnds | pipes_and_fifo/pipe_ls_wc.c:36-102 | In these tables descriptor 1 of ls is the only write end and descriptor 0 of wc the only read end |
| PipeLsWc.StepKeepsInv | pipes_and_fifo/pipe_ls_wc.c:31-111 | Call by call, in any interleaving of the three processes, every table is the one expected and every byte is accounted for |
| PipeLsWc.NothingIsLost | pipes_and_fifo/pipe_ls_wc.c:31-111 | In every interleaving no call fails, ls never lacks a reader, and bytes counted plus bytes in the pipe are the bytes written |
| PipeLsWc.WritesAreConserved | pipes_and_fifo/pipe_ls_wc.c:31-111 | Whatever the steps of a run, the bytes counted and those in the pipe are the data of all writes of ls, in order |
| PipeLsWc.EndsInEveryRun | pipes_and_fifo/pipe_ls_wc.c:36-102 | In every interleaving, ls once it runs, wc once it runs and the parent once it waits have the old table but for standard output, standard input and nothing |
| PipeLsWc.EofExactly | pipes_and_fifo/pipe_ls_wc.c:95-102 | wc is never at end of file before ls has exited with everything counted, and once the parent has closed its ends it is exactly then |
| PipeLsWc.WcCountsEverything | pipes_and_fifo/pipe_ls_wc.c:67-113 | wc ends only after counting every byte that ls wrote |
| PipeLsWc.RunsToTheEnd | pipes_and_fifo/pipe_ls_wc.c:31-113 | Until all three processes have exited one of them can take a step, and runs are bounded by the bytes written |
| BecomeDaemon.CloseAll | daemons/become_daemon.c:54-55 | The loop closes exactly the descriptors below its bound |
| BecomeDaemon.ReopenStdFds | daemons/become_daemon.c:58-69 | When the standard descriptors can be reopened, and that all three then share one description |
| BecomeDaemon.Daemonize | daemons/become_daemon.c:23-72 | For every caller and flags, 0 is returned exactly when the forks and, unless flag 0x4 is set, /dev/null work; then the process leads no session, has no terminal, and each descriptor, the mask (flag 0x8) and the directory (flag 0x1) are what the flags ask for; setsid() never fails |
| BecomeDaemon.DaemonFdsAre | daemons/become_daemon.c:49-69 | Descriptor by descriptor, over the bits of the flags and the limit or 8192: /dev/null, closed or unchanged |
| SimplePipe.TextIsConserved | pipes_and_fifo/simple_pipe.c:45-77 | At every moment printed, in the pipe and unsent make up the string, for any capacity and any pieces |
| SimplePipe.NeverStuckIffChildCloses | pipes_and_fifo/simple_pipe.c:46-53 | For every string and capacity there is no deadlock if and only if the child closes its write end |
| SimplePipe.EndsWithText | pipes_and_fifo/simple_pipe.c:45-77 | Runs are bounded, and one that has ended has printed the string and a newline |
| PipeSync.WriteEndsAreCounted | pipes_and_fifo/pipe_sync.c:34-67 | Open write ends are the parent's, while open, and one for each child not yet closed |
| PipeSync.BarrierHolds | pipes_and_fifo/pipe_sync.c:40-73 | When the parent passes, each of the n children has done its work at some earlier step of the run and has closed its end |
| PipeSync.AlwaysPassesIffParentCloses | pipes_and_fifo/pipe_sync.c:63-73 | For every n the barrier can always be reached if and only if the parent closes its own write end |
| PipeSync.RunsAreBounded | pipes_and_fifo/pipe_sync.c:34-73 | With n children no run has more than 5n + 3 steps |
| InotifyWalk.WordRoundTrip | inotify/inotify_demo.c:92 | A 32-bit word of a header reads back as it was packed |
| InotifyWalk.StepOver | inotify/inotify_demo.c:92-95 | At a record boundary the program reads the event packed there, and its cursor moves to the next boundary |
| InotifyWalk.Walk | inotify/inotify_demo.c:91-96 | For any list of events packed by one read, the walk recovers the list, visits each boundary once in order, stops exactly at numRead, and terminates |
| InotifyWalk.StartOfIsPackedLength | inotify/inotify_demo.c:95 | The boundaries visited are where the packed form of the events before them ends |
| InotifyWalk.PackInjective | inotify/inotify_demo.c:91-96 | The packed form determines the events |
| InotifyWalk.Monitor | inotify/inotify_demo.c:76-97 | Reading and walking in turn, the program sees the queued events in order up to the first whose record does not fit the buffer |
| InotifyWalk.AllSeenIffAllFit | inotify/inotify_demo.c:41-46 | It sees all of them if and only if every record fits the buffer |
| InotifyWalk.FileNamesFit | inotify/inotify_demo.c:41 | The buffer holds ten records with the longest file names |

## Left out

- Address lookup, binding, connecting, and the printing of peer names: the TCP model starts at `accept()` and at a connected client.
- Numbers that do not fit an int: C does not define `atoi()` for them, so the TCP model lets each connection choose what it yields.
- Overflow of the FIFO server's signed counter is undefined in C; `FifoServer.SeqnumServer.Run` requires that it does not happen, and `FifoServer.AttemptsTile` gives a sufficient condition.
- FifoProtocol.AnswerIsOwn: the counter is an unbounded integer there, because overflow is dealt with in `FifoServer`.
- Clients that are killed, process IDs used again and FIFOs left by earlier runs; with them the FIFO server can wait for ever in an open.
- Failures of `fork()` in the pipe programs, which the code lets fall through into the child's branch.
- Limits on the length of a message queue and of the FIFO server's FIFO: senders may be made to wait, which removes runs and adds none.
- Buffer allocation, `mq_getattr()` and thread creation in the handlers.
- Interrupted `epoll_wait()` calls are steps that change nothing; the bound on the epoll loop counts the others.
- The busy-wait counter of the signal-driven loop, and terminal flags other than the flush of input.
- The text that programs print about themselves, timing, file permissions and the umask of the FIFO programs.
- The programs that make one or two calls and print the result (semaphores, shared memory, mappings, users and groups, system information, time), and unfinished files.
