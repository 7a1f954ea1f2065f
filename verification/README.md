# Flight reservations: a verified model

A flight-reservation server and its clients, written in C, exchange datagrams over
interchangeable IPC back ends. This project models two of the back ends (System V shared memory
with semaphores, System V message queues), the SQLite layer, the client's command parser and the
byte layout of the answers, and the local client that opens the database itself under a file
lock. It proves what these protocols keep over whole runs, with any number of processes taking
their steps in any order.

`dafny verify dfyconfig.toml` checks everything. The files build on one another in this order:

- **The specification.** `Types` holds requests and replies. `Tables` is the sequential
  specification: `Apply` gives the tables and the reply after one command, `After` and `ReplyAt`
  fold it over a sequence of commands. Every other part is compared with it.
- **The database.** `Database` is the connection: durable tables, working tables, transaction
  flag, and a class whose methods are the functions of `server/db/database.c`. `Durability` says
  what is in the file after any commands and exits. A purchase of a missing flight returns
  between BEGIN and END, so the file lags behind the answers until the next sale. `History`
  tells the tables, the file and every reply from the list of commands alone.
- **The shared-memory handshake.** `Semaphores` are System V semaphores with undo on down only.
  `Rendezvous` is the step model of STEP-0 to STEP-3: one step per semaphore operation or access
  to shared memory, for the parent, its children and any number of clients; `Effects` says what
  each step changes. `Admission` holds in all runs, with processes that end at any point.
  `Handshake` and `Completion` are the correctness of orderly runs: no process ends inside its
  own handshake, nor, during a round, a client whose down of SEM_SERVER is still to be reset;
  nobody attaches while the public page carries something unread; STEP-0 comes after the
  parent's reset and in nobody else's round. `Disorder` shows what a single violation costs
  where nobody ends: the client of the round is never paired, whatever else happens.
  `Witnesses` has the runs that lead there and those in which the end of a process is what does
  the harm.
- **The private channel.** `Channel` is the ping-pong of one connection after the handshake;
  `Shmem` is its code on bytes; `Bytes` and `Wire` are the datagram layout.
- **The message queues.** `MsgQueue` is one server, two queues and any number of clients;
  `Answering` is which of them are answered, given that any client's exit stops the server;
  `MsgQueueSession` is the code, each call of which is proved to be moves of that machine.
  `Projections` is about picking one client's messages out of a sequence.
- **The command line.** `Tokenizer` and `Commands` say what a line means; `Parser` is the code
  that takes it apart and where it writes; `CommandTexts` has every command's text.
- **Local clients.** `LocalClients` interleaves single SQL statements of any number of
  processes; `LocalSections` is what they come to in every run, refused purchases included;
  `LocalSession` is one process's critical section in code.
- **Together.** `EndToEnd` follows commands from their text to the answer, and consultations
  to the bytes in the queue and the rows that are printed.
- `Runs` is what all these machines mean by a run; `FiniteSets` is about counting.

Where the code and its own comments or evident intentions differ, the code is followed:

- `sem_up` leaves `sem_flg` uninitialised (`ipc/lib/semaphore.c:91-99`); it is taken as no undo,
  which is what the commented-out line asks for. SETVAL clears the undo counts, as System V has it.
- `db_purchase` leaves its transaction open when the flight is missing
  (`server/db/database.c:183-187`), and its next BEGIN fails and is ignored.
- `db_consult_flights` does not bound its rows (`server/db/database.c:219-233`): 26 fit into the
  buffer, but an answer with 26 is already larger than what either back end passes on.
- The client ignores the -1 of `ipc_send` (`client/client.c:64-66`), so a datagram that is too
  large leaves both sides of a private channel waiting for good.
- `ping` skips five characters of the line as typed (`client/libclient.c:145`), so spaces in
  front of it shift the text that is sent.
- The message-queue server exits on the first OP_EXIT of any client (`server/server.c:55-62`) and
  removes both queues with all they hold (`ipc/msgqueue.c:196-203`).

Sizes are those of an LP64 machine. A zeroed key is IPC_PRIVATE, so `shmget` with it gives a
segment of the caller's own. The columns of a consultation and the ids returned by the database
are truncated to 32 bits as `sqlite3_column_int` and the C return types do.

## Model

| member | source | states |
|---|---|---|
| Tables.ApplyKeepsValid | server/db/database.c:145-195 | every command keeps the tables well formed: ids unique and within the AUTOINCREMENT counters, every ticket names a present flight |
| Tables.FoundIsExact | server/db/database.c:205-233 | the rows of a consultation are exactly the flights with (origin = -1 or equal) and (destination = -1 or equal), each once, in table order |
| Tables.AfterKeepsValid | server/db/database.c:145-195 | referential integrity of the specification after any sequence of commands |
| Database.RunKeepsValid | server/db/database.c:179-195 | referential integrity in every reachable state of a connection, in the working view and in what an exit would leave on disk |
| Database.CountIsMembership | server/db/database.c:96-110 | COUNT(*) over a key column is 1 when the flight is there and 0 when it is not, so `rowcount == 1` decides membership |
| Database.Database.constructor | server/db/database.c:113-139 | opening the file gives a connection in autocommit whose two views are the file |
| Database.Database.Begin | server/db/database.c:183-183 | BEGIN opens a transaction and, failing inside one, changes nothing else |
| Database.Database.End | server/db/database.c:191-191 | END makes the working tables durable when a transaction is open and changes nothing otherwise |
| Database.Database.Write | server/db/database.c:29-39 | a statement changes the working tables, and the file too exactly when no transaction is open |
| Database.Database.FlightExists | server/db/database.c:90-111 | the counting loop and `== 1` decide whether the flight is in the working tables |
| Database.Database.AddTicket | server/db/database.c:156-165 | the new ticket takes the next rowid, never a used one, and the rowid is returned as a C int |
| Database.Database.Purchase | server/db/database.c:179-195 | one command of the specification on this connection: a sale adds its ticket, keeps the others and commits everything pending, a refusal leaves a transaction open (what the specification does to the tickets is History.TicketsAreHistory) |
| Database.Database.Cancel | server/db/database.c:167-176 | the ticket is gone from the working tables, and from the file unless a transaction is open |
| Database.Database.AddFlight | server/db/database.c:145-154 | the flight gets the next rowid and the columns given, in the working tables, and in the file unless a transaction is open (History.FlightsAreHistory) |
| Database.Database.SelectFlights | server/db/database.c:205-233 | stepping through the query returns the specification's rows |
| Durability.CommitPointIsUnique | server/db/database.c:183-191 | the commit point is characterised outright: it is the one k such that all is on disk, or command k is the first refused purchase since the last sale |
| Durability.DurablePrefix | server/db/database.c:179-195 | after any n commands the working tables are those after n, the file holds those after the first k, a transaction is open iff k < n, and k is the commit point |
| Durability.ExitLosesNoSale | server/server.c:55-62 | a sale is always before the commit point; every command after it that changed anything was an addflight or a cancel |
| Durability.AnsweredFlightCanBeLost | server/db/database.c:145-187 | concrete run: a flight is added, answered, and lost at exit |
| Durability.ExecuteNext | server/server.c:64-68 | one more command on a connection extends its run by that command and its specified reply |
| Durability.TicketIdsIncrease | server/db/database.c:65-67 | over any number of sessions with sales, refusals, cancels and exits, ticket rowids strictly increase and are never reissued, and the file stays well formed |
| Durability.SaleIsDurable | server/db/database.c:179-195 | a ticket that is answered is in the file already; -1 is answered iff the flight is absent or the rowid wraps to -1 |
| History.FlightsAreHistory | server/db/database.c:145-154 | after any commands the flights are those there before and one row for each addflight, in order, with the next rowids and that command's departure, origin and destination |
| History.FlightIsOnSale | server/db/database.c:90-111 | a purchase finds its flight iff it was there before or one of the addflights was given its number |
| History.TicketsAreHistory | server/db/database.c:156-176 | a ticket is there after any commands, for a flight, iff it was there before or one of them sold it for that flight, and no later one cancelled it |
| History.RepliesAreHistory | server/libserver.c:13-63 | what each command is answered, told from the commands before it: ticket or -1, rows, cancelled, the same text, flight number, nothing |
| History.ConsultShowsFlights | server/db/database.c:205-233 | where every column fits an int the rows are the matching flights themselves |
| History.FileIsHistory | server/server.c:55-62 | over any sessions the file is what the commands up to each session's commit point make of it |
| History.SalesAreCommitted | server/db/database.c:189-193 | no sale of any session is missing among those commands |
| History.TicketsInFile | server/db/database.c:156-176 | a ticket is in the file after any sessions iff it was there or sold, and no command that reached the file cancelled it since |
| Semaphores.DownsAreOnLoan | ipc/lib/semaphore.c:78-99 | of any semaphore on its own, over any feasible operations by processes that may end: value plus undo debts equals the initial sum plus the ups; a down is on loan, an up is for good |
| Semaphores.SetOwesNothing | ipc/lib/semaphore.c:54-58 | among the semaphores with a given value, the one that SETVAL leaves is the only one that no process can move by ending |
| Semaphores.SemaphoreSet.SemSet | ipc/lib/semaphore.c:54-58 | the semaphore has the value set and keeps it whoever ends afterwards; the others of the set are unchanged |
| Semaphores.SemaphoreSet.SemDown | ipc/lib/semaphore.c:78-86 | one unit is taken and recorded against the caller |
| Semaphores.SemaphoreSet.SemUp | ipc/lib/semaphore.c:91-99 | one unit is added and nothing recorded |
| Admission.QueueAccounting | ipc/shmem.c:258-295 | in every run, exits included: SEM_QUEUE + clients between entry and release = 1 + clients that ended after connecting; so one client at a time in the handshake until a connected client ends |
| Admission.EmptyQueueIsOpen | ipc/shmem.c:258-258 | in every run, whenever nobody is in the handshake the queue lets a client in |
| Admission.OneUnsyncedChild | server/server.c:99-126 | in every run SEM_SRV_QUEUE + children short of the end of ipc_sync is 1 exactly while the parent is between fork and the end of ipc_waitsync, else 0 |
| Admission.DeadChildStallsServer | ipc/shmem.c:193-237 | once a child has ended inside ipc_sync the parent is blocked in ipc_waitsync |
| Handshake.StepKeepsInv | ipc/shmem.c:168-300 | the handshake invariant (children, token equations of the round, undo debts, page contents, private segments, keys) is kept by every orderly step, ends of processes included |
| Handshake.HandshakeIsCorrect | ipc/shmem.c:168-300 | in every orderly run, over any number of rounds and with clients and children that end outside their own handshake: no process takes an error exit; every connected client and every serving child have a partner with the same private key, which nobody else ever had, with zeroed page and both semaphores 0 while the child lives; at the end of each round its two parties are paired and both public semaphores are 0, but for what one of the two has undone by ending already |
| Completion.NothingIsStuck | ipc/shmem.c:168-300 | whenever something is under way, a named participant can take an orderly step, also with several clients let in by the queue |
| Completion.EveryStepIsProgress | ipc/shmem.c:168-300 | every orderly step of a participant lowers a rank, only an entry into the queue adds to it, by a fixed amount, and arrivals, attaches and ends add nothing |
| Completion.HandshakesComplete | ipc/shmem.c:168-300 | after any orderly run let it go on, orderly, in any way, with arrivals, attaches, entries and ends in between: to each entry the participants have only so many moves, and wherever none of them has one left everyone whom the queue had let in and who has not ended is connected and paired, with a living child if STEP-3 was still to come and no child has ended since |
| Handshake.GuardsAreExact | ipc/shmem.c:168-300 | a step of any kind keeps the handshake invariant iff it is orderly (exact for that invariant; what a disorderly step does to the round is in Disorder and Witnesses) |
| Witnesses.RequestWindowIsReachable | ipc/shmem.c:250-271 | an orderly run leads to a second client about to attach while the first one's request is unread |
| Witnesses.KeyWindowIsReachable | ipc/shmem.c:200-208 | ... and to one about to attach while the key is unread |
| Witnesses.EarlyStep0IsReachable | ipc/shmem.c:168-179 | a whole round leads to a client about to take STEP-0 before the parent's reset |
| Disorder.AttachDuringRequestIsFatal | ipc/shmem.c:188-196 | where no connected client has ended yet: if a client attaches while a request is unread, the client that sent it never gets past STEP-2 and no other client ever enters the handshake, in any later run without ends of processes, orderly or not |
| Disorder.AttachDuringKeyIsFatal | ipc/shmem.c:200-208 | where no connected client has ended yet: if a client attaches while a key is unread, the client of that round never gets a key other than the zeroed one, in any later run without ends of processes, orderly or not |
| Disorder.EarlyStep0IsFatal | ipc/shmem.c:168-179 | where no connected client has ended yet and SEM_SERVER is 0: if STEP-0 comes before the parent's reset, that client never gets past STEP-2 and no other client gets into the handshake, in any later run without ends of processes, orderly or not |
| Witnesses.EndFreesTheStarved | ipc/lib/semaphore.c:82-85 | the way out that an end opens: the previous client's end raises SEM_SERVER and lets the starved client through STEP-2, without a key |
| Witnesses.EndAfterStep0StallsServer | ipc/lib/semaphore.c:82-99 | why a client may not end inside its handshake: one that ends after STEP-0 leaves the child of its round and the parent blocked |
| Witnesses.EndDuringRoundSkipsStep2 | ipc/lib/semaphore.c:82-85 | why a round restricts who may end: with STEP-0 between the two resets, an earlier client's end lets the new client through STEP-2 without a key |
| Witnesses.TwoAreLetIn | ipc/shmem.c:258-295 | an orderly run in which a connected client ends leads to two clients inside the queue |
| Witnesses.SecondStep0KillsTheChild | ipc/shmem.c:171-196 | why STEP-0 must not fall into another round: taken for STEP-1 it makes the child take its error exit, and the parent waits for ever |
| Server.ExecuteDatagram | server/libserver.c:9-71 | each opcode reaches its database function; the reply and the new connection state are the specification's; no reply exactly for CONNECT and EXIT |
| Server.TwentyFiveFlightsFit | include/config.h:4-5 | on both back ends an answer can be passed on iff it has at most 25 flights |
| Channel.ExchangeIsCorrect | ipc/shmem.c:105-141 | SEM_CLIENT + SEM_SERVER + owners of the page is 1, or 0 once a datagram was too large; the k-th answer is the specified reply to the k-th request; the child's connection is the run of the requests taken |
| Channel.LostIsForEver | client/client.c:64-66 | after a datagram that was too large neither side can move again |
| Channel.TooLargeIsNotAnswered | ipc/shmem.c:127-129 | a request that is too large, or whose reply is, gets no answer; in all other states with a request outstanding some side can move |
| Channel.WaitsIffDue | client/client.c:55-69 | in every run a client that has sent its datagram waits iff an answer to it is due |
| Channel.EveryExchangeEnds | ipc/shmem.c:105-141 | from every reachable state at most nine moves, in any order, settle the exchange: answered, or ended by exit, or lost exactly when the request or its reply is too large |
| Channel.TooLargeIsTooMuch | ipc/shmem.c:127-129 | too large is a ping of more than 3923 characters or a consultation that more than 25 flights match, and nothing else |
| Channel.OutcomeIsExact | client/client.c:59-69 | how an exchange ends, told from the request: purchases, cancellations and addflights with their answer, exit with the end of the child, pings and consultations with their answer unless they ask too much, and then it is lost |
| Channel.ExitLeavesDurablePrefix | server/server.c:55-62 | when the child has exited, the file holds the effects up to the commit point of all that the client sent |
| Channel.TwentySixFlightsHang | server/db/database.c:219-247 | with more than 25 flights there is a run in which `consult` leaves both sides waiting for good; the source comes to it with 26, from 27 on it has written past its buffer before (Wire.FillStaysInBuffer) |
| Wire.FillStaysInBuffer | server/db/database.c:217-233 | the row copies stay within the 4096 bytes iff there are at most 26 rows |
| Wire.MakeEntry | include/database.h:28-35 | the packed entry reads back the flight it was made from |
| Wire.PutEntry | server/db/database.c:221-232 | one more row can be read behind those already there |
| Wire.FillRows | server/db/database.c:219-233 | after the loop every row can be read at its offset |
| Wire.ConsultAnswer | server/db/database.c:217-249 | the datagram, cut to its size field, carries exactly the rows |
| Wire.ParseConsultAnswer | client/libclient.c:84-96 | reads as many entries as the count field says |
| Wire.CarriesIsUnique | client/libclient.c:84-96 | round trip: what is read out of a datagram is what was put into it |
| Shmem.Session.Attach | ipc/shmem.c:53-64 | the whole page is zero |
| Shmem.Session.SemReset | ipc/shmem.c:75-80 | both sides would have to wait, and no process that ends changes that |
| Shmem.Session.IpcSend | ipc/shmem.c:125-141 | -1 iff the size field exceeds the page, and then nothing changes; otherwise the datagram is on the page, the rest of the page is kept, and only the other side's semaphore goes up |
| Shmem.Session.IpcReceive | ipc/shmem.c:105-123 | one own unit is taken and the result is a copy of as many bytes as the size field says; the page is unchanged |
| Shmem.SentIsReceived | ipc/shmem.c:114-131 | a datagram that was sent is received byte for byte |
| Shmem.FlightsCrossThePage | ipc/shmem.c:114-131 | an answer fits the page iff it has at most 25 flights, and then the same flights are read on the other side |
| MsgQueue.StepKeepsInv | ipc/msgqueue.c:141-193 | every step keeps: no message lost, duplicated, reordered or misrouted per client; one request outstanding; log sequential |
| MsgQueue.Linearizable | ipc/msgqueue.c:141-193 | in every run with any clients the log is a run of the sequential specification and each client's answers are, in order, the logged replies to its own requests |
| MsgQueue.AnswerTakesEffectInTime | ipc/msgqueue.c:141-193 | the answer a client receives was logged between its send and its receive |
| Answering.AnswerComesIff | server/server.c:48-72 | in every reachable state a waiting client's answer can still come, over all continuations with any steps of anybody, iff the server has the request in hand or no exit is held by it or stands before the request in its queue; and then the server's own moves bring it |
| Answering.CutOffStays | server/server.c:55-62 | a client whose request has an exit ahead of it stays as it is, unanswered, in every continuation |
| Answering.NobodyWaitsInVain | server/server.c:48-72 | otherwise every continuation, with any steps of other clients in between, comes to a state with the answer in the queue once the server has made as many moves as its queue's length gives; the client can take it there iff it is within the receive limit |
| Answering.ExitCutsOthersOff | server/server.c:55-62 | concrete run: one client's exit cuts off another's request that is queued already |
| Answering.QueuedAnswerIsReceivable | ipc/msgqueue.c:172-178 | a queued answer can be received iff its request was no ping of more than 3919 characters and no consultation that more than 25 flights matched; so purchases, cancellations and addflights are never cut off by the limit |
| Answering.RequestIsSendable | ipc/msgqueue.c:141-165 | an idle client can send anything but a ping of more than 3915 characters |
| MsgQueueSession.Kernel.ReceiveFor | ipc/msgqueue.c:174-178 | selective msgrcv takes out the first message of that type and keeps the others in order, or takes nothing when that message is over the limit |
| MsgQueueSession.ServerSession.IpcReceive | ipc/msgqueue.c:167-193 | one move of the machine: the oldest message, with its type as sender |
| MsgQueueSession.ServerSession.IpcAccept | ipc/msgqueue.c:89-108 | one move; accepts iff the first datagram is OP_CONNECT |
| MsgQueueSession.ServerSession.IpcSend | ipc/msgqueue.c:141-165 | one move: the answer is queued under its sender's pid |
| MsgQueueSession.ServerSession.ExecuteAndAnswer | server/server.c:64-70 | execution and answer are one or two server moves |
| MsgQueueSession.ServerSession.ServeOne | server/server.c:50-71 | one pass of the serve loop is a run of server moves |
| MsgQueueSession.ServerSession.Serve | server/server.c:48-72 | the serve loop is a run of server moves that ends at an exit or with the queue empty |
| MsgQueueSession.ClientSession.IpcConnect | ipc/msgqueue.c:122-138 | the machine's Connects, whatever the server and the other clients are doing |
| MsgQueueSession.ClientSession.IpcSend | ipc/msgqueue.c:141-165 | the machine's Sends for a request within the limit; any other is queued as well; afterwards the client waits unless it has sent an exit |
| MsgQueueSession.ClientSession.IpcReceive | ipc/msgqueue.c:167-193 | the machine's Receives, and a failure that changes nothing exactly where the machine has no such step: the first answer is over the limit |
| Tokenizer.ParseShow | client/libclient.c:11-72 | round trip: any arguments, quoted or bare, printed with any spaces and parsed, come back exactly |
| Tokenizer.LayoutIsFaithful | client/libclient.c:24-65 | every line is the printing of its pieces, plus an unclosed quote if there is one |
| Tokenizer.ParseIsConservative | client/libclient.c:20-65 | parsing fails iff the line ends in an unclosed quote; otherwise only separating spaces and delimiting quotes are dropped, in order |
| Parser.LineWritesAre | client/libclient.c:26-46 | the positions that the loops write are every character of every token and its terminator, an unclosed last token included, and no other |
| Parser.WritesStayInBuffers | client/libclient.h:7-8 | all of them lie inside the buffers iff the line has at most MAX_ARGS tokens of at most CMD_BUFFER_SIZE - 1 characters |
| Parser.LongWordOverflows | client/libclient.c:38-46 | the failing family: any command followed by a word of CMD_BUFFER_SIZE characters or more, such as `ping` and 20 letters |
| Parser.LeftStrip | client/libclient.h:6-6 | the pointer ends at the first character that is not a space |
| Parser.CopyChars | client/libclient.c:38-44 | the inner loop copies the characters up to the delimiter or the end, at the positions listed |
| Parser.CopyToken | client/libclient.c:38-46 | the token and its terminator are written inside the argument's buffer, at the positions listed |
| Parser.SkipAfter | client/libclient.c:48-61 | the closing quote and the spaces are skipped, and an unclosed quote is found out |
| Parser.ReadToken | client/libclient.c:26-61 | one round reads one token, says whether its quote is unclosed, and leaves less input |
| Parser.ParseFrom | client/libclient.c:24-65 | the loop collects all tokens or fails, within the argument array, and writes where the specification says |
| Parser.ParseCommand | client/libclient.c:11-72 | argc, argv, failure and the positions written are those of the specification, for every line for which all of them lie inside the buffers |
| Commands.AtoiDecimal | client/libclient.c:174-185 | reading back the decimal text of any 32-bit number gives the number |
| Commands.DecimalFitsBuffer | client/libclient.h:8-8 | the decimal text of a 32-bit number fits an argument buffer |
| Commands.ParseOptions | client/libclient.c:153-196 | accepted iff the arguments are (from or to, value) pairs; the result is the value of each key |
| Commands.OptionAppended | client/libclient.c:165-186 | the last occurrence of a key decides, and leaves the other key alone |
| Commands.SwapPairs | client/libclient.c:161-192 | swapping adjacent pairs with different keys anywhere changes neither acceptance nor any value |
| Commands.Client.CommandToDatagram | client/libclient.c:130-285 | the datagram is what the line means to a user with those rights; makeadmin and nothing else changes the rights |
| Commands.EveryCommandIsAnswered | client/client.c:55-69 | every datagram made from a command has a reply; CONNECT and EXIT are the only requests that have none (over runs: Channel.WaitsIffDue) |
| Commands.ConsultTokens | client/libclient.c:11-72 | the text of a consultation with any two 32-bit numbers stays within the buffers and splits into its five tokens |
| Commands.ConsultMeansWhatItSays | client/libclient.c:147-194 | `consult from a to b` and `consult to b from a` ask for flights from a to b, for all 32-bit a and b |
| CommandTexts.WordsFit | client/libclient.h:7-8 | words typed one space apart stay within the buffers iff there are at most ten of at most 19 characters |
| CommandTexts.AtoiReads | client/libclient.c:174-185 | white space, a sign or none, and a number are read whatever follows, cut to an int |
| CommandTexts.PurchaseMeansWhatItSays | client/libclient.c:200-208 | `purchase n` asks for flight n, for all 32-bit n |
| CommandTexts.CancelMeansWhatItSays | client/libclient.c:210-218 | `cancel n` cancels ticket n, for all 32-bit n |
| CommandTexts.ShortConsultMeansWhatItSays | client/libclient.c:147-194 | `consult` with one option or none leaves the airport not named open |
| CommandTexts.PingMeansWhatItSays | client/libclient.c:137-145 | `ping ` and a text sends exactly that text |
| CommandTexts.PingAfterSpaces | client/libclient.c:145-145 | with n spaces in front of `ping` the text sent is right iff n is 0 |
| CommandTexts.AddFlightMeansWhatItSays | client/libclient.c:239-262 | `addflight o d "date"` adds that flight with that departure for an administrator and a date that can be read, and asks for nothing otherwise |
| CommandTexts.OtherLinesMeanNothing | client/libclient.c:137-280 | exactly when a line makes no datagram: another first word, a wrong number of arguments, options that are no pairs, no rights or no date |
| LocalClients.MutualExclusion | ipc/lib/filemutex.c:28-62 | in every run at most one process is between enter and leave, and it holds the lock |
| LocalClients.Serializable | client/localclient.c:77-84 | while no purchase names a missing flight, any interleaving of SQL statements gives the answers and the file of the serial run in lock order, and everybody leaves in autocommit |
| LocalClients.ServesIsSpecified | server/db/database.c:185-187 | at the check of the client in the critical section, the flight is found iff the sequential specification does not refuse the purchase |
| LocalClients.ServingIsExact | client/localclient.c:77-84 | in any run: everybody always leaves the critical section in autocommit iff no check on the way found its flight missing; with nobody in the critical section, iff the sequential specification refuses none of the purchases in lock order |
| LocalClients.RefusalBreaksSerializability | client/localclient.c:77-84 | concrete run: after a refused purchase another client does not see a flight whose addition was answered |
| LocalSections.CriticalSectionIsOneCommand | client/localclient.c:77-84 | in every run, refused purchases included and other clients in between: from taking the lock to leaving, a client's connection and answer are those of its one command |
| LocalSections.RunsAreSections | client/localclient.c:43-92 | in every run the answers are those of the commands one after the other, each on its client's own connection with the transaction it has left open, and so are the file and the connections while the lock is free |
| LocalSections.SectionEnds | client/localclient.c:77-84 | the owner of the lock, moving alone, gives it back after at most five moves with its command logged |
| LocalSession.FileMutex.Enter | ipc/lib/filemutex.c:28-45 | the caller owns the lock on return |
| LocalSession.FileMutex.Leave | ipc/lib/filemutex.c:47-62 | the caller no longer owns the lock; another owner keeps it |
| LocalSession.RunCommand | client/localclient.c:77-84 | the critical section is one command of the specification; the lock is free afterwards; a transaction is open iff a purchase was refused, or was open before and this was no purchase |
| EndToEnd.ConsultCommand | client/libclient.c:130-198 | for all 32-bit a and b, the line, run through tokenizer, options, dispatch, selection, byte layout and reading, yields exactly the flights from a to b, each once, up to the 25 that can be sent |
| EndToEnd.CommandOverQueue | client/client.c:59-67 | over the message queue among any other clients, for every command line: the answer received is the sequential specification's reply to what the line means, at a moment between request and answer |
| EndToEnd.ConsultOverQueue | ipc/msgqueue.c:141-193 | over the message queue among any other clients: the rows received are at most 25 and exactly the flights from a to b at a moment between request and answer |
| EndToEnd.SendConsult | ipc/msgqueue.c:141-165 | the server lays the rows out in bytes and queues them under the sender's pid; the queue's bytes stay those of the answers in the machine's queue |
| EndToEnd.ReceiveConsult | ipc/msgqueue.c:167-193 | from the text to the printed rows through the queue's bytes: what the client that typed the line parses out of the datagram it takes are exactly the flights from a to b at a moment between request and answer |
| EndToEnd.HandshakeOpensChannel | ipc/shmem.c:208-226 | in every orderly run a connected client's segment is, while its child lives, as the private channel's initial state has it |
| EndToEnd.HangIsReachable | server/db/database.c:219-249 | 26 addflights in one session, and a consultation in the next one hangs |
| EndToEnd.OverrunIsReachable | server/db/database.c:219-233 | 27, and the rows of a consultation go past the buffer |

## Left out

- Rendezvous.Next: `ipc_accept`, `ipc_sync`, `ipc_waitsync` and `ipc_connect` are steps on values and not class methods, because other processes move between their statements; the session's handles (`semid`, `memid`, `alloc`) are the key each process holds.
- Channel.Next: `ipc_send` and `ipc_receive` interleave on values here; the same functions on bytes are `Shmem.Session`.
- MsgQueue.Next: the interleaving is on values; the code that updates the queues is `MsgQueueSession`, whose methods run without other processes in between.
- LocalClients.Next: single SQL statements of several processes are steps on values; one process's critical section is `LocalSession.RunCommand`.
- Handshake.HandshakeIsCorrect: for orderly runs, since it is false of others: `Disorder`, `Witnesses` and `Admission.DeadChildStallsServer` have such runs. It stops at 254 connections, where a child's key would meet the queue's or the public one, and takes the private segments to be absent at the start (none left by an earlier server).
- Handshake.GuardsAreExact: exact for the invariant. In the first round a STEP-0 between the two resets with SEM_SERVER up breaks it and the round can still succeed.
- Disorder.AttachDuringRequestIsFatal: where no connected client has ended before, so that the queue lets in one at a time, and nobody ends later. The same holds of `Disorder.AttachDuringKeyIsFatal` and of `Disorder.EarlyStep0IsFatal`; for the latter `Witnesses.EndFreesTheStarved` is the way out that an end opens.
- Disorder.EarlyStep0IsFatal: asks that SEM_SERVER be 0; in the first round it may hold anything before the reset and the early STEP-0 can then go either way.
- Durability.SaleIsDurable: ids are rowids and unbounded; the answer is the rowid truncated to a C int.
- Wire.ConsultAnswer: at most 26 rows, since the code writes past its buffer with more (`Wire.FillStaysInBuffer`).
- Parser.ParseCommand: for lines within the buffers; for exactly the others the code writes past them (`Parser.WritesStayInBuffers`), and what it does then is not modelled.
- Commands.Client.CommandToDatagram: not for a line of spaces, a line with an unclosed quote or a `ping` shorter than five characters, where the code reads what is not there; `strptime` and `mktime` are a parameter. `atoi` outside 32 bits wraps, which C leaves open.
- EndToEnd.SendConsult: only answers to consultations are laid out in bytes, and the sender field is not; other datagrams are sums with one case per opcode, and union fields do not overlap.
- Answering.NobodyWaitsInVain: an answer over the receive limit stays queued and its client waits, and so do clients of a server that has stopped; in the code the failed `msgrcv` goes unnoticed and an uninitialised buffer is read. Requests over the limit are not sent, pids are distinct and positive.
- SQLITE_BUSY between forked children, or between a local client and one that a refused purchase has left in a transaction; lock levels, SQL text and SQLite's own storage.
- The FIFO, file and socket back ends and the unfinished signal one.
- Signal handlers, `fork` and `ftok` internals, failures of system calls, memory that is never freed.
- `help`, `setdelay`, prompts and printed dates.
- Seat capacity: nothing in the purchase code checks it.
