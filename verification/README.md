# Verified models of the network programming exercises

Dafny models of the programs in this repository that carry a protocol, a state machine or a loop worth proving.
The kernel is nondeterministic: byte streams without message boundaries, partial sends and reads, EINTR, arbitrary
ready sets, descriptor numbers that are given out again. `dafny verify dfyconfig.toml` checks everything.

Two kinds of model answer to each other. The transition systems and table models (`EchoSystem`, `GameSystem`,
`PollTable`, `PollHistory`, `PollArrivals`, `ChatRoom`, `ChatSessions`, `ChatRounds`, `ForkServer`, `LockedCounter`, the
first half of `EchoServer`) say what can happen and hold the theorems over all runs. The programs (`EchoPrograms`, `EchoServer`, `GameServer`,
`GameClient`, `PollServer`, `ChatServer`, `ForkProgram`, `QuizServer`, `ReadLine`) are the loops of the C files on
fields and arrays, proved to do what those models say.

| file | models |
|---|---|
| `Runs.dfy` | runs of a transition system and induction over them |
| `LineProtocol.dfy` | the framing shared by fgets, recv_line and the client's newline rule |
| `EchoSystem.dfy`, `EchoPrograms.dfy`, `EchoServer.dfy` | the line echo client and the threaded server |
| `TicTacToe.dfy`, `GameSystem.dfy`, `GameServer.dfy`, `GameClient.dfy`, `GameTalk.dfy` | the game of two clients and a server |
| `PollTable.dfy`, `PollHistory.dfy`, `PollArrivals.dfy`, `PollServer.dfy` | the poll server: parallel arrays, sweep, descriptors, events |
| `ChatRoom.dfy`, `ChatSessions.dfy`, `ChatRounds.dfy`, `ChatServer.dfy` | the chat server: slots, names, broadcasts, sessions |
| `QuizServer.dfy` | the shuffle that tracks the right answer, and the score |
| `ForkServer.dfy`, `ForkProgram.dfy` | forking, SIGCHLD and reaping |
| `LockedCounter.dfy` | the mutex programs, for any number of threads and rounds |
| `ReadLine.dfy` | `readline` and its caller's loop |

## What the proofs brought out

Where the code falls short of what its comments or its purpose suggest, the model follows the code, and the exact
condition under which it does meet the expectation is proved.

- The echo client's comment says that it sends lines ending in a newline and waits for a newline. Lines of 4095 bytes
  and more are sent in pieces without one; the reader's cut-off is the same, so the rounds still stay in step.
- Client and server both finish sending before they receive. With less than 4094 bytes of buffer in the two directions
  together, a full line can leave both waiting in send (`EchoSystem.DeadlockFreedom`).
- A terminator byte inside a typed line silently cuts the line (`LineProtocol.Transparency`,
  `LineProtocol.TerminatorCuts`).
- A send that takes no byte ends `send_all` early, and the server thread does not look: the rest of its buffer is lost
  (`EchoServer.EchoConservation`, `EchoServer.ZeroSendLoses`).
- The game client's numbers arrive modulo 256, so numbers far outside the board can name a cell (`GameSystem.TypedCell`,
  `GameSystem.TypedCellWraps`).
- The poll server does not clear the events of the array place it gives to a new client. If the client that used the
  place before was hung up while it was the last one, the new client is closed in the pass that accepts it
  (`PollTable.NewcomerFate`, `PollTable.StaleEventsCloseNewcomer`, and over whole runs `PollHistory.NewcomerJudged`).
- A chat client whose first data begin with a newline or a terminator is announced with an empty name and is then
  nameless again, so it can join more than once and leaves unannounced (`ChatSessions.OneJoinExactly`,
  `ChatSessions.JoinsTwice`).
- `readline` counts one more than it stored unless a newline ended the piece, so its caller writes the terminator back
  as well: the echo is exact if and only if all lines are complete and fit the buffer. The one exception is a stream
  that breaks off, where such terminators can stand in for terminators lost at the end (`ReadLine.EchoIsExact`,
  `ReadLine.LossMadeUpFor`).

## Modelling notes

- Bytes are `char`, the C terminator is `'\0'`, and buffers keep their sizes (4096, 1024 places, 100 slots).
- The steps of a system are its system calls. The game server's sends are separate steps, kept in its `outbox` until
  they are done. A load and a store make up `counter++`, so the lock is what the proofs rest on.
- Kernel choices are either nondeterministic statements or parameters that the theorems quantify over: reported events,
  results of accept and recv, drawn numbers, and a policy that numbers new descriptors in any way that avoids open ones.
- The peer of a server thread is any string of bytes, given out in pieces of any size; a peer that reacts to the echo is
  covered, since the results hold for every such string.
- SIGCHLD is one pending bit, blocked while its handler runs, as `signal` sets it up on systems with BSD semantics.
- The number of options of the shuffle, the threads and their rounds, and the children of the fork server are unbounded.

## Model

| member | source | states |
|---|---|---|
| `EchoSystem.LockstepEcho` | Source_codes_Ch4/multithreaded-client.c:99-142 | in every reachable state of every session: at a prompt both directions are empty, the server is at recv and each recv_line so far returned exactly what its round sent; at the end the echoes are all the input calls for; the server never closes first |
| `EchoSystem.DeadlockFreedom` | Source_codes_Ch4/multithreaded-client.c:124-130 | exact condition: no session ever blocks for good if and only if the two directions together buffer at least 4094 bytes, since both programs send before they receive |
| `EchoSystem.BothBlocked` | Source_codes_Ch4/multithreaded-server.c:64-81 | below that capacity a reachable state in which client and server both wait in send |
| `EchoSystem.EverySessionCompletes` | Source_codes_Ch4/multithreaded-client.c:99-142 | with that room a session can only come to rest finished, with everything echoed |
| `EchoSystem.RunsAreFinite` | Source_codes_Ch4/multithreaded-client.c:23-57 | every run is bounded by the interruptions and the length of the input, so every round finishes |
| `EchoSystem.WorkDecreases` | Source_codes_Ch4/multithreaded-server.c:39-81 | each step of client, server or kernel, EINTR included, uses up one measure |
| `EchoSystem.EnoughRoom` | Source_codes_Ch4/multithreaded-client.c:23-36 | an unfinished session with enough buffer always has a step that is not an interruption, and which one |
| `EchoSystem.ClientRecvKeeps` | Source_codes_Ch4/multithreaded-client.c:41-54 | the byte that makes recv_line stop is the last byte of the message, never an earlier one |
| `EchoSystem.Interleaving` | Source_codes_Ch4/multithreaded-server.c:137-167 | with any number of threads accepted and interleaved, each connection behaves as a session on its own |
| `LineProtocol.SelfDelimiting` | Source_codes_Ch4/multithreaded-client.c:39-57 | a message is read back whole and alone whatever follows it in the stream if and only if it is a frame: newline only at its end, or a full 4095 bytes |
| `LineProtocol.MessageIsFrame` | Source_codes_Ch4/multithreaded-client.c:114-122 | the newline and length rules make a frame of every line fgets can return, over-long lines and embedded terminators included: its text up to a terminator, with at most a newline added |
| `LineProtocol.TakeLineShape` | Source_codes_Ch4/multithreaded-client.c:41-54 | what a line reader takes is a frame unless the stream ends first |
| `LineProtocol.Transparency` | Source_codes_Ch4/multithreaded-client.c:110-141 | exact condition, for every input: the echoes joined together are the typed text (with the newline a short last line lacks) if and only if no line begins with \quit and there is no terminator byte |
| `LineProtocol.QuitStops` | Source_codes_Ch4/multithreaded-client.c:104-112 | nothing is asked for if and only if the input is at its end or begins with \quit |
| `LineProtocol.QuitEndsSession` | Source_codes_Ch4/multithreaded-client.c:104-112 | lines before a line that begins with \quit are echoed, and what is typed from there on changes nothing |
| `LineProtocol.TranscriptTogether` | Source_codes_Ch4/multithreaded-client.c:99-142 | lines typed one after the other are dealt with one after the other |
| `LineProtocol.OneLineAsked` | Source_codes_Ch4/multithreaded-client.c:114-122 | a single line is sent once, up to a terminator in it, as a frame |
| `LineProtocol.TerminatorCuts` | Source_codes_Ch4/multithreaded-client.c:114-122 | a typed line with a terminator inside, of which only the first part comes back |
| `LineProtocol.NewlineEndsFramed` | Source_codes_Ch4/multithreaded-client.c:115-122 | input that ends in a newline is not completed in any way |
| `EchoPrograms.SendAll` | Source_codes_Ch4/multithreaded-client.c:23-36 | all bytes go out in order whatever the kernel takes at a time and however often it interrupts |
| `EchoPrograms.RecvLine` | Source_codes_Ch4/multithreaded-client.c:39-57 | the buffer holds exactly the request of this round, terminated, and its length is returned |
| `EchoPrograms.EnsureNewline` | Source_codes_Ch4/multithreaded-client.c:114-122 | the line buffer then starts with the request for the line |
| `EchoPrograms.Printed` | Source_codes_Ch4/multithreaded-client.c:141 | printing a terminated buffer with %s shows all of it |
| `EchoPrograms.Round` | Source_codes_Ch4/multithreaded-client.c:104-141 | one round of the loop prints the request of the line read, or leaves the loop |
| `EchoPrograms.Client` | Source_codes_Ch4/multithreaded-client.c:99-142 | the whole program prints the request of every line up to the end of input or a quit line (see `LineProtocol.QuitStops`), always stops, and leaves nothing in flight |
| `EchoPrograms.World.AwaitRoom` | Source_codes_Ch4/multithreaded-client.c:27 | a blocked send wakes up: the server makes room |
| `EchoPrograms.World.Send` | Source_codes_Ch4/multithreaded-client.c:27-33 | a send takes some bytes and the session advances by as many, or is interrupted and nothing changes |
| `EchoPrograms.World.Recv` | Source_codes_Ch4/multithreaded-client.c:43-53 | recv never waits for bytes that were not sent; it hands over the next byte of the echo |
| `EchoServer.EchoConservation` | Source_codes_Ch4/multithreaded-server.c:39-81 | at every moment of every run, against any peer and with calls that fail: bytes received are bytes sent followed by the unsent part of one buffer, exactly as long as no send took nothing; then output is a prefix of input, and equal to it at recv |
| `EchoServer.Endings` | Source_codes_Ch4/multithreaded-server.c:64-81 | a thread stops for a failed recv or send if and only if one of its calls failed so, otherwise because the peer closed, with everything returned exactly when every send took something |
| `EchoServer.EveryThreadConserves` | Source_codes_Ch4/multithreaded-server.c:54-86 | with any number of threads, accepted and interleaved at will, this holds for each connection at every moment |
| `EchoServer.ThreadsInterleave` | Source_codes_Ch4/multithreaded-server.c:137-167 | among any number of threads a connection behaves as one on its own |
| `EchoServer.ZeroSendLoses` | Source_codes_Ch4/multithreaded-server.c:49-51 | a reachable state at recv with bytes received and never sent, after a send that took nothing |
| `EchoServer.SendAll` | Source_codes_Ch4/multithreaded-server.c:39-52 | what went out is a prefix of the buffer; -1 exactly when a send failed, less than the length exactly when a send took nothing; every call is a step of the connection |
| `EchoServer.ClientThread` | Source_codes_Ch4/multithreaded-server.c:54-86 | the program takes only steps of the connection, always ends with the descriptor closed, and says why: recv or send failed exactly when such a call did |
| `GameSystem.ReplicatedBoard` | Source_codes_Ch7/server.c:53-125 | in every reachable state, a client board brought up to date by its undelivered STATE messages is the board of the server |
| `GameSystem.SingleToken` | Source_codes_Ch7/server.c:53-90 | until the result exactly one token exists, a TURN on its way to the current player or one MOVE back; none for the other player |
| `GameSystem.NoDeadlock` | Source_codes_Ch7/server.c:53-90 | a reachable state has no next step if and only if both clients hold the result and nothing is in flight; while a move is awaited an acceptable one exists |
| `GameSystem.GameResult` | Source_codes_Ch7/server.c:71-79 | the game is over exactly when a player has a line or nine moves are made; clients end with the final board and with the last mover who has a line, or 0 exactly for a full board without one |
| `GameSystem.TypedCell` | Source_codes_Ch7/client.c:52-56 | typed numbers arrive modulo 256: a typed cell is accepted if and only if row and column modulo 256 name a free cell |
| `GameSystem.TypedCellWraps` | Source_codes_Ch7/client.c:52-56 | typing 256 and -512 is the same as naming the first cell |
| `GameSystem.MarksStay` | Source_codes_Ch7/server.c:65-68 | a step leaves the board alone or sets one free cell for the current player, as that player asked |
| `GameSystem.HandleMoveKeepsBoard` | Source_codes_Ch7/server.c:61-89 | marks of 1 minus marks of 2, the move count and the absence of lines before a move are kept by every pass |
| `GameSystem.MarkedBoard` | Source_codes_Ch7/server.c:67-71 | after an accepted move only the mover can have a line and check_winner names the mover exactly then |
| `GameSystem.OutboxAfterMark` | Source_codes_Ch7/server.c:69-82 | after an accepted move each player is owed the state and then the result, or the other player the TURN |
| `GameSystem.OutboxAfterReject` | Source_codes_Ch7/server.c:84-88 | after a rejected move the same player is owed ERROR and then TURN, the other nothing |
| `GameSystem.AcceptKeepsToken` | Source_codes_Ch7/server.c:65-83 | an accepted move ends the game for both clients or hands the token to the other player |
| `TicTacToe.CheckWinner` | Source_codes_Ch7/server.c:128-142 | the loop over the array computes the winner scan |
| `TicTacToe.WinnerMeaning` | Source_codes_Ch7/server.c:128-142 | the scan is 0 exactly when nobody has one of the eight lines, and otherwise names somebody who has |
| `TicTacToe.LinesAreStraight` | Source_codes_Ch7/server.c:128-142 | the eight lines are the rows, the columns and the two diagonals |
| `TicTacToe.WinnerIsMover` | Source_codes_Ch7/server.c:71 | when only one player can have a line, the order of the scan does not matter |
| `TicTacToe.LinesAfterMark` | Source_codes_Ch7/server.c:67 | a mark makes no line for the other player and breaks none of its owner |
| `GameServer.Program.Receive` | Source_codes_Ch7/server.c:59-89 | on the program variables, the messages sent and the new state are those of one pass |
| `GameServer.Program.Announce` | Source_codes_Ch7/server.c:69-82 | states, then results or change of turn, in that order |
| `GameServer.Program.Pass` | Source_codes_Ch7/server.c:53-90 | notice and answer advance the conversation by one move |
| `GameServer.Program.Play` | Source_codes_Ch7/server.c:53-90 | the whole game: for every script of moves the messages sent are exactly the conversation of the model, and the variables end as its state does |
| `GameTalk.LastWords` | Source_codes_Ch7/server.c:71-79 | for every script, a finished game is closed with the two results, which mean what they say, and an unfinished one ends with the TURN of the player to move |
| `GameTalk.NoticesAccounted` | Source_codes_Ch7/server.c:53-90 | each TURN a player gets is matched by a mark of that player on the final board, an ERROR, or is the open one; each move of the script answers one |
| `GameTalk.BoardsTold` | Source_codes_Ch7/server.c:69-70 | replaying what a player is told gives the final board |
| `GameTalk.MoveByMove` | Source_codes_Ch7/server.c:53-90 | every move is handled once and in order until the game is over |
| `GameTalk.ClientsSeeTheGame` | Source_codes_Ch7/client.c:43-76 | both programs joined: after a finished game each client program holds the final board and a meaningful result, and has sent one move for each TURN |
| `GameTalk.StartOpens` | Source_codes_Ch7/server.c:47-57 | the server starts a game of which those results speak |
| `GameClient.Program.Dispatch` | Source_codes_Ch7/client.c:48-75 | board, result and answer after one message |
| `GameClient.Program.Run` | Source_codes_Ch7/client.c:43-76 | for every inbox the program ends where the client of the model ends, with the same moves sent |
| `GameClient.AttendMeaning` | Source_codes_Ch7/client.c:43-76 | until a result the client shows the last board sent and has answered each TURN once, with the bytes typed for it |
| `GameClient.ResultIsFinal` | Source_codes_Ch7/client.c:63-75 | the result sent is the result kept, and nothing after it is read or answered |
| `PollTable.SweepExaminesAll` | Source_codes_Ch5/ex_poll_server.c:189-248 | whatever is removed on the way, exactly the clients at or after the starting place are examined, each once |
| `PollTable.SweepSurvivors` | Source_codes_Ch5/ex_poll_server.c:189-248 | the survivors are exactly the clients not called for removal by the events that stood beside them |
| `PollTable.DescriptorConservation` | Source_codes_Ch5/ex_poll_server.c:135-254 | over every run, with descriptor numbers reused in any way: a connection is in the table once or closed once, and after cleanup every one and the listener has been closed exactly once |
| `PollTable.TableOrClosed` | Source_codes_Ch5/ex_poll_server.c:163-184 | at every top of the loop no connection stands twice in the table and none is lost |
| `PollTable.PolledClientFate` | Source_codes_Ch5/ex_poll_server.c:189-238 | a client in the table when poll was called stays if and only if poll reported no error for it and, if it reported input, its recv calls saw neither a close nor a failure |
| `PollTable.NewcomerFate` | Source_codes_Ch5/ex_poll_server.c:176-238 | exact condition for a client accepted in this pass: the same, on the events an earlier client left in its place |
| `PollTable.StaleEventsCloseNewcomer` | Source_codes_Ch5/ex_poll_server.c:176-199 | concrete run in which a new client is closed at once although poll reported nothing for it |
| `PollHistory.EventsExplained` | Source_codes_Ch5/ex_poll_server.c:135-248 | over every run: the events at a place in use are those its client carries, and beyond the table those that the client which last stood there carried there, or none when nobody ever did |
| `PollHistory.CarriedIsReported` | Source_codes_Ch5/ex_poll_server.c:135-147 | a client in the table when poll was called carries what poll reported for it, whatever is moved in the pass |
| `PollHistory.NewcomerJudged` | Source_codes_Ch5/ex_poll_server.c:176-238 | over every run: a client accepted next stays if and only if what the last client at its place carried there is no error and, if it is input, its recv calls see neither a close nor a failure; at a place nobody has had it stays |
| `PollTable.RemoveMoves` | Source_codes_Ch5/ex_poll_server.c:64-73 | a removal keeps connection, events and address of every other client together, the last one moving into the gap |
| `PollTable.RemoveKeeps` | Source_codes_Ch5/ex_poll_server.c:64-73 | a removal keeps the table: descriptors open and distinct, listener first, addresses aligned |
| `PollTable.AcceptKeeps` | Source_codes_Ch5/ex_poll_server.c:163-184 | an accepted connection is stored aligned or closed at once; the table stays within its bound |
| `PollTable.AcceptAllKeepsPlace` | Source_codes_Ch5/ex_poll_server.c:149-185 | accepting moves no client and resets no events |
| `PollArrivals.ArrivalsCounted` | Source_codes_Ch5/ex_poll_server.c:149-185 | as many connections come to be as accept gives before it fails, and the table fills with those that could be set up until it is full |
| `PollArrivals.ArrivalFate` | Source_codes_Ch5/ex_poll_server.c:163-184 | each arrival gets its peer's address, and a place if and only if it could be set up and those before it left room; otherwise it is closed at once |
| `PollArrivals.PassAccepts` | Source_codes_Ch5/ex_poll_server.c:148-149 | a pass accepts connections if and only if poll reported on the listener |
| `PollArrivals.PassesInOrder` | Source_codes_Ch5/ex_poll_server.c:135-146 | every pass is made once and in order until poll fails, and none after that |
| `PollTable.DrainMeaning` | Source_codes_Ch5/ex_poll_server.c:205-238 | the drain loop removes a client if and only if a close or failure comes before the socket runs dry |
| `PollTable.CleanupCloses` | Source_codes_Ch5/ex_poll_server.c:252-254 | after the cleanup nothing is open and everything was closed once |
| `PollServer.Server.RemoveFd` | Source_codes_Ch5/ex_poll_server.c:64-73 | the arrays change as remove_fd on values says |
| `PollServer.Server.AcceptLoop` | Source_codes_Ch5/ex_poll_server.c:149-185 | the loop on the arrays is the accept loop on values |
| `PollServer.Server.SweepClients` | Source_codes_Ch5/ex_poll_server.c:189-248 | the loop on the arrays is the sweep on values, and it terminates |
| `PollServer.Server.Run` | Source_codes_Ch5/ex_poll_server.c:135-254 | the whole program ends as serving these passes and cleaning up does on values; no descriptor is left open and each connection was closed once |
| `PollServer.Drain` | Source_codes_Ch5/ex_poll_server.c:205-238 | the drain loop decides as specified |
| `ChatRoom.OrderedBroadcast` | Source_codes_Ch5/bai-tap-lab/server.c:20-29 | over every run, what a connection has been sent is the log of the room restricted to broadcasts for others while it had a slot and its own welcome, in log order, once each |
| `ChatRoom.HoldsMeaning` | Source_codes_Ch5/bai-tap-lab/server.c:112-141 | having a slot, read off the log: it was given one and has not given it up since |
| `ChatRoom.SameOrder` | Source_codes_Ch5/bai-tap-lab/server.c:123-170 | over every run, broadcasts that two connections have both been sent stand in the same order in what each was sent |
| `ChatRoom.BothHear` | Source_codes_Ch5/bai-tap-lab/server.c:20-29 | a third party's broadcast reaches both of two connections if and only if both have slots, and each once |
| `ChatSessions.Sessions` | Source_codes_Ch5/bai-tap-lab/server.c:112-168 | the broadcasts for a connection are joins, lines under its name and at most one final leave, in step with the name in its slot; a named client without a slot has taken its leave; free slots hold no name |
| `ChatSessions.AnnouncementsAreReplies` | Source_codes_Ch5/bai-tap-lab/server.c:123-170 | over every run, what is announced for a client is a function of the chunks read from it alone, whoever else is there and whatever slot and descriptor it has |
| `ChatRounds.SessionAnnounced` | Source_codes_Ch5/bai-tap-lab/server.c:129-167 | over every run: the first data up to a newline or terminator are the name joined with, each later chunk is announced as a line under it with its text, the end of data as the leave |
| `ChatRounds.ReadOnce` | Source_codes_Ch5/bai-tap-lab/server.c:123-128 | a sweep reads once from each client in a slot whose descriptor is ready, and from nobody else |
| `ChatRounds.RoundsInOrder` | Source_codes_Ch5/bai-tap-lab/server.c:76-171 | every round is made once and in order, and reads go with the rounds |
| `ChatRounds.ArrivalGetsSlot` | Source_codes_Ch5/bai-tap-lab/server.c:95-121 | a waiting connection gets a slot if and only if one is free, and nobody else gets or loses one |
| `ChatRounds.HandleSeats` | Source_codes_Ch5/bai-tap-lab/server.c:128-141 | a client loses slot and descriptor if and only if it has closed its end |
| `ChatSessions.OneJoinExactly` | Source_codes_Ch5/bai-tap-lab/server.c:145-158 | exact condition: a session has at most one join, with a name, before its lines and its leave, if and only if the first data read from the client begin with neither a newline nor a terminator |
| `ChatSessions.JoinsTwice` | Source_codes_Ch5/bai-tap-lab/server.c:145-158 | a run in which a client sends an empty line and then its name, and is announced twice |
| `ChatRoom.EveryJoinIsWelcomed` | Source_codes_Ch5/bai-tap-lab/server.c:148-158 | a client is welcomed right after each of its joins and at no other time |
| `ChatRoom.BroadcastReaches` | Source_codes_Ch5/bai-tap-lab/server.c:20-29 | every occupied slot but those of the sender is sent the message exactly once |
| `ChatRoom.HandleKeeps` | Source_codes_Ch5/bai-tap-lab/server.c:126-169 | table, views and sessions stay consistent whatever a client sends |
| `ChatRoom.AcceptKeeps` | Source_codes_Ch5/bai-tap-lab/server.c:95-121 | the same for an accepted connection, the full table included |
| `ChatRoom.NameInMeaning` | Source_codes_Ch5/bai-tap-lab/server.c:148-149 | the name is the chunk up to its first newline |
| `ChatServer.Server.BroadcastMessage` | Source_codes_Ch5/bai-tap-lab/server.c:20-29 | the send loop is the broadcast on values |
| `ChatServer.Server.AcceptClient` | Source_codes_Ch5/bai-tap-lab/server.c:112-120 | the first free slot is taken, or none |
| `ChatServer.Server.ReadClient` | Source_codes_Ch5/bai-tap-lab/server.c:128-168 | leave, name and line handling change the table and the sends as on values |
| `ChatServer.Server.MainLoop` | Source_codes_Ch5/bai-tap-lab/server.c:76-171 | for every sequence of rounds the program state is that of the model |
| `QuizServer.ShuffleUniform` | Source_codes_Ch4/bai-tap-lab/bai2server.c:46-58 | for any number of distinct options each order arises from exactly one draw sequence |
| `QuizServer.ShuffleInjective` | Source_codes_Ch4/bai-tap-lab/bai2server.c:46-58 | different draws make different orders |
| `QuizServer.ShuffleSurjective` | Source_codes_Ch4/bai-tap-lab/bai2server.c:46-58 | every order is made by some draws |
| `QuizServer.ShufflePermutes` | Source_codes_Ch4/bai-tap-lab/bai2server.c:46-58 | the options after a shuffle are the options before it |
| `QuizServer.ShuffleOptions` | Source_codes_Ch4/bai-tap-lab/bai2server.c:46-58 | the loop in place makes that order, and the tracked index points at the text that was right before |
| `QuizServer.TrackedIndex` | Source_codes_Ch4/bai-tap-lab/bai2server.c:83-87 | the chosen index equals the tracked one if and only if the letter stands beside the right text |
| `QuizServer.AskQuestion` | Source_codes_Ch4/bai-tap-lab/bai2server.c:67-87 | a question is scored right exactly when the letter selected the right text as shown |
| `QuizServer.HandleClient` | Source_codes_Ch4/bai-tap-lab/bai2server.c:66-92 | the score is the number of questions whose letter stood beside the right text, of those answered before the first disconnect, for every draw |
| `QuizServer.RightMeaning` | Source_codes_Ch4/bai-tap-lab/bai2server.c:82-84 | the k-th letter of the alphabet, in either case, selects the k-th option shown |
| `ForkServer.NoLostZombies` | Source_codes_Ch4/ccr_server.c:16-19 | in every interleaving a zombie exists only while the signal is pending or the handler is still in its loop; no child is reaped twice; back at accept only the listener is open |
| `ForkServer.ZombiesGo` | Source_codes_Ch4/ccr_server.c:16-19 | signal handling ends after an exactly known number of steps and then no zombie is left |
| `ForkServer.StepKeeps` | Source_codes_Ch4/ccr_server.c:81-104 | every step of parent, children and kernel keeps the account |
| `ForkProgram.Parent.SigchldHandler` | Source_codes_Ch4/ccr_server.c:16-19 | the loop ends and has taken in every child that was a zombie when the signal came, while others exit |
| `ForkProgram.Parent.AcceptPass` | Source_codes_Ch4/ccr_server.c:83-103 | a pass leaves the parent with the listener alone, and a new child for the connection exactly when accept and fork succeed |
| `ForkProgram.Parent.MainLoop` | Source_codes_Ch4/ccr_server.c:81-104 | so does the whole loop, interrupted at will: one new child for each pass in which accept and fork succeed, standing after those of the passes before, with that connection |
| `LockedCounter.MutualExclusion` | Source_codes_Ch4/bai-tap-ly-thuyet/threads/bai6.c:8-15 | at most one thread is inside the lock and outside it the counter equals the increments performed |
| `LockedCounter.FinalCounter` | Source_codes_Ch4/bai-tap-ly-thuyet/threads/bai6.c:18-26 | after the joins the counter is the start plus threads times rounds and the file numbers its lines in order |
| `LockedCounter.NoDeadlock` | Source_codes_Ch4/bai-tap-ly-thuyet/threads/bai6.c:18-26 | some thread can go on if and only if not all are done |
| `LockedCounter.RunLength` | Source_codes_Ch4/bai-tap-ly-thuyet/threads/bai9.c:19-33 | no interleaving is longer than five steps a round, and it is that long exactly when all are done |
| `LockedCounter.StepKeeps` | Source_codes_Ch4/bai-tap-ly-thuyet/threads/bai9.c:10-16 | each step keeps counter, log and lock consistent |
| `LockedCounter.Programs` | Source_codes_Ch4/bai-tap-ly-thuyet/threads/bai9.c:19-33 | the two programs end with 2000 and with lines 1, 2, 3 |
| `LockedCounter.Run` | Source_codes_Ch4/bai-tap-ly-thuyet/threads/bai9.c:19-33 | whichever thread goes on, the program ends, in a reachable state of the threads with all of them done, and with that counter and file |
| `ReadLine.ReadLine` | Source_codes_Ch3/read-write-server.c:77-100 | the bytes stored, the bytes consumed, the terminator and the count, for every stream and limit |
| `ReadLine.CountMeaning` | Source_codes_Ch3/read-write-server.c:77-100 | the count is the stored length if a newline ended the piece and one more otherwise; 0 exactly at end of file, -1 exactly when a read fails before a newline or a full buffer |
| `ReadLine.PiecesConcat` | Source_codes_Ch3/read-write-server.c:54-64 | repeated calls store pieces that join to the input; after a read error only an unfinished piece is missing |
| `ReadLine.PiecesShape` | Source_codes_Ch3/read-write-server.c:77-100 | a piece is short of the limit, has a newline only at its end, and without one is full or ends at end of file |
| `ReadLine.EchoAll` | Source_codes_Ch3/read-write-server.c:54-64 | what the loop writes back, the count that ends it, and that the stream has been read to its end |
| `ReadLine.EchoIsExact` | Source_codes_Ch3/read-write-server.c:54-64 | exact condition on the input: what is written back is what was received if and only if it ends in a newline and every line fits the buffer, or the stream breaks off and terminators lost at its end are made up for by those added |
| `ReadLine.ShortLineIsNotExact` | Source_codes_Ch3/read-write-server.c:54-64 | an unfinished line comes back with a terminator at end of file, and not at all after a read error |
| `ReadLine.LossMadeUpFor` | Source_codes_Ch3/read-write-server.c:77-100 | the exception is real: an input with a piece too long and a loss at the end, written back exactly |

## Left out

- Socket setup, address conversion, prompts and printed text; they have no logic of their own.
- Failing send and recv calls in the echo client, and a send that takes no byte there: assumed not to happen. The server
  threads in `EchoServer` have both.
- The shutdown signal of the threaded server, its second close of the listening socket, and a connection that is closed
  at once because no thread can be made for it.
- Peer disconnects, short reads and messages other than MOVE in the game, and the layout of its 1024-byte messages: one
  recv yields one whole message.
- The stop flag of the poll server beyond ending the sequence of passes, and the text of what it prints.
- ChatRoom.Handle: names of 50 bytes and more overrun the slot in the code (`strcpy` is not bounded), and a failing read
  is not looked at; the model takes names of any length and no failing read. Sends are whole.
- The chat server keeps no account of sockets accepted while the table is full; they stay open, and no claim is made
  that descriptors are conserved there.
- QuizServer.TrackedIndex: needs four distinct option texts, since equal texts cannot be told apart by the player. The
  texts of the ten questions and the messages around them are not part of this model, nor is a reply that fills the
  buffer.
- The echo done by the children of the fork server, and their second close of a connection already closed.
- ReadLine.ReadLine: a limit of 0 is left out, where the code writes a terminator into an empty buffer. The caller's own
  terminator at `buffer[n]` lies outside the buffer when a piece is full, and is not modelled.
- Overflow of `counter`: the programs count to 2000 and to 4.
- The quality of `rand`, time and timeouts: draws are arbitrary values in range.
- The XOR exchange of chapter 6, the demos of chapter 2, and the copies of the servers modelled here.
