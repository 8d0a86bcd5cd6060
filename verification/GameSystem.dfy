/**
 The game of two clients and a server as a transition system. Messages travel in FIFO queues; the server
 performs its sends one at a time, so a client may act between any two of them.
 */
module GameSystem {
  import opened TicTacToe
  import Runs

  datatype Msg =
    | Turn(player: int)
    | State(board: Board)
    | Error(player: int)
    | Result(winner: int)

  /** A MOVE as it arrives: row and column are signed bytes. */
  datatype Move = Move(row: int, col: int)

  /** A client: the last board it was shown, if any, and the result once it has one. */
  datatype Client = Playing(view: View) | Over(view: View, result: int)
  datatype View = Blank | Shown(board: Board)

  /** The server's variables; `outbox` holds the sends of the current pass of its loop still to be done. */
  datatype Server = Server(board: Board, current: int, moves: nat, over: bool, outbox: seq<(int, Msg)>)

  /** Queues and clients of players 1 and 2, and the moves on their way to the server. */
  datatype Game = Game(
    server: Server,
    queue1: seq<Msg>, queue2: seq<Msg>,
    moves1: seq<Move>, moves2: seq<Move>,
    client1: Client, client2: Client)

  function Other(p: int): int {
    if p == 1 then 2 else 1
  }

  /** The value of an int stored in a C signed char and read back. */
  function SignedByte(x: int): (y: int)
    ensures -128 <= y < 128 && (x - y) % 256 == 0
  {
    (x + 128) % 256 - 128
  }

  // ---------------------------------------------------------------------------------------------
  // The server
  // ---------------------------------------------------------------------------------------------

  predicate Accepts(b: Board, mv: Move) {
    0 <= mv.row < 3 && 0 <= mv.col < 3 && b[3 * mv.row + mv.col] == 0
  }

  function Start(): Server {
    Server(EMPTY_BOARD, 1, 0, false, [(1, Turn(1))])
  }

  /** What the server does once board `b` has the mark and check_winner has answered. */
  function AfterMark(s: Server, b: Board, winner: int): Server {
    var states := [(1, State(b)), (2, State(b))];
    if winner > 0 || s.moves + 1 == 9 then
      var result := Result(if winner > 0 then winner else 0);
      Server(b, s.current, s.moves + 1, true, states + [(1, result), (2, result)])
    else
      var next := Other(s.current);
      Server(b, next, s.moves + 1, false, states + [(next, Turn(next))])
  }

  /** One pass of the server's loop from the received MOVE to the TURN notice of the next pass. */
  function HandleMove(s: Server, mv: Move): Server {
    if Accepts(s.board, mv) then
      var b := s.board[3 * mv.row + mv.col := s.current];
      AfterMark(s, b, Winner(b))
    else
      s.(outbox := [(s.current, Error(s.current)), (s.current, Turn(s.current))])
  }

  // ---------------------------------------------------------------------------------------------
  // Steps
  // ---------------------------------------------------------------------------------------------

  function Queue(g: Game, p: int): seq<Msg> {
    if p == 1 then g.queue1 else g.queue2
  }

  function Moves(g: Game, p: int): seq<Move> {
    if p == 1 then g.moves1 else g.moves2
  }

  function ClientOf(g: Game, p: int): Client {
    if p == 1 then g.client1 else g.client2
  }

  predicate Initial(g: Game) {
    g == Game(Start(), [], [], [], [], Playing(Blank), Playing(Blank))
  }

  datatype Action =
    | ServerSend
    | ServerReceive
    | ClientReceive(player: int, typedRow: int, typedCol: int)

  /** A client shows a board, takes note of a result, or answers a turn notice; other messages are only printed. */
  function ClientTakes(c: Client, m: Msg): Client {
    match m
    case State(b) => c.(view := Shown(b))
    case Result(w) => Over(c.view, w)
    case _ => c
  }

  function Answer(m: Msg, typedRow: int, typedCol: int): seq<Move> {
    if m.Turn? then [Move(SignedByte(typedRow), SignedByte(typedCol))] else []
  }

  predicate Can(g: Game, a: Action) {
    match a
    case ServerSend => g.server.outbox != []
    case ServerReceive => g.server.outbox == [] && !g.server.over && Moves(g, g.server.current) != []
    case ClientReceive(p, _, _) => p in {1, 2} && ClientOf(g, p).Playing? && Queue(g, p) != []
  }

  function Apply(g: Game, a: Action): Game
    requires Can(g, a)
  {
    match a
    case ServerSend =>
      var (p, m) := g.server.outbox[0];
      var sent := g.(server := g.server.(outbox := g.server.outbox[1..]));
      if p == 1 then sent.(queue1 := g.queue1 + [m]) else sent.(queue2 := g.queue2 + [m])
    case ServerReceive =>
      var mv := Moves(g, g.server.current)[0];
      var handled := g.(server := HandleMove(g.server, mv));
      if g.server.current == 1 then handled.(moves1 := g.moves1[1..]) else handled.(moves2 := g.moves2[1..])
    case ClientReceive(p, typedRow, typedCol) =>
      var m := Queue(g, p)[0];
      var c := ClientTakes(ClientOf(g, p), m);
      var answer := Answer(m, typedRow, typedCol);
      if p == 1 then g.(queue1 := g.queue1[1..], client1 := c, moves1 := g.moves1 + answer)
      else g.(queue2 := g.queue2[1..], client2 := c, moves2 := g.moves2 + answer)
  }

  predicate Step(g: Game, a: Action, g': Game) {
    Can(g, a) && g' == Apply(g, a)
  }

  ghost predicate Next(g: Game, g': Game) {
    exists a :: Step(g, a, g')
  }

  ghost predicate Reachable(g: Game) {
    Runs.Reachable(Initial, Next, g)
  }

  // ---------------------------------------------------------------------------------------------
  // Undelivered messages
  // ---------------------------------------------------------------------------------------------

  /** The part of the outbox addressed to player `p`. */
  function Addressed(outbox: seq<(int, Msg)>, p: int): seq<Msg> {
    if outbox == [] then []
    else (if (outbox[0].0 == 1) == (p == 1) then [outbox[0].1] else []) + Addressed(outbox[1..], p)
  }

  /** Everything the client of `p` has still to receive, in order. */
  function Pending(g: Game, p: int): seq<Msg> {
    Queue(g, p) + Addressed(g.server.outbox, p)
  }

  /** The board a client shows after receiving `ms`. */
  function Replay(v: View, ms: seq<Msg>): View
    decreases |ms|
  {
    if ms == [] then v
    else Replay(if ms[0].State? then Shown(ms[0].board) else v, ms[1..])
  }

  function TurnNotices(ms: seq<Msg>): nat {
    if ms == [] then 0 else (if ms[0].Turn? then 1 else 0) + TurnNotices(ms[1..])
  }

  predicate Calm(ms: seq<Msg>) {
    forall i :: 0 <= i < |ms| ==> !ms[i].Turn? && !ms[i].Result?
  }

  lemma {:induction false} ReplayAppend(v: View, ms: seq<Msg>, ns: seq<Msg>)
    ensures Replay(v, ms + ns) == Replay(Replay(v, ms), ns)
    decreases |ms|
  {
    if ms == [] {
      assert ms + ns == ns;
    } else {
      assert (ms + ns)[1..] == ms[1..] + ns;
      ReplayAppend(if ms[0].State? then Shown(ms[0].board) else v, ms[1..], ns);
    }
  }

  lemma {:induction false} TurnNoticesOf(ms: seq<Msg>)
    ensures Calm(ms) ==> TurnNotices(ms) == 0
    ensures ms != [] && Calm(ms[..|ms| - 1]) ==> TurnNotices(ms) == if ms[|ms| - 1].Turn? then 1 else 0
  {
    if ms != [] {
      TurnNoticesOf(ms[1..]);
      if |ms| > 1 && Calm(ms[..|ms| - 1]) {
        var front := ms[1..][..|ms| - 2];
        assert front == ms[1..|ms| - 1];
        assert forall i :: 0 <= i < |front| ==> front[i] == ms[..|ms| - 1][i + 1];
      }
    }
  }

  // ---------------------------------------------------------------------------------------------
  // The invariants
  // ---------------------------------------------------------------------------------------------

  /** The board between moves: whose turn it is shows in the marks, and a line ends the game at once. */
  predicate BoardInv(s: Server) {
    && s.current in {1, 2}
    && Marked(s.board)
    && s.moves == Count(s.board, 1) + Count(s.board, 2)
    && Count(s.board, 1) - Count(s.board, 2) == (if (s.current == 1) == s.over then 1 else 0)
    && !HasLine(s.board, Other(s.current))
    && (if s.over then s.moves > 0 && (HasLine(s.board, s.current) || s.moves == 9)
        else !HasLine(s.board, s.current) && s.moves < 9)
  }

  /** The result that the server announces for its final board. */
  function Verdict(b: Board): int {
    Winner(b)
  }

  predicate ViewInv(g: Game, p: int) {
    Replay(ClientOf(g, p).view, Pending(g, p)) == if g.server.moves == 0 then Blank else Shown(g.server.board)
  }

  /** A notice as the last undelivered message, or the move that answered it. */
  predicate HeldOnce(mine: seq<Msg>, moves: seq<Move>) {
    if moves == [] then mine != [] && mine[|mine| - 1].Turn? && Calm(mine[..|mine| - 1])
    else |moves| == 1 && mine == []
  }

  /** Only the current player is ever asked for a move, and one move answers one notice. */
  predicate TokenInv(g: Game) {
    var cur, out := g.server.current, g.server.outbox;
    && g.client1.Playing? && g.client2.Playing?
    && Calm(Pending(g, Other(cur))) && Moves(g, Other(cur)) == []
    && HeldOnce(Pending(g, cur), Moves(g, cur))
    && (out != [] ==> out[|out| - 1].0 == cur && Moves(g, cur) == [])
  }

  /** After the last move each client ends with the verdict on the final board. */
  predicate EndInv(g: Game, p: int) {
    var mine := Pending(g, p);
    && Moves(g, p) == []
    && match ClientOf(g, p)
       case Playing(_) =>
         mine != [] && mine[|mine| - 1] == Result(Verdict(g.server.board)) && Calm(mine[..|mine| - 1])
       case Over(_, result) => mine == [] && result == Verdict(g.server.board)
  }

  predicate Inv(g: Game) {
    && BoardInv(g.server)
    && ViewInv(g, 1) && ViewInv(g, 2)
    && if g.server.over then EndInv(g, 1) && EndInv(g, 2) else TokenInv(g)
  }

  lemma SendKeepsPending(g: Game, g': Game, p: int)
    requires p in {1, 2} && Step(g, ServerSend, g')
    ensures Pending(g', p) == Pending(g, p)
  {
  }

  lemma SendKeepsToken(g: Game, g': Game)
    requires g.server.current in {1, 2} && TokenInv(g) && Step(g, ServerSend, g')
    ensures TokenInv(g')
  {
    SendKeepsPending(g, g', 1);
    SendKeepsPending(g, g', 2);
    var before, after := g.server.outbox, g'.server.outbox;
    assert after != [] ==> after[|after| - 1] == before[|before| - 1];
    assert Moves(g', 1) == Moves(g, 1) && Moves(g', 2) == Moves(g, 2);
    assert g'.client1 == g.client1 && g'.client2 == g.client2;
  }

  lemma SendKeepsClient(g: Game, g': Game, p: int)
    requires p in {1, 2} && Step(g, ServerSend, g')
    ensures ViewInv(g, p) ==> ViewInv(g', p)
    ensures EndInv(g, p) ==> EndInv(g', p)
  {
    SendKeepsPending(g, g', p);
    assert ClientOf(g', p) == ClientOf(g, p) && Moves(g', p) == Moves(g, p);
  }

  lemma ServerSendKeeps(g: Game, g': Game)
    requires Inv(g) && Step(g, ServerSend, g')
    ensures Inv(g')
  {
    SendKeepsClient(g, g', 1);
    SendKeepsClient(g, g', 2);
    if !g.server.over {
      SendKeepsToken(g, g');
    }
  }

  /** The board after an accepted move: only the mover can have a line, and the scan finds it. */
  lemma MarkedBoard(s: Server, i: nat) returns (b: Board)
    requires BoardInv(s) && !s.over && i < 9 && s.board[i] == 0
    ensures b == s.board[i := s.current] && Marked(b)
    ensures Count(b, s.current) == Count(s.board, s.current) + 1
    ensures Count(b, Other(s.current)) == Count(s.board, Other(s.current))
    ensures forall q :: q != 0 && q != s.current ==> !HasLine(b, q)
    ensures Winner(b) == if HasLine(b, s.current) then s.current else 0
  {
    b := s.board[i := s.current];
    CountUpdate(s.board, i, s.current, 1);
    CountUpdate(s.board, i, s.current, 2);
    forall q | q != 0 && q != s.current ensures !HasLine(b, q) {
      LinesAfterMark(s.board, i, s.current, q);
      assert q !in {1, 2} ==> forall k :: 0 <= k < 9 ==> b[k] != q;
    }
    WinnerIsMover(b, s.current);
  }

  lemma HandleMoveKeepsBoard(s: Server, mv: Move)
    requires BoardInv(s) && !s.over
    ensures BoardInv(HandleMove(s, mv))
  {
    if Accepts(s.board, mv) {
      var b := MarkedBoard(s, 3 * mv.row + mv.col);
      CountTotal(b);
    }
  }

  lemma AddressedCons(m: (int, Msg), rest: seq<(int, Msg)>, p: int)
    ensures Addressed([m] + rest, p) == (if (m.0 == 1) == (p == 1) then [m.1] else []) + Addressed(rest, p)
  {
    assert ([m] + rest)[1..] == rest;
  }

  function ForPlayer(m: (int, Msg), p: int): seq<Msg> {
    if (m.0 == 1) == (p == 1) then [m.1] else []
  }

  lemma AddressedTwo(a: (int, Msg), b: (int, Msg), rest: seq<(int, Msg)>, p: int)
    ensures Addressed([a, b] + rest, p) == ForPlayer(a, p) + (ForPlayer(b, p) + Addressed(rest, p))
  {
    assert [a, b] + rest == [a] + ([b] + rest);
    AddressedCons(a, [b] + rest, p);
    AddressedCons(b, rest, p);
  }

  lemma AddressedFew(out: seq<(int, Msg)>, p: int)
    requires 2 <= |out| <= 4
    ensures Addressed(out, p) ==
            ForPlayer(out[0], p) + (ForPlayer(out[1], p) +
            (if |out| == 4 then ForPlayer(out[2], p) + (ForPlayer(out[3], p) + [])
             else if |out| == 3 then ForPlayer(out[2], p) + [] else []))
  {
    AddressedTwo(out[0], out[1], out[2..], p);
    assert out == [out[0], out[1]] + out[2..];
    if |out| == 4 {
      AddressedTwo(out[2], out[3], [], p);
      assert out[2..] == [out[2], out[3]] + [];
    } else if |out| == 3 {
      AddressedCons(out[2], [], p);
      assert out[2..] == [out[2]] + [];
    }
  }

  /** What the outbox holds for player `p` after a pass of the loop. */
  lemma OutboxAfterMark(s: Server, b: Board, winner: int, p: int)
    requires p in {1, 2} && s.current in {1, 2}
    ensures var t := AfterMark(s, b, winner);
            Addressed(t.outbox, p) ==
            [State(b)] + if t.over then [Result(if winner > 0 then winner else 0)]
                         else if p == s.current then [] else [Turn(p)]
  {
    AddressedFew(AfterMark(s, b, winner).outbox, p);
  }

  lemma OutboxAfterReject(s: Server, mv: Move, p: int)
    requires p in {1, 2} && s.current in {1, 2} && !Accepts(s.board, mv)
    ensures Addressed(HandleMove(s, mv).outbox, p) == if p == s.current then [Error(p), Turn(p)] else []
  {
    AddressedFew(HandleMove(s, mv).outbox, p);
  }

  /** What a pass of the server shows a client: the new board, or nothing. */
  lemma MoveShows(s: Server, mv: Move, p: int, v: View)
    requires p in {1, 2} && s.current in {1, 2}
    ensures var t := HandleMove(s, mv);
            Replay(v, Addressed(t.outbox, p)) == if Accepts(s.board, mv) then Shown(t.board) else v
  {
    var mine := Addressed(HandleMove(s, mv).outbox, p);
    if Accepts(s.board, mv) {
      var b := s.board[3 * mv.row + mv.col := s.current];
      OutboxAfterMark(s, b, Winner(b), p);
    } else {
      OutboxAfterReject(s, mv, p);
    }
    if mine != [] {
      ReplayAppend(v, mine[..1], mine[1..]);
      assert mine[..1] + mine[1..] == mine && mine[..1] == [mine[0]];
    }
  }

  lemma MoveKeepsView(g: Game, g': Game, p: int)
    requires p in {1, 2} && BoardInv(g.server) && ViewInv(g, p)
    requires Step(g, ServerReceive, g')
    ensures ViewInv(g', p)
  {
    var q, v := Queue(g, p), ClientOf(g, p).view;
    assert Pending(g, p) == q;
    ReplayAppend(v, q, Addressed(g'.server.outbox, p));
    MoveShows(g.server, Moves(g, g.server.current)[0], p, Replay(v, q));
  }

  lemma RejectKeepsToken(g: Game, g': Game)
    requires BoardInv(g.server) && TokenInv(g) && !g.server.over
    requires Step(g, ServerReceive, g') && !Accepts(g.server.board, Moves(g, g.server.current)[0])
    ensures TokenInv(g')
  {
    var cur := g.server.current;
    var mv := Moves(g, cur)[0];
    OutboxAfterReject(g.server, mv, 1);
    OutboxAfterReject(g.server, mv, 2);
    assert Pending(g, cur) == Queue(g, cur) && Pending(g, Other(cur)) == Queue(g, Other(cur));
    assert Pending(g', cur) == [Error(cur), Turn(cur)];
    assert Pending(g', Other(cur)) == Queue(g, Other(cur));
  }

  lemma AcceptKeepsToken(g: Game, g': Game)
    requires BoardInv(g.server) && TokenInv(g) && !g.server.over
    requires Step(g, ServerReceive, g') && Accepts(g.server.board, Moves(g, g.server.current)[0])
    ensures g'.server.over ==> EndInv(g', 1) && EndInv(g', 2)
    ensures !g'.server.over ==> TokenInv(g')
  {
    var s, cur := g.server, g.server.current;
    var mv := Moves(g, cur)[0];
    var b := MarkedBoard(s, 3 * mv.row + mv.col);
    AcceptedOutbox(g, g', b, Winner(b));
  }

  lemma Announced(q: seq<Msg>, b: Board, last: Msg)
    requires Calm(q)
    ensures var mine := q + [State(b), last];
            mine[|mine| - 1] == last && Calm(mine[..|mine| - 1])
  {
    assert (q + [State(b), last])[..|q| + 1] == q + [State(b)];
  }

  lemma AcceptedEnds(g: Game, g': Game, b: Board, winner: int, p: int)
    requires p in {1, 2} && g.server.current in {1, 2} && winner >= 0
    requires g'.server == AfterMark(g.server, b, winner) && g'.server.over
    requires Queue(g', p) == Queue(g, p) && ClientOf(g', p).Playing? && Calm(Queue(g, p))
    ensures Awaits(g', p, Result(winner))
  {
    OutboxAfterMark(g.server, b, winner, p);
    Announced(Queue(g, p), b, Result(winner));
  }

  lemma AcceptedGoesOn(g: Game, g': Game, b: Board, winner: int)
    requires g.server.current in {1, 2} && winner >= 0
    requires g'.server == AfterMark(g.server, b, winner) && !g'.server.over
    requires g'.queue1 == g.queue1 && g'.queue2 == g.queue2 && g'.moves1 == [] && g'.moves2 == []
    requires Queue(g, g.server.current) == [] && Calm(Queue(g, Other(g.server.current)))
    requires g'.client1.Playing? && g'.client2.Playing?
    ensures TokenInv(g')
  {
    var s, cur, other := g.server, g.server.current, Other(g.server.current);
    OutboxAfterMark(s, b, winner, cur);
    OutboxAfterMark(s, b, winner, other);
    Announced(Queue(g, other), b, Turn(other));
    assert Pending(g', cur) == [State(b)];
    assert Pending(g', other) == Queue(g, other) + [State(b), Turn(other)];
  }

  lemma AcceptedOutbox(g: Game, g': Game, b: Board, winner: int)
    requires g.server.current in {1, 2} && TokenInv(g) && !g.server.over && winner >= 0
    requires g'.server == AfterMark(g.server, b, winner) && g'.moves1 == [] && g'.moves2 == []
    requires g'.queue1 == g.queue1 && g'.queue2 == g.queue2 && g'.client1 == g.client1 && g'.client2 == g.client2
    requires g.server.outbox == [] && Moves(g, g.server.current) != []
    ensures g'.server.over ==> Awaits(g', 1, Result(winner)) && Awaits(g', 2, Result(winner))
    ensures !g'.server.over ==> TokenInv(g')
  {
    var cur, other := g.server.current, Other(g.server.current);
    assert Pending(g, cur) == Queue(g, cur) == [] && Pending(g, other) == Queue(g, other);
    if g'.server.over {
      AcceptedEnds(g, g', b, winner, 1);
      AcceptedEnds(g, g', b, winner, 2);
    } else {
      AcceptedGoesOn(g, g', b, winner);
    }
  }

  predicate Awaits(g: Game, p: int, last: Msg) {
    var mine := Pending(g, p);
    ClientOf(g, p).Playing? && mine != [] && mine[|mine| - 1] == last && Calm(mine[..|mine| - 1])
  }

  lemma ClientReceiveKeepsView(g: Game, a: Action, g': Game, p: int)
    requires p in {1, 2} && a.ClientReceive? && ViewInv(g, p) && Step(g, a, g')
    ensures ViewInv(g', p)
  {
    if a.player == p {
      var q, out := Queue(g, p), Addressed(g.server.outbox, p);
      assert (q + out)[1..] == q[1..] + out;
    }
  }

  /** Taking the first of several messages leaves the last one last, and calm before it. */
  lemma CalmShifts(mine: seq<Msg>)
    requires |mine| > 1 && Calm(mine[..|mine| - 1])
    ensures !mine[0].Turn? && !mine[0].Result?
    ensures mine[1..][|mine| - 2] == mine[|mine| - 1] && Calm(mine[1..][..|mine| - 2])
  {
    assert mine[..|mine| - 1][0] == mine[0];
    assert mine[1..][..|mine| - 2] == mine[..|mine| - 1][1..];
  }

  lemma ClientReceiveKeepsEnd(g: Game, a: Action, g': Game, p: int)
    requires p in {1, 2} && a.ClientReceive? && EndInv(g, p) && Step(g, a, g')
    ensures EndInv(g', p)
  {
    ReceiveShiftsPending(g, a, g');
    var mine := Pending(g, p);
    if a.player == p && |mine| > 1 {
      CalmShifts(mine);
    }
  }

  lemma {:induction false} AddressedLast(out: seq<(int, Msg)>, p: int)
    requires out != [] && out[|out| - 1].0 == p && p in {1, 2}
    ensures Addressed(out, p) != []
  {
    if |out| > 1 {
      AddressedLast(out[1..], p);
    }
  }

  lemma ReceiveShiftsPending(g: Game, a: Action, g': Game)
    requires a.ClientReceive? && Step(g, a, g')
    ensures var p := a.player;
            && Pending(g, p) != [] && Pending(g, p)[0] == Queue(g, p)[0]
            && Pending(g', p) == Pending(g, p)[1..]
            && Pending(g', Other(p)) == Pending(g, Other(p))
  {
  }

  lemma OtherReceives(g: Game, a: Action, g': Game)
    requires g.server.current in {1, 2}
    requires a.ClientReceive? && TokenInv(g) && Step(g, a, g') && a.player == Other(g.server.current)
    ensures TokenInv(g')
  {
    var p, cur := a.player, g.server.current;
    ReceiveShiftsPending(g, a, g');
    var theirs := Pending(g, p);
    assert !theirs[0].Turn? && !theirs[0].Result?;
    assert Calm(theirs[1..]);
    assert Moves(g', p) == Moves(g, p) && Moves(g', cur) == Moves(g, cur);
  }

  lemma CurrentReceives(g: Game, a: Action, g': Game)
    requires g.server.current in {1, 2}
    requires a.ClientReceive? && TokenInv(g) && Step(g, a, g') && a.player == g.server.current
    ensures TokenInv(g')
  {
    var cur := g.server.current;
    ReceiveShiftsPending(g, a, g');
    var mine := Pending(g, cur);
    var answer := Answer(mine[0], a.typedRow, a.typedCol);
    if g.server.outbox != [] {
      AddressedLast(g.server.outbox, cur);
      assert |mine| > 1;
    }
    assert Moves(g, cur) == [] && Moves(g', cur) == answer;
    HeldOnceShifts(mine, answer);
    assert HeldOnce(Pending(g', cur), Moves(g', cur));
    assert Moves(g', Other(cur)) == Moves(g, Other(cur));
  }

  lemma HeldOnceShifts(mine: seq<Msg>, answer: seq<Move>)
    requires mine != [] && HeldOnce(mine, [])
    requires if mine[0].Turn? then |answer| == 1 else answer == []
    ensures HeldOnce(mine[1..], answer) && !mine[0].Result?
    ensures |mine| > 1 ==> answer == []
  {
    if |mine| > 1 {
      CalmShifts(mine);
    }
  }

  lemma StepKeeps(g: Game, a: Action, g': Game)
    requires Inv(g) && Step(g, a, g')
    ensures Inv(g')
  {
    match a
    case ServerSend => ServerSendKeeps(g, g');
    case ServerReceive =>
      HandleMoveKeepsBoard(g.server, Moves(g, g.server.current)[0]);
      MoveKeepsView(g, g', 1);
      MoveKeepsView(g, g', 2);
      if Accepts(g.server.board, Moves(g, g.server.current)[0]) {
        AcceptKeepsToken(g, g');
      } else {
        RejectKeepsToken(g, g');
      }
    case ClientReceive(_, _, _) =>
      ClientReceiveKeepsView(g, a, g', 1);
      ClientReceiveKeepsView(g, a, g', 2);
      if g.server.over {
        ClientReceiveKeepsEnd(g, a, g', 1);
        ClientReceiveKeepsEnd(g, a, g', 2);
      } else {
        if a.player == g.server.current {
          CurrentReceives(g, a, g');
        } else {
          OtherReceives(g, a, g');
        }
      }
  }

  lemma StartBoardInv()
    ensures BoardInv(Start())
  {
    assert Count(EMPTY_BOARD, 1) == 0 && Count(EMPTY_BOARD, 2) == 0;
  }

  lemma StartTokenInv(g: Game)
    requires BoardInv(g.server) && g.server.current == 1 && g.server.moves == 0 && !g.server.over
    requires g.server.outbox == [(1, Turn(1))] && g.queue1 == [] && g.queue2 == [] && g.moves1 == [] && g.moves2 == []
    requires g.client1 == Playing(Blank) && g.client2 == Playing(Blank)
    ensures Inv(g)
  {
    AddressedCons((1, Turn(1)), [], 1);
    AddressedCons((1, Turn(1)), [], 2);
    assert [(1, Turn(1))] + [] == g.server.outbox;
    assert Pending(g, 1) == [Turn(1)] && Pending(g, 2) == [];
    assert [Turn(1)][1..] == [];
  }

  lemma InitialInv(g: Game)
    requires Initial(g)
    ensures Inv(g)
  {
    StartBoardInv();
    StartTokenInv(g);
  }

  lemma NextKeeps(g: Game, g': Game)
    requires Inv(g) && Next(g, g')
    ensures Inv(g')
  {
    var a :| Step(g, a, g');
    StepKeeps(g, a, g');
  }

  /** The invariant as a value, so that it can be handed to the induction over runs. */
  ghost function Safe(): Game -> bool {
    g => Inv(g)
  }

  lemma SafeIsInductive()
    ensures Runs.Inductive(Initial, Next, Safe())
  {
    var init, next, safe := Initial, Next, Safe();
    forall g | init(g) ensures safe(g) {
      InitialInv(g);
    }
    forall g, g' | safe(g) && next(g, g') ensures safe(g') {
      NextKeeps(g, g');
    }
  }

  lemma ReachableInv(g: Game)
    requires Reachable(g)
    ensures Safe()(g)
  {
    SafeIsInductive();
    Runs.ReachableInvariant(Initial, Next, Safe(), g);
  }

  // ---------------------------------------------------------------------------------------------
  // Main results
  // ---------------------------------------------------------------------------------------------

  /** Each client's board, brought up to date by what is still on its way to it, is the server's board. */
  lemma ReplicatedBoard(g: Game, p: int)
    requires Reachable(g) && p in {1, 2}
    ensures g.server.moves > 0 ==> Replay(ClientOf(g, p).view, Pending(g, p)) == Shown(g.server.board)
    ensures g.server.moves == 0 ==> ClientOf(g, p).view == Blank && Replay(Blank, Pending(g, p)) == Blank
  {
    ReachableInv(g);
    if g.server.moves == 0 {
      ReplayKeepsShown(ClientOf(g, p).view, Pending(g, p));
    }
  }

  lemma {:induction false} ReplayKeepsShown(v: View, ms: seq<Msg>)
    ensures v.Shown? ==> Replay(v, ms).Shown?
    decreases |ms|
  {
    if ms != [] {
      ReplayKeepsShown(if ms[0].State? then Shown(ms[0].board) else v, ms[1..]);
    }
  }

  lemma TokensHeld(mine: seq<Msg>, moves: seq<Move>)
    ensures HeldOnce(mine, moves) ==> TurnNotices(mine) + |moves| == 1
    ensures Calm(mine) ==> TurnNotices(mine) == 0
  {
    TurnNoticesOf(mine);
  }

  lemma NoTokensLeft(g: Game, p: int)
    requires EndInv(g, p)
    ensures TurnNotices(Pending(g, p)) + |Moves(g, p)| == 0
  {
    TurnNoticesOf(Pending(g, p));
  }

  /**
   Until the game is over exactly one token exists: a turn notice on its way to the current player or one move
   on its way back; nothing is ever asked of, or in flight from, the other player. Afterwards there is none.
   */
  lemma SingleToken(g: Game)
    requires Reachable(g)
    ensures var cur := g.server.current;
            && TurnNotices(Pending(g, cur)) + |Moves(g, cur)| == (if g.server.over then 0 else 1)
            && TurnNotices(Pending(g, Other(cur))) + |Moves(g, Other(cur))| == 0
  {
    ReachableInv(g);
    var cur := g.server.current;
    if g.server.over {
      NoTokensLeft(g, 1);
      NoTokensLeft(g, 2);
    } else {
      TokensHeld(Pending(g, cur), Moves(g, cur));
      TokensHeld(Pending(g, Other(cur)), []);
    }
  }

  /** Both clients have left their loops and nothing is on its way. */
  predicate Finished(g: Game) {
    && g.server.over && g.client1.Over? && g.client2.Over?
    && Pending(g, 1) == [] && Pending(g, 2) == [] && g.moves1 == [] && g.moves2 == []
  }

  /** The game never gets stuck: some process can always go on until both clients hold the result. */
  lemma NoDeadlock(g: Game)
    requires Reachable(g)
    ensures Finished(g) <==> forall g' :: !Next(g, g')
    ensures g.server.outbox == [] && !g.server.over ==> exists mv :: Accepts(g.server.board, mv)
  {
    ReachableInv(g);
    if g.server.outbox != [] {
      Enabled(g, ServerSend);
    } else if exists p :: p in {1, 2} && ClientOf(g, p).Playing? && Queue(g, p) != [] {
      var p :| p in {1, 2} && ClientOf(g, p).Playing? && Queue(g, p) != [];
      Enabled(g, ClientReceive(p, 0, 0));
    } else {
      assert Pending(g, 1) == g.queue1 && Pending(g, 2) == g.queue2;
      if !g.server.over {
        Enabled(g, ServerReceive);
      } else {
        forall g' ensures !Next(g, g') {
        }
      }
    }
    if !g.server.over {
      FreeCell(g.server);
    }
  }

  lemma Enabled(g: Game, a: Action)
    requires Can(g, a)
    ensures exists g' :: Next(g, g')
  {
    assert Step(g, a, Apply(g, a));
    assert Next(g, Apply(g, a));
  }

  /** A player who is to move has a move that the server accepts. */
  lemma FreeCell(s: Server)
    requires BoardInv(s) && !s.over
    ensures exists mv :: Accepts(s.board, mv)
  {
    CountTotal(s.board);
    var i := CountPositive(s.board, 0);
    var mv := Move(i / 3, i % 3);
    assert 3 * mv.row + mv.col == i;
    assert Accepts(s.board, mv);
  }

  /**
   The result sent is the number of the player with a line, who is the last mover, or 0 exactly when the
   board is full without one; and the two clients end with the same result and the final board.
   */
  lemma GameResult(g: Game)
    requires Reachable(g)
    ensures g.server.over <==> HasLine(g.server.board, 1) || HasLine(g.server.board, 2) || g.server.moves == 9
    ensures g.server.moves == 9 <==> Count(g.server.board, 0) == 0
    ensures var b := g.server.board;
            && !(HasLine(b, 1) && HasLine(b, 2))
            && forall p :: p in {1, 2} && ClientOf(g, p).Over? ==>
                 && g.server.over && ClientOf(g, p).view == Shown(b)
                 && ResultMeaning(b, g.server.current, ClientOf(g, p).result)
  {
    ReachableInv(g);
    var b, cur := g.server.board, g.server.current;
    CountTotal(b);
    forall q | q != 0 && q != cur ensures !HasLine(b, q) {
      assert q !in {1, 2} ==> forall k :: 0 <= k < 9 ==> b[k] != q;
    }
    WinnerIsMover(b, cur);
    forall p | p in {1, 2} && ClientOf(g, p).Over?
      ensures g.server.over && ClientOf(g, p).view == Shown(b) && ClientOf(g, p).result == Winner(b)
    {
      assert EndInv(g, p) && ViewInv(g, p);
    }
  }

  /** The verdict on the board of a game that is over means what it says. */
  lemma VerdictMeaning(s: Server)
    requires BoardInv(s) && s.over
    ensures ResultMeaning(s.board, s.current, Verdict(s.board))
  {
    CountTotal(s.board);
    forall q | q != 0 && q != s.current ensures !HasLine(s.board, q) {
      assert q !in {1, 2} ==> forall k :: 0 <= k < 9 ==> s.board[k] != q;
    }
    WinnerIsMover(s.board, s.current);
  }

  /** A result names the last mover, who has a line, or is 0 for a full board without one. */
  predicate ResultMeaning(b: Board, mover: int, result: int) {
    && (result == 0 <==> Count(b, 0) == 0 && !HasLine(b, 1) && !HasLine(b, 2))
    && (result != 0 ==> result == mover && HasLine(b, result))
  }

  /**
   What the players type reaches the server modulo 256: a typed cell is accepted exactly when its row and
   column, taken modulo 256, name a free cell.
   */
  lemma TypedCell(b: Board, typedRow: int, typedCol: int)
    ensures Accepts(b, Move(SignedByte(typedRow), SignedByte(typedCol))) <==>
            typedRow % 256 < 3 && typedCol % 256 < 3 && b[3 * (typedRow % 256) + typedCol % 256] == 0
  {
  }

  /** So a number far outside the board can be taken for a cell. */
  lemma TypedCellWraps(b: Board)
    ensures Accepts(b, Move(SignedByte(256), SignedByte(-512))) <==> b[0] == 0
  {
    TypedCell(b, 256, -512);
  }

  /** No step overwrites a mark, and a step sets at most one, for the current player, where he moved. */
  lemma MarksStay(g: Game, g': Game)
    requires g.server.current in {1, 2} && Next(g, g')
    ensures || (g'.server.board == g.server.board && g'.server.moves == g.server.moves)
            || exists mv :: mv in Moves(g, g.server.current) && Accepts(g.server.board, mv)
                 && g'.server.board == g.server.board[3 * mv.row + mv.col := g.server.current]
                 && g'.server.moves == g.server.moves + 1
  {
    var a :| Step(g, a, g');
    if a == ServerReceive && Accepts(g.server.board, Moves(g, g.server.current)[0]) {
      var mv := Moves(g, g.server.current)[0];
      assert mv in Moves(g, g.server.current);
    }
  }
}
