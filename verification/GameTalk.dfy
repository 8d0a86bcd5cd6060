/** The server's program and the clients' programs joined: what a whole game says, message by message. */
module GameTalk {
  import opened TicTacToe
  import opened GameSystem
  import opened GameServer
  import GameClient

  lemma {:induction false} AddressedAppend(a: seq<(int, Msg)>, b: seq<(int, Msg)>, p: int)
    ensures Addressed(a + b, p) == Addressed(a, p) + Addressed(b, p)
  {
    if a == [] {
      assert a + b == b;
    } else {
      var first, rest := [a[0]], a[1..];
      assert a == first + rest && a + b == first + (rest + b);
      AddressedAppend(rest, b, p);
      AddressedCons(a[0], rest, p);
      AddressedCons(a[0], rest + b, p);
    }
  }

  /** What player `p` is told in the conversation. */
  function Told(s: Server, script: seq<Move>, p: int): seq<Msg> {
    Addressed(Conversation(s, script), p)
  }

  lemma ToldFirst(s: Server, script: seq<Move>, p: int)
    requires !s.over && script != []
    ensures Told(s, script, p) == Addressed(s.outbox, p) + Told(HandleMove(s, script[0]), script[1..], p)
    ensures Outcome(s, script) == Outcome(HandleMove(s, script[0]), script[1..])
  {
    AddressedAppend(s.outbox, Conversation(HandleMove(s, script[0]), script[1..]), p);
  }

  lemma ToldLast(s: Server, script: seq<Move>, p: int)
    requires s.over || script == []
    ensures Told(s, script, p) == Addressed(s.outbox, p) && Outcome(s, script) == s.(outbox := [])
  {
    assert s.outbox + [] == s.outbox;
  }

  function NoticesLeft(s: Server, p: int): nat {
    if !s.over && p == s.current then 1 else 0
  }

  function Errors(ms: seq<Msg>): nat {
    if ms == [] then 0 else (if ms[0].Error? then 1 else 0) + Errors(ms[1..])
  }

  lemma {:induction false} NoticesAppend(a: seq<Msg>, b: seq<Msg>)
    ensures TurnNotices(a + b) == TurnNotices(a) + TurnNotices(b) && Errors(a + b) == Errors(a) + Errors(b)
  {
    if a == [] {
      assert a + b == b;
    } else {
      assert (a + b)[0] == a[0] && (a + b)[1..] == a[1..] + b;
      NoticesAppend(a[1..], b);
    }
  }

  function Results(b: Board): seq<(int, Msg)> {
    [(1, Result(Verdict(b))), (2, Result(Verdict(b)))]
  }

  ghost function Sound(): Server -> bool {
    s => BoardInv(s)
  }

  /** `AboutToSend` as a function value, which is taken for one fact. */
  ghost function Ready(): Server -> bool {
    s => AboutToSend(s)
  }

  /** A server that is about to send what a pass of its loop leaves it to send. */
  predicate AboutToSend(s: Server) {
    && BoardInv(s)
    && |s.outbox| >= 1
    && (if s.over then |s.outbox| >= 2 && s.outbox[|s.outbox| - 2..] == Results(s.board)
        else s.outbox[|s.outbox| - 1] == (s.current, Turn(s.current)))
    && ReadyFor(s, 1) && ReadyFor(s, 2)
  }

  /** Of these sends: one notice for the current player, and a result at the end of the game only. */
  predicate ReadyFor(s: Server, p: int) {
    var mine := Addressed(s.outbox, p);
    && TurnNotices(mine) == NoticesLeft(s, p)
    && (if s.over then mine != [] && mine[|mine| - 1] == Result(Verdict(s.board)) && NoResult(mine[..|mine| - 1])
        else NoResult(mine))
  }

  predicate NoResult(ms: seq<Msg>) {
    forall i :: 0 <= i < |ms| ==> !ms[i].Result?
  }

  lemma FirstNoticeReady(s: Server)
    requires Sound()(s) && s.current == 1 && !s.over && s.outbox == [(1, Turn(1))]
    ensures Ready()(s)
    ensures Addressed(s.outbox, 1) == [Turn(1)] && Addressed(s.outbox, 2) == []
  {
    AddressedCons((1, Turn(1)), [], 1);
    AddressedCons((1, Turn(1)), [], 2);
    assert [(1, Turn(1))] + [] == s.outbox;
    assert Addressed(s.outbox, 1) == [Turn(1)] && Addressed(s.outbox, 2) == [];
    assert [Turn(1)][1..] == [];
    assert ReadyFor(s, 1) && ReadyFor(s, 2);
  }

  /** A game that is yet to be played. */
  ghost predicate Opens(s: Server) {
    Ready()(s) && s.moves == 0 && Untold(s, 1) && Untold(s, 2)
  }

  predicate Untold(s: Server, p: int) {
    Count(s.board, p) == 0 && Errors(Addressed(s.outbox, p)) == 0 && Replay(Blank, Addressed(s.outbox, p)) == Blank
  }

  lemma FirstNoticeOpens(s: Server)
    requires Sound()(s) && s.current == 1 && !s.over && s.moves == 0 && s.outbox == [(1, Turn(1))]
    requires Count(s.board, 1) == 0 && Count(s.board, 2) == 0
    ensures Opens(s)
  {
    FirstNoticeReady(s);
    assert [Turn(1)][1..] == [];
  }

  lemma StartSound()
    ensures Sound()(Start())
  {
    StartBoardInv();
  }

  lemma StartEmpty()
    ensures Count(Start().board, 1) == 0 && Count(Start().board, 2) == 0
  {
    assert Count(EMPTY_BOARD, 1) == 0 && Count(EMPTY_BOARD, 2) == 0;
  }

  /** The server starts such a game. */
  lemma StartOpens(s: Server)
    requires s == Start()
    ensures Opens(s)
  {
    StartSound();
    StartEmpty();
    FirstNoticeOpens(s);
  }

  lemma NoticesOne(m: Msg)
    ensures TurnNotices([m]) == (if m.Turn? then 1 else 0) && Errors([m]) == if m.Error? then 1 else 0
  {
    assert [m][1..] == [];
  }

  lemma MarkTold(mine: seq<Msg>, b: Board, last: seq<Msg>)
    requires mine == [State(b)] + last && (last == [] || last == [last[0]])
    ensures TurnNotices(mine) == TurnNotices(last) && Errors(mine) == Errors(last)
    ensures last != [] ==> mine[|mine| - 1] == last[0] && mine[..|mine| - 1] == [State(b)]
    ensures last == [] ==> TurnNotices(last) == 0 && Errors(last) == 0
    ensures last != [] ==> TurnNotices(last) == (if last[0].Turn? then 1 else 0)
                           && Errors(last) == if last[0].Error? then 1 else 0
  {
    NoticesAppend([State(b)], last);
    assert [State(b)][1..] == [] && (last != [] ==> last[1..] == []);
  }

  lemma ErrorTold(mine: seq<Msg>, p: int)
    requires mine == [Error(p), Turn(p)]
    ensures TurnNotices(mine) == 1 && Errors(mine) == 1
  {
    NoticesOne(Error(p));
    NoticesOne(Turn(p));
    NoticesAppend([Error(p)], [Turn(p)]);
    assert mine == [Error(p)] + [Turn(p)];
  }

  lemma MarkVerdict(s: Server, mv: Move)
    requires Sound()(s) && !s.over && Accepts(s.board, mv)
    ensures var b := s.board[3 * mv.row + mv.col := s.current];
            && Winner(b) >= 0
            && Count(b, s.current) == Count(s.board, s.current) + 1
            && Count(b, Other(s.current)) == Count(s.board, Other(s.current))
  {
    var b := MarkedBoard(s, 3 * mv.row + mv.col);
  }

  lemma VerdictSound(s: Server)
    requires Sound()(s) && s.over
    ensures ResultMeaning(s.board, s.current, Verdict(s.board)) && s.moves > 0
  {
    VerdictMeaning(s);
  }

  lemma HandleSound(s: Server, mv: Move)
    requires Sound()(s) && !s.over
    ensures Sound()(HandleMove(s, mv))
  {
    HandleMoveKeepsBoard(s, mv);
  }

  lemma MarkReadyFor(s: Server, mv: Move, p: int)
    requires Sound()(s) && !s.over && p in {1, 2} && s.current in {1, 2} && Accepts(s.board, mv)
    ensures ReadyFor(HandleMove(s, mv), p) && Errors(Addressed(HandleMove(s, mv).outbox, p)) == 0
  {
    var t, b := HandleMove(s, mv), s.board[3 * mv.row + mv.col := s.current];
    MarkVerdict(s, mv);
    OutboxAfterMark(s, b, Winner(b), p);
    var last := if t.over then [Result(Winner(b))] else if p == s.current then [] else [Turn(p)];
    MarkTold(Addressed(t.outbox, p), b, last);
  }

  lemma RejectReadyFor(s: Server, mv: Move, p: int)
    requires !s.over && p in {1, 2} && s.current in {1, 2} && !Accepts(s.board, mv)
    ensures var t := HandleMove(s, mv);
            ReadyFor(t, p) && Errors(Addressed(t.outbox, p)) == if p == s.current then 1 else 0
  {
    OutboxAfterReject(s, mv, p);
    if p == s.current {
      ErrorTold(Addressed(HandleMove(s, mv).outbox, p), p);
    }
  }

  lemma HandleReadyFor(s: Server, mv: Move, p: int)
    requires Sound()(s) && !s.over && p in {1, 2}
    ensures ReadyFor(HandleMove(s, mv), p)
    ensures Errors(Addressed(HandleMove(s, mv).outbox, p)) == if !Accepts(s.board, mv) && p == s.current then 1 else 0
  {
    if Accepts(s.board, mv) {
      MarkReadyFor(s, mv, p);
    } else {
      RejectReadyFor(s, mv, p);
    }
  }

  lemma HandleReady(s: Server, mv: Move)
    requires Sound()(s) && !s.over
    ensures Ready()(HandleMove(s, mv))
  {
    HandleSound(s, mv);
    HandleReadyFor(s, mv, 1);
    HandleReadyFor(s, mv, 2);
    if Accepts(s.board, mv) {
      MarkVerdict(s, mv);
    }
  }

  /** An answer of the current player becomes a mark or brings an error. */
  lemma AnswerCounts(s: Server, mv: Move, p: int)
    requires Sound()(s) && !s.over && p in {1, 2}
    ensures var t := HandleMove(s, mv);
            NoticesLeft(s, p) + Count(s.board, p) == Count(t.board, p) + Errors(Addressed(t.outbox, p))
  {
    HandleReadyFor(s, mv, p);
    if Accepts(s.board, mv) {
      MarkVerdict(s, mv);
    }
  }

  lemma {:induction false} TalkCounts(s: Server, script: seq<Move>, p: int)
    requires Ready()(s) && p in {1, 2}
    ensures var told, end := Told(s, script, p), Outcome(s, script);
            && Sound()(end)
            && TurnNotices(told) + Count(s.board, p) + Errors(Addressed(s.outbox, p)) ==
               NoticesLeft(end, p) + Count(end.board, p) + Errors(told)
    decreases |script|
  {
    if s.over || script == [] {
      ToldLast(s, script, p);
    } else {
      var t := HandleMove(s, script[0]);
      ToldFirst(s, script, p);
      HandleReady(s, script[0]);
      AnswerCounts(s, script[0], p);
      TalkCounts(t, script[1..], p);
      NoticesAppend(Addressed(s.outbox, p), Told(t, script[1..], p));
    }
  }

  /** Each notice but the last is answered by one move of the script. */
  lemma {:induction false} NoticesUseScript(s: Server, script: seq<Move>)
    requires Ready()(s)
    ensures var n := TurnNotices(Told(s, script, 1)) + TurnNotices(Told(s, script, 2));
            if Outcome(s, script).over then n <= |script| else n == |script| + 1
    decreases |script|
  {
    if s.over || script == [] {
      ToldLast(s, script, 1);
      ToldLast(s, script, 2);
    } else {
      var t := HandleMove(s, script[0]);
      ToldFirst(s, script, 1);
      ToldFirst(s, script, 2);
      HandleReady(s, script[0]);
      NoticesUseScript(t, script[1..]);
      NoticesAppend(Addressed(s.outbox, 1), Told(t, script[1..], 1));
      NoticesAppend(Addressed(s.outbox, 2), Told(t, script[1..], 2));
    }
  }

  predicate Closes(talk: seq<(int, Msg)>, end: Server) {
    if end.over then |talk| >= 2 && talk[|talk| - 2..] == Results(end.board)
    else talk != [] && talk[|talk| - 1] == (end.current, Turn(end.current))
  }

  lemma ClosesAll(before: seq<(int, Msg)>, talk: seq<(int, Msg)>, end: Server)
    requires Closes(talk, end)
    ensures Closes(before + talk, end)
  {
    var all := before + talk;
    assert |talk| >= 2 ==> all[|all| - 2..] == talk[|talk| - 2..];
  }

  lemma {:induction false} TalkEnds(s: Server, script: seq<Move>)
    requires Ready()(s)
    ensures Closes(Conversation(s, script), Outcome(s, script))
    decreases |script|
  {
    if s.over || script == [] {
      assert Conversation(s, script) == s.outbox;
    } else {
      var t := HandleMove(s, script[0]);
      HandleReady(s, script[0]);
      TalkEnds(t, script[1..]);
      ClosesAll(s.outbox, Conversation(t, script[1..]), Outcome(t, script[1..]));
    }
  }

  predicate EndsTold(told: seq<Msg>, end: Server) {
    if end.over then told != [] && told[|told| - 1] == Result(Verdict(end.board)) && NoResult(told[..|told| - 1])
    else NoResult(told)
  }

  lemma EndsToldAll(before: seq<Msg>, told: seq<Msg>, end: Server)
    requires NoResult(before) && EndsTold(told, end)
    ensures EndsTold(before + told, end)
  {
    if end.over {
      assert (before + told)[..|before + told| - 1] == before + told[..|told| - 1];
    }
  }

  lemma {:induction false} TalkResults(s: Server, script: seq<Move>, p: int)
    requires Ready()(s) && p in {1, 2}
    ensures EndsTold(Told(s, script, p), Outcome(s, script))
    decreases |script|
  {
    if s.over || script == [] {
      ToldLast(s, script, p);
    } else {
      var t := HandleMove(s, script[0]);
      ToldFirst(s, script, p);
      HandleReady(s, script[0]);
      TalkResults(t, script[1..], p);
      EndsToldAll(Addressed(s.outbox, p), Told(t, script[1..], p), Outcome(t, script[1..]));
    }
  }

  function ViewOf(s: Server): View {
    if s.moves == 0 then Blank else Shown(s.board)
  }

  lemma {:induction false} TalkShows(s: Server, script: seq<Move>, p: int, v: View)
    requires Ready()(s) && p in {1, 2}
    requires Replay(v, Addressed(s.outbox, p)) == ViewOf(s)
    ensures Replay(v, Told(s, script, p)) == ViewOf(Outcome(s, script))
    decreases |script|
  {
    if s.over || script == [] {
      ToldLast(s, script, p);
    } else {
      var t := HandleMove(s, script[0]);
      ToldFirst(s, script, p);
      HandleReady(s, script[0]);
      MoveShows(s, script[0], p, ViewOf(s));
      TalkShows(t, script[1..], p, ViewOf(s));
      ReplayAppend(v, Addressed(s.outbox, p), Told(t, script[1..], p));
    }
  }

  // ---------------------------------------------------------------------------------------------
  // Main results
  // ---------------------------------------------------------------------------------------------

  /**
   What the server says in a whole game: it closes a finished game with the two results, which mean what they say, and
   an unfinished one with the notice of the player whose turn it is.
   */
  lemma LastWords(s: Server, script: seq<Move>)
    requires Opens(s)
    ensures var talk, end := Conversation(s, script), Outcome(s, script);
            if end.over then
              var w := Verdict(end.board);
              && ResultMeaning(end.board, end.current, w) && |talk| >= 2
              && talk[|talk| - 2..] == [(1, Result(w)), (2, Result(w))]
            else talk != [] && talk[|talk| - 1] == (end.current, Turn(end.current))
  {
    TalkEnds(s, script);
    TalkCounts(s, script, 1);
    if Outcome(s, script).over {
      VerdictSound(Outcome(s, script));
    }
  }

  /**
   Every notice a player gets is accounted for: by a mark of that player on the final board, by an error, or it is the
   open one; and each move of the script answered one of them.
   */
  lemma NoticesAccounted(s: Server, script: seq<Move>, p: int)
    requires Opens(s) && p in {1, 2}
    ensures var talk, end := Conversation(s, script), Outcome(s, script);
            var told, n := Addressed(talk, p), TurnNotices(Addressed(talk, 1)) + TurnNotices(Addressed(talk, 2));
            && TurnNotices(told) ==
               Count(end.board, p) + Errors(told) + (if !end.over && p == end.current then 1 else 0)
            && (if end.over then n <= |script| else n == |script| + 1)
  {
    TalkCounts(s, script, p);
    NoticesUseScript(s, script);
  }

  /** The final board reaches both players. */
  lemma BoardsTold(s: Server, script: seq<Move>, p: int)
    requires Opens(s) && p in {1, 2}
    ensures var end := Outcome(s, script);
            Replay(Blank, Addressed(Conversation(s, script), p)) ==
            if end.moves == 0 then Blank else Shown(end.board)
  {
    TalkShows(s, script, p, Blank);
  }

  /** What a player of a finished game is told is an account of the game, and then the result. */
  lemma ToldOfFinished(s: Server, script: seq<Move>, p: int) returns (before: seq<Msg>, w: int)
    requires Opens(s) && p in {1, 2} && Outcome(s, script).over
    ensures var end, told := Outcome(s, script), Addressed(Conversation(s, script), p);
            && told == before + [Result(w)] + [] && NoResult(before)
            && ResultMeaning(end.board, end.current, w)
            && Replay(Blank, before) == Shown(end.board) && TurnNotices(before) == TurnNotices(told)
  {
    var told := Told(s, script, p);
    TalkResults(s, script, p);
    TalkCounts(s, script, p);
    VerdictSound(Outcome(s, script));
    before, w := told[..|told| - 1], Verdict(Outcome(s, script).board);
    BoardsTold(s, script, p);
    ReplayAppend(Blank, before, [Result(w)]);
    NoticesAppend(before, [Result(w)]);
    assert told == before + [Result(w)];
  }

  /**
   The programs of server and client together: when the script ends the game, the client of each player ends with the
   final board and a result that means what it says, having sent one move for each notice it got.
   */
  lemma ClientsSeeTheGame(s: Server, script: seq<Move>, p: int, typed: GameClient.Typing)
    requires Opens(s) && p in {1, 2} && Outcome(s, script).over
    ensures var end, told := Outcome(s, script), Addressed(Conversation(s, script), p);
            var (client, moves) := GameClient.Attend(Playing(Blank), told, typed, 0);
            && client.Over? && client.view == Shown(end.board)
            && ResultMeaning(end.board, end.current, client.result)
            && |moves| == TurnNotices(told)
  {
    var before, w := ToldOfFinished(s, script, p);
    GameClient.ResultIsFinal(Blank, before, w, [], typed, 0);
    GameClient.AttendMeaning(Blank, before, typed, 0);
  }

  /** Every move of the script is handled once and in order, until the game is over. */
  lemma {:induction false} MoveByMove(s: Server, script: seq<Move>, mv: Move)
    ensures var end := Outcome(s, script);
            Outcome(s, script + [mv]) == if end.over then end else HandleMove(end, mv).(outbox := [])
    decreases |script|
  {
    var all := script + [mv];
    if s.over {
    } else if script == [] {
      assert all == [mv] && all[1..] == [];
      HandleMoveIgnoresOutbox(s, [], mv);
    } else {
      assert all[0] == script[0] && all[1..] == script[1..] + [mv];
      MoveByMove(HandleMove(s, script[0]), script[1..], mv);
    }
  }
}
