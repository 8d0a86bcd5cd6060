/** The server's program: the loop of `main` on its own variables, proved against `GameSystem.HandleMove`. */
module GameServer {
  import opened TicTacToe
  import opened GameSystem

  /**
   What the server sends from state `s` on when its players answer with `script`, one move a notice;
   it ends with the result, or with the notice that nobody has answered yet.
   */
  function Conversation(s: Server, script: seq<Move>): seq<(int, Msg)>
    decreases |script|
  {
    s.outbox + if s.over || script == [] then [] else Conversation(HandleMove(s, script[0]), script[1..])
  }

  /** The server when the players have answered with `script`, nothing left to send. */
  function Outcome(s: Server, script: seq<Move>): Server
    decreases |script|
  {
    if s.over || script == [] then s.(outbox := []) else Outcome(HandleMove(s, script[0]), script[1..])
  }

  class Program {
    const board: array2<int>
    var current: int
    var moveCount: nat
    var over: bool
    /** Every message sent so far, with its addressee. */
    var sent: seq<(int, Msg)>

    ghost predicate Valid()
      reads this
    {
      board.Length0 == 3 && board.Length1 == 3
    }

    /** The program's variables as a server state about to send `outbox`. */
    ghost function Now(outbox: seq<(int, Msg)>): Server
      requires Valid()
      reads this, board
    {
      Server(Cells(board), current, moveCount, over, outbox)
    }

    constructor ()
      ensures Valid() && fresh(board)
      ensures sent == [] && Now(Start().outbox) == Start()
    {
      board := new int[3, 3]((_, _) => 0);
      current, moveCount, over, sent := 1, 0, false, [];
    }

    method Send(player: int, m: Msg)
      modifies `sent
      ensures sent == old(sent) + [(player, m)]
    {
      sent := sent + [(player, m)];
    }

    method SendStateUpdate()
      requires Valid()
      modifies `sent
      ensures sent == old(sent) + [(1, State(Cells(board))), (2, State(Cells(board)))]
    {
      var shown := [board[0, 0], board[0, 1], board[0, 2],
                    board[1, 0], board[1, 1], board[1, 2],
                    board[2, 0], board[2, 1], board[2, 2]];
      Send(1, State(shown));
      Send(2, State(shown));
    }

    method PlaceMark(row: int, col: int)
      requires Valid() && 0 <= row < 3 && 0 <= col < 3
      modifies this, board
      ensures Valid() && Cells(board) == old(Cells(board))[3 * row + col := current]
      ensures current == old(current) && over == old(over) && sent == old(sent)
      ensures moveCount == old(moveCount) + 1
    {
      ghost var before := Cells(board);
      board[row, col] := current;
      moveCount := moveCount + 1;
      assert Cells(board) == before[3 * row + col := current];
    }

    /** The end of a pass with an accepted move: the states, then the results or the change of turn. */
    method Announce(ghost before: Server) returns (ghost out: seq<(int, Msg)>)
      requires Valid() && before.current == current && before.moves + 1 == moveCount && !over
      requires current in {1, 2}
      modifies this
      ensures Valid() && sent == old(sent) + out
      ensures Now(out + NextNotice(over, current)) == AfterMark(before, Cells(board), Winner(Cells(board)))
    {
      SendStateUpdate();
      var winner := CheckWinner(board);
      out := [(1, State(Cells(board))), (2, State(Cells(board)))];
      if winner > 0 || moveCount == 9 {
        var result := if winner > 0 then winner else 0;
        Send(1, Result(result));
        Send(2, Result(result));
        over := true;
        out := out + [(1, Result(result)), (2, Result(result))];
      } else {
        current := if current == 1 then 2 else 1;
      }
    }

    /** The part of a pass after the MOVE has arrived; the notice that opens the next pass is not sent yet. */
    method Receive(mv: Move) returns (ghost out: seq<(int, Msg)>)
      requires Valid() && !over && current in {1, 2}
      modifies this, board
      ensures Valid() && sent == old(sent) + out && current in {1, 2}
      ensures Now(out + NextNotice(over, current)) == HandleMove(old(Now([])), mv)
    {
      var row, col := mv.row, mv.col;
      ghost var before := Now([]);
      if row >= 0 && row < 3 && col >= 0 && col < 3 && board[row, col] == 0 {
        PlaceMark(row, col);
        out := Announce(before);
      } else {
        Send(current, Error(current));
        out := [(current, Error(current))];
      }
    }

    /** One pass of the loop: the notice, then the answer; `rest` is what the players answer from then on. */
    method Pass(mv: Move, ghost rest: seq<Move>)
      requires Valid() && !over && current in {1, 2}
      modifies this, board
      ensures Valid() && current in {1, 2}
      ensures sent + Conversation(Now(NextNotice(over, current)), rest)
              == old(sent) + old(Conversation(Now(NextNotice(over, current)), [mv] + rest))
      ensures Outcome(Now([]), rest) == old(Outcome(Now([]), [mv] + rest))
    {
      ghost var s, told := Now(NextNotice(over, current)), sent;
      Send(current, Turn(current));
      HandleMoveIgnoresOutbox(s, [], mv);
      ghost var out := Receive(mv);
      PassSends(s, mv, rest, told, out, Now([]), NextNotice(over, current));
      PassLeads(s.(outbox := []), mv, rest, Now([]), out + NextNotice(over, current));
    }

    /** The whole game against players who answer with `script`: what is sent, and where it ends. */
    method Play(script: seq<Move>)
      requires Valid() && sent == [] && Now(Start().outbox) == Start()
      modifies this, board
      ensures Valid()
      ensures sent == Conversation(Start(), script) && Now([]) == Outcome(Start(), script)
    {
      var i := 0;
      ghost var whole, end := Conversation(Start(), script), Outcome(Start(), script);
      OutcomeIgnoresOutbox(Start(), [], script);
      while !over && i < |script|
        invariant Valid() && 0 <= i <= |script| && current in {1, 2}
        invariant sent + Conversation(Now(NextNotice(over, current)), script[i..]) == whole
        invariant Outcome(Now([]), script[i..]) == end
      {
        assert script[i..] == [script[i]] + script[i + 1..];
        Pass(script[i], script[i + 1..]);
        i := i + 1;
      }
      ghost var s := Now(NextNotice(over, current));
      assert Conversation(s, script[i..]) == s.outbox;
      if !over {
        Send(current, Turn(current));
      }
    }
  }

  function NextNotice(over: bool, current: int): seq<(int, Msg)> {
    if over then [] else [(current, Turn(current))]
  }

  lemma HandleMoveIgnoresOutbox(s: Server, out: seq<(int, Msg)>, mv: Move)
    ensures HandleMove(s.(outbox := out), mv) == HandleMove(s, mv)
  {
  }

  lemma OutcomeIgnoresOutbox(s: Server, out: seq<(int, Msg)>, script: seq<Move>)
    ensures Outcome(s.(outbox := out), script) == Outcome(s, script)
  {
    if script != [] {
      HandleMoveIgnoresOutbox(s, out, script[0]);
    }
  }

  lemma PassLeads(s: Server, mv: Move, rest: seq<Move>, t: Server, out: seq<(int, Msg)>)
    requires !s.over && t.(outbox := out) == HandleMove(s, mv)
    ensures Outcome(t, rest) == Outcome(s, [mv] + rest)
  {
    assert ([mv] + rest)[1..] == rest;
    OutcomeIgnoresOutbox(t, out, rest);
  }

  /** What pass `s` sends beyond `told`, and what the passes after it send. */
  lemma PassSends(s: Server, mv: Move, rest: seq<Move>, told: seq<(int, Msg)>, out: seq<(int, Msg)>, t: Server,
                  notice: seq<(int, Msg)>)
    requires !s.over
    requires t.(outbox := out + notice) == HandleMove(s, mv)
    ensures told + Conversation(s, [mv] + rest) == told + s.outbox + out + Conversation(t.(outbox := notice), rest)
  {
    assert ([mv] + rest)[1..] == rest;
    var next, shorter := t.(outbox := out + notice), t.(outbox := notice);
    ConversationShortens(next, shorter, rest, out, notice);
    ConversationTail(told + s.outbox, out, Conversation(shorter, rest));
    ConversationTail(told, s.outbox, out + Conversation(shorter, rest));
  }

  lemma ConversationShortens(next: Server, shorter: Server, script: seq<Move>, out: seq<(int, Msg)>,
                             notice: seq<(int, Msg)>)
    requires next == shorter.(outbox := out + notice) && shorter.outbox == notice
    ensures Conversation(next, script) == out + Conversation(shorter, script)
  {
    if !next.over && script != [] {
      HandleMoveIgnoresOutbox(shorter, out + notice, script[0]);
      ConversationTail(out, notice, Conversation(HandleMove(next, script[0]), script[1..]));
    } else {
      ConversationTail(out, notice, []);
    }
  }

  lemma ConversationTail(out: seq<(int, Msg)>, notice: seq<(int, Msg)>, tail: seq<(int, Msg)>)
    ensures out + notice + tail == out + (notice + tail)
  {
  }
}
