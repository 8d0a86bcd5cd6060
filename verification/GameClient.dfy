/** The client's program: its dispatch loop, proved against the client steps of `GameSystem`. */
module GameClient {
  import opened TicTacToe
  import opened GameSystem

  /** What a player types, one row and column a turn notice. */
  type Typing = nat -> (int, int)

  /** The client after the messages of `inbox`, up to a result, and the moves it sends; `k` inputs are used up. */
  function Attend(c: Client, inbox: seq<Msg>, typed: Typing, k: nat): (Client, seq<Move>)
    decreases |inbox|
  {
    if c.Over? || inbox == [] then (c, [])
    else
      var m := inbox[0];
      var (end, more) := Attend(ClientTakes(c, m), inbox[1..], typed, if m.Turn? then k + 1 else k);
      (end, Answer(m, typed(k).0, typed(k).1) + more)
  }

  lemma AttendFirst(c: Client, inbox: seq<Msg>, typed: Typing, k: nat, told: seq<Move>)
    requires c.Playing? && inbox != []
    ensures var m, next := inbox[0], if inbox[0].Turn? then k + 1 else k;
            && Attend(c, inbox, typed, k).0 == Attend(ClientTakes(c, m), inbox[1..], typed, next).0
            && told + Attend(c, inbox, typed, k).1
               == told + Answer(m, typed(k).0, typed(k).1) + Attend(ClientTakes(c, m), inbox[1..], typed, next).1
  {
  }

  /** Until a result comes, the client shows the last board sent, and sends one move for each turn notice. */
  lemma {:induction false} AttendMeaning(v: View, inbox: seq<Msg>, typed: Typing, k: nat)
    requires forall i :: 0 <= i < |inbox| ==> !inbox[i].Result?
    ensures var (c, sent) := Attend(Playing(v), inbox, typed, k);
            && c == Playing(Replay(v, inbox))
            && |sent| == TurnNotices(inbox)
            && forall i :: 0 <= i < |sent| ==> sent[i] == Move(SignedByte(typed(k + i).0), SignedByte(typed(k + i).1))
    decreases |inbox|
  {
    if inbox != [] {
      var m := inbox[0];
      AttendMeaning(if m.State? then Shown(m.board) else v, inbox[1..], typed, if m.Turn? then k + 1 else k);
    }
  }

  /** A result ends the client with that result; nothing that comes after it is read or answered. */
  lemma {:induction false} ResultIsFinal(v: View, before: seq<Msg>, w: int, after: seq<Msg>, typed: Typing, k: nat)
    requires forall i :: 0 <= i < |before| ==> !before[i].Result?
    ensures Attend(Playing(v), before + [Result(w)] + after, typed, k)
            == (Over(Replay(v, before), w), Attend(Playing(v), before, typed, k).1)
    decreases |before|
  {
    var inbox := before + [Result(w)] + after;
    if before == [] {
      assert inbox == [Result(w)] + after && inbox[0] == Result(w);
      AttendFirst(Playing(v), inbox, typed, k, []);
      assert [] + Attend(Playing(v), inbox, typed, k).1 == [] + [] + [] == [];
      assert [] + Attend(Playing(v), inbox, typed, k).1 == Attend(Playing(v), inbox, typed, k).1;
    } else {
      var m := before[0];
      assert inbox[0] == m && inbox[1..] == before[1..] + [Result(w)] + after;
      ResultIsFinal(if m.State? then Shown(m.board) else v, before[1..], w, after, typed, if m.Turn? then k + 1 else k);
    }
  }

  class Program {
    const board: array2<int>
    /** Whether the board has been written yet. */
    var shown: bool
    var over: bool
    var result: int
    var sent: seq<Move>

    ghost predicate Valid()
      reads this
    {
      board.Length0 == 3 && board.Length1 == 3
    }

    ghost function Now(): Client
      requires Valid()
      reads this, board
    {
      var v := if shown then Shown(Cells(board)) else Blank;
      if over then Over(v, result) else Playing(v)
    }

    constructor ()
      ensures Valid() && fresh(board) && Now() == Playing(Blank) && sent == []
    {
      board := new int[3, 3]((_, _) => 0);
      shown, over, result, sent := false, false, 0, [];
    }

    method CopyBoard(b: Board)
      requires Valid() && !over
      modifies this, board
      ensures Valid() && Now() == Playing(Shown(b)) && sent == old(sent)
    {
      board[0, 0], board[0, 1], board[0, 2] := b[0], b[1], b[2];
      board[1, 0], board[1, 1], board[1, 2] := b[3], b[4], b[5];
      board[2, 0], board[2, 1], board[2, 2] := b[6], b[7], b[8];
      shown := true;
      assert Cells(board) == b;
    }

    /** One message is dispatched on its kind. */
    method Dispatch(m: Msg, row: int, col: int)
      requires Valid() && !over
      modifies this, board
      ensures Valid() && Now() == ClientTakes(old(Now()), m)
      ensures sent == old(sent) + Answer(m, row, col)
    {
      match m {
        case Turn(_) => sent := sent + [Move(SignedByte(row), SignedByte(col))];
        case State(b) => CopyBoard(b);
        case Result(w) => result, over := w, true;
        case Error(_) =>
      }
    }

    method Run(inbox: seq<Msg>, typed: Typing)
      requires Valid() && Now() == Playing(Blank) && sent == []
      modifies this, board
      ensures Valid() && (Now(), sent) == Attend(Playing(Blank), inbox, typed, 0)
    {
      ghost var (end, moves) := Attend(Playing(Blank), inbox, typed, 0);
      var i, k := 0, 0;
      assert inbox[0..] == inbox && [] + moves == moves;
      while i < |inbox| && !over
        invariant Valid() && 0 <= i <= |inbox| && 0 <= k
        invariant Attend(Now(), inbox[i..], typed, k).0 == end
        invariant sent + Attend(Now(), inbox[i..], typed, k).1 == moves
      {
        var m := inbox[i];
        assert inbox[i..][0] == m && inbox[i..][1..] == inbox[i + 1..];
        AttendFirst(Now(), inbox[i..], typed, k, sent);
        Dispatch(m, typed(k).0, typed(k).1);
        if m.Turn? {
          k := k + 1;
        }
        i := i + 1;
      }
      assert sent + [] == sent;
    }
  }
}
