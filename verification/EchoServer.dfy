/**
 The server threads of the line echo protocol, each against an arbitrary peer and a kernel that may fail, be
 interrupted or take no byte at any call.
 */
module EchoServer {
  import opened LineProtocol
  import Runs

  datatype Ending = PeerClosed | RecvFailed | SendFailed

  /** Where a thread is: before recv, in send_all with `done` bytes of the buffer out, past its loop, or finished. */
  datatype Point =
    | AtRecv
    | InSend(buf: string, done: nat)
    | Stopped(ending: Ending, tail: string)
    | Closed(ending: Ending, tail: string)

  /**
   A connection: all that the peer sends in its life, what of it is still to come, what the thread has received
   and sent, where it is, and the account of its calls: interruptions to come, failures, and sends of no byte.
   */
  datatype Connection = Connection(
    offered: string, input: string, received: string, sent: string, at: Point,
    interrupts: nat, recvErrors: nat, sendErrors: nat, zeroSends: nat)

  datatype Action =
    | RecvSome(n: nat)
    | RecvEnd
    | RecvFails
    | SendSome(n: nat)
    | SendNothing
    | SendFails
    | Interrupt
    | Close

  predicate Initial(c: Connection) {
    c == Connection(c.offered, c.offered, "", "", AtRecv, c.interrupts, 0, 0, 0)
  }

  predicate Can(c: Connection, a: Action) {
    match a
    case RecvSome(n) => c.at == AtRecv && 0 < n <= |c.input| && n <= BUF_SIZE
    case RecvEnd => c.at == AtRecv && c.input == ""
    case RecvFails => c.at == AtRecv
    case SendSome(n) => c.at.InSend? && 0 < n && c.at.done + n <= |c.at.buf|
    case SendNothing => c.at.InSend? && c.at.done <= |c.at.buf|
    case SendFails => c.at.InSend? && c.at.done <= |c.at.buf|
    case Interrupt => (c.at == AtRecv || c.at.InSend?) && c.interrupts > 0
    case Close => c.at.Stopped?
  }

  /** A send that takes nothing makes send_all return short, and the thread goes back to recv all the same. */
  function Apply(c: Connection, a: Action): Connection
    requires Can(c, a)
  {
    match a
    case RecvSome(n) => c.(input := c.input[n..], received := c.received + c.input[..n], at := InSend(c.input[..n], 0))
    case RecvEnd => c.(at := Stopped(PeerClosed, ""))
    case RecvFails => c.(recvErrors := c.recvErrors + 1, at := Stopped(RecvFailed, ""))
    case SendSome(n) =>
      var buf, done := c.at.buf, c.at.done + n;
      c.(sent := c.sent + buf[c.at.done..done], at := if done < |buf| then InSend(buf, done) else AtRecv)
    case SendNothing => c.(zeroSends := c.zeroSends + 1, at := AtRecv)
    case SendFails => c.(sendErrors := c.sendErrors + 1, at := Stopped(SendFailed, c.at.buf[c.at.done..]))
    case Interrupt => c.(interrupts := c.interrupts - 1)
    case Close => c.(at := Closed(c.at.ending, c.at.tail))
  }

  ghost predicate Next(c: Connection, c': Connection) {
    exists a :: Can(c, a) && c' == Apply(c, a)
  }

  ghost predicate Reachable(c: Connection) {
    Runs.Reachable(Initial, Next, c)
  }

  /** What the thread holds of the last buffer and has not sent. */
  function Unsent(at: Point): string {
    match at
    case AtRecv => ""
    case InSend(buf, done) => if done <= |buf| then buf[done..] else ""
    case Stopped(_, tail) => tail
    case Closed(_, tail) => tail
  }

  /** The thread has left its loop for that reason. */
  predicate EndedBy(at: Point, ending: Ending) {
    (at.Stopped? || at.Closed?) && at.ending == ending
  }

  predicate Inv(c: Connection) {
    && c.received + c.input == c.offered
    && |c.sent| + |Unsent(c.at)| + c.zeroSends <= |c.received|
    && (c.zeroSends == 0 ==> c.received == c.sent + Unsent(c.at))
    && (c.at.InSend? ==> c.at.done < |c.at.buf| <= BUF_SIZE)
    && c.recvErrors == (if EndedBy(c.at, RecvFailed) then 1 else 0)
    && c.sendErrors == (if EndedBy(c.at, SendFailed) then 1 else 0)
    && (EndedBy(c.at, SendFailed) ==> 0 < |Unsent(c.at)| <= BUF_SIZE)
    && (EndedBy(c.at, RecvFailed) ==> Unsent(c.at) == "")
    && (EndedBy(c.at, PeerClosed) ==> Unsent(c.at) == "" && c.input == "")
  }

  lemma RecvSomeKeeps(c: Connection, n: nat)
    requires Inv(c) && Can(c, RecvSome(n))
    ensures Inv(Apply(c, RecvSome(n)))
  {
    assert c.input[..n] + c.input[n..] == c.input;
    Associative(c.received, c.input[..n], c.input[n..]);
    assert c.input[..n][0..] == c.input[..n];
  }

  lemma SentThenRest(sent: string, buf: string, done: nat, n: nat)
    requires done + n <= |buf|
    ensures sent + buf[done..done + n] + buf[done + n..] == sent + buf[done..]
  {
    assert buf[done..done + n] + buf[done + n..] == buf[done..];
    Associative(sent, buf[done..done + n], buf[done + n..]);
  }

  lemma SendSomeKeeps(c: Connection, n: nat)
    requires Inv(c) && Can(c, SendSome(n))
    ensures Inv(Apply(c, SendSome(n)))
  {
    var c' := Apply(c, SendSome(n));
    SentThenRest(c.sent, c.at.buf, c.at.done, n);
    assert Unsent(c'.at) == c.at.buf[c.at.done + n..];
    assert c'.sent + Unsent(c'.at) == c.sent + Unsent(c.at);
  }

  lemma StepKeeps(c: Connection, a: Action)
    requires Inv(c) && Can(c, a)
    ensures Inv(Apply(c, a))
  {
    match a
    case RecvSome(n) => RecvSomeKeeps(c, n);
    case SendSome(n) => SendSomeKeeps(c, n);
    case _ =>
  }

  lemma ReachableInv(c: Connection)
    requires Reachable(c)
    ensures Inv(c)
  {
    var init, next, inv := Initial, Next, (x: Connection) => Inv(x);
    forall x, y | inv(x) && next(x, y) ensures inv(y) {
      var a :| Can(x, a) && y == Apply(x, a);
      StepKeeps(x, a);
    }
    Runs.ReachableInvariant(init, next, inv, c);
  }

  // ---------------------------------------------------------------------------------------------
  // Main results
  // ---------------------------------------------------------------------------------------------

  /**
   Echo conservation, at every moment of every run: bytes received are bytes sent followed by the unsent part
   of one buffer, exactly as long as no send has taken nothing at all; so the output is then a prefix of the
   input, and equal to it at recv.
   */
  lemma EchoConservation(c: Connection)
    requires Reachable(c)
    ensures c.received + c.input == c.offered
    ensures c.received == c.sent + Unsent(c.at) <==> c.zeroSends == 0
    ensures |Unsent(c.at)| <= BUF_SIZE && (c.at == AtRecv ==> Unsent(c.at) == "")
    ensures c.zeroSends == 0 ==> c.sent <= c.received <= c.offered
    ensures c.at == AtRecv ==> (c.sent == c.received <==> c.zeroSends == 0)
  {
    ReachableInv(c);
    assert c.received == c.sent + Unsent(c.at) ==> |c.received| == |c.sent| + |Unsent(c.at)|;
    assert c.at == AtRecv ==> c.sent + Unsent(c.at) == c.sent;
  }

  /**
   Why a thread stops: for a failed recv or a failed send exactly when one of its calls failed that way, and
   otherwise because the peer has closed; it then has returned everything exactly when every send took something.
   Only a failed send leaves bytes behind.
   */
  lemma Endings(c: Connection)
    requires Reachable(c) && (c.at.Stopped? || c.at.Closed?)
    ensures c.at.ending == RecvFailed <==> c.recvErrors > 0
    ensures c.at.ending == SendFailed <==> c.sendErrors > 0
    ensures c.recvErrors + c.sendErrors <= 1
    ensures c.at.tail != "" <==> c.at.ending == SendFailed
    ensures c.at.ending == PeerClosed ==> c.received == c.offered && (c.sent == c.offered <==> c.zeroSends == 0)
  {
    ReachableInv(c);
    if c.at.ending == PeerClosed {
      assert c.received + "" == c.received && c.sent + "" == c.sent;
    }
  }

  /** A send that takes nothing is not noticed: the thread goes back to recv, and what it held is lost. */
  lemma ZeroSendLoses(interrupts: nat)
    ensures Reachable(Connection("ab", "", "ab", "", AtRecv, interrupts, 0, 0, 1))
  {
    var c0 := Connection("ab", "ab", "", "", AtRecv, interrupts, 0, 0, 0);
    assert c0.input[..2] == "ab" && c0.input[2..] == "" && "" + "ab" == "ab";
    var c1 := Apply(c0, RecvSome(2));
    var c2 := Apply(c1, SendNothing);
    Runs.ReachableInit(Initial, Next, c0);
    Runs.ReachableStep(Initial, Next, c0, c1);
    Runs.ReachableStep(Initial, Next, c1, c2);
  }

  /** Either one of the threads or its kernel takes a step, or a connection is accepted and gets a thread. */
  ghost predicate ServerNext(cs: seq<Connection>, cs': seq<Connection>) {
    || (exists i, c :: 0 <= i < |cs| && Next(cs[i], c) && cs' == cs[i := c])
    || (exists c :: Initial(c) && cs' == cs + [c])
  }

  /** With any number of threads, interleaved at will, each connection is one that a thread could have left alone. */
  lemma ThreadsInterleave(cs: seq<Connection>)
    requires Runs.Reachable((x: seq<Connection>) => x == [], ServerNext, cs)
    ensures forall i :: 0 <= i < |cs| ==> Reachable(cs[i])
  {
    var none, next := (x: seq<Connection>) => x == [], ServerNext;
    var inv := (x: seq<Connection>) => forall i :: 0 <= i < |x| ==> Reachable(x[i]);
    forall x, y | inv(x) && next(x, y) ensures inv(y) {
      if i, c :| 0 <= i < |x| && Next(x[i], c) && y == x[i := c] {
        Runs.ReachableStep(Initial, Next, x[i], c);
      } else {
        var c :| Initial(c) && y == x + [c];
        Runs.ReachableInit(Initial, Next, c);
      }
    }
    Runs.ReachableInvariant(none, next, inv, cs);
  }

  /** So every connection is conserved at every moment, whatever the other threads and peers do. */
  lemma EveryThreadConserves(cs: seq<Connection>, i: nat)
    requires Runs.Reachable((x: seq<Connection>) => x == [], ServerNext, cs) && i < |cs|
    ensures cs[i].zeroSends == 0 ==>
              && cs[i].received == cs[i].sent + Unsent(cs[i].at)
              && cs[i].sent <= cs[i].offered
              && (cs[i].at == AtRecv ==> cs[i].sent == cs[i].received)
              && (EndedBy(cs[i].at, PeerClosed) ==> cs[i].sent == cs[i].offered)
  {
    ThreadsInterleave(cs);
    EchoConservation(cs[i]);
    if EndedBy(cs[i].at, PeerClosed) {
      Endings(cs[i]);
    }
  }

  // ---------------------------------------------------------------------------------------------
  // The program of one thread
  // ---------------------------------------------------------------------------------------------

  const EINTR_RETURN := -1
  const ERROR_RETURN := -2

  /** The descriptor of a thread: each call on it is a step of its connection. */
  class Socket {
    var c: Connection

    ghost predicate Valid()
      reads this
    {
      Reachable(c)
    }

    constructor (offered: string, interrupts: nat)
      ensures Valid() && Initial(c) && c.offered == offered && c.interrupts == interrupts
    {
      c := Connection(offered, offered, "", "", AtRecv, interrupts, 0, 0, 0);
      new;
      Runs.ReachableInit(Initial, Next, c);
    }

    method Take(a: Action)
      requires Valid() && Can(c, a)
      modifies this
      ensures Valid() && c == Apply(old(c), a)
    {
      var c' := Apply(c, a);
      Runs.ReachableStep(Initial, Next, c, c');
      c := c';
    }

    /** recv: any positive number of the bytes to come, 0 at the end of the peer's data, or a failure. */
    method Recv() returns (n: int, data: string)
      requires Valid() && c.at == AtRecv
      modifies this
      ensures Valid()
      ensures n in {EINTR_RETURN, ERROR_RETURN} || 0 <= n == |data|
      ensures var a := if n == EINTR_RETURN then Interrupt else if n == ERROR_RETURN then RecvFails
                       else if n == 0 then RecvEnd else RecvSome(n);
              Can(old(c), a) && c == Apply(old(c), a) && (n > 0 ==> data == old(c.input)[..n])
    {
      var choice: int := *;
      data := "";
      if choice == EINTR_RETURN && c.interrupts > 0 {
        Take(Interrupt);
        return EINTR_RETURN, "";
      } else if choice == ERROR_RETURN {
        Take(RecvFails);
        return ERROR_RETURN, "";
      } else if c.input == "" {
        Take(RecvEnd);
        return 0, "";
      }
      n :| 0 < n <= |c.input| && n <= BUF_SIZE;
      data := c.input[..n];
      Take(RecvSome(n));
    }

    /** send: any number of the bytes, none included, or a failure. */
    method Send(data: string) returns (n: int)
      requires Valid() && c.at.InSend? && c.at.done < |c.at.buf| && data == c.at.buf[c.at.done..]
      modifies this
      ensures Valid()
      ensures n in {EINTR_RETURN, ERROR_RETURN} || 0 <= n <= |data|
      ensures var a := if n == EINTR_RETURN then Interrupt else if n == ERROR_RETURN then SendFails
                       else if n == 0 then SendNothing else SendSome(n);
              Can(old(c), a) && c == Apply(old(c), a)
    {
      var choice: int := *;
      if choice == EINTR_RETURN && c.interrupts > 0 {
        Take(Interrupt);
        return EINTR_RETURN;
      } else if choice == ERROR_RETURN {
        Take(SendFails);
        return ERROR_RETURN;
      }
      n :| 0 <= n <= |data|;
      if n == 0 {
        Take(SendNothing);
      } else {
        Take(SendSome(n));
      }
    }

    method Close()
      requires Valid() && c.at.Stopped?
      modifies this
      ensures Valid() && c == Apply(old(c), Action.Close)
    {
      Take(Action.Close);
    }
  }

  /**
   send_all returns -1 exactly when a send has failed, and less than it was given exactly when a send has taken
   nothing. What went out is a prefix of the buffer: all that it says, or what the failure left out.
   */
  method SendAll(sock: Socket, buf: string) returns (r: int, ghost out: nat)
    requires sock.Valid() && sock.c.at == if buf != "" then InSend(buf, 0) else AtRecv
    modifies sock
    ensures sock.Valid() && -1 <= r <= |buf| && out <= |buf| && (r >= 0 ==> r == out) && (r == -1 ==> out < |buf|)
    ensures sock.c == old(sock.c).(
              sent := old(sock.c.sent) + buf[..out],
              at := if r == -1 then Stopped(SendFailed, buf[out..]) else AtRecv,
              interrupts := sock.c.interrupts,
              sendErrors := old(sock.c.sendErrors) + (if r == -1 then 1 else 0),
              zeroSends := old(sock.c.zeroSends) + (if 0 <= r < |buf| then 1 else 0))
    ensures sock.c.interrupts <= old(sock.c.interrupts)
  {
    var sent := 0;
    while sent < |buf|
      invariant sock.Valid() && sent <= |buf| && sock.c.interrupts <= old(sock.c.interrupts)
      invariant sock.c == old(sock.c).(
                  sent := old(sock.c.sent) + buf[..sent],
                  at := if sent < |buf| then InSend(buf, sent) else AtRecv,
                  interrupts := sock.c.interrupts)
      decreases sock.c.interrupts, |buf| - sent
    {
      var n := sock.Send(buf[sent..]);
      if n < 0 {
        if n == EINTR_RETURN { continue; }
        return -1, sent;
      }
      if n == 0 { return sent, sent; }
      assert buf[..sent + n] == buf[..sent] + buf[sent..sent + n];
      sent := sent + n;
    }
    return sent, sent;
  }

  /**
   The echo loop of one connection, each of whose calls is a step of the connection. It always comes to an end,
   for the reason it gives, with the descriptor closed.
   */
  method ClientThread(sock: Socket) returns (ending: Ending)
    requires sock.Valid() && Initial(sock.c)
    modifies sock
    ensures sock.Valid() && sock.c.at == Closed(ending, Unsent(sock.c.at)) && sock.c.offered == old(sock.c.offered)
    ensures ending == RecvFailed <==> sock.c.recvErrors > 0
    ensures ending == SendFailed <==> sock.c.sendErrors > 0
    ensures ending == SendFailed <==> Unsent(sock.c.at) != ""
    ensures sock.c.received == sock.c.sent + Unsent(sock.c.at) <==> sock.c.zeroSends == 0
    ensures ending == PeerClosed ==> (sock.c.sent == old(sock.c.offered) <==> sock.c.zeroSends == 0)
  {
    while true
      invariant sock.Valid() && sock.c.at == AtRecv && sock.c.offered == old(sock.c.offered)
      decreases sock.c.interrupts, |sock.c.input|
    {
      var n, buf := sock.Recv();
      if n < 0 {
        if n == EINTR_RETURN { continue; }
        ending := RecvFailed;
        break;
      }
      if n == 0 {
        ending := PeerClosed;
        break;
      }
      var r, out := SendAll(sock, buf);
      if r < 0 {
        ending := SendFailed;
        break;
      }
    }
    sock.Close();
    EchoConservation(sock.c);
    Endings(sock.c);
  }
}
