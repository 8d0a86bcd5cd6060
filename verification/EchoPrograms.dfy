/**
 The client program and the server thread of the line echo protocol, as the loops they are.
 The client runs in a `World` whose every change is a step of `EchoSystem`, so what is proved of the
 reachable states there holds of the program.
 */
module EchoPrograms {
  import opened LineProtocol
  import opened EchoSystem
  import Runs

  class World {
    const lim: Limits
    var s: Session

    ghost predicate Valid()
      reads this
    {
      lim.up > 0 && lim.down > 0 && lim.up + lim.down >= BUF_SIZE - 2 && Reachable(lim, s)
    }

    constructor (lim: Limits, typed: string, interrupts: nat)
      requires lim.up > 0 && lim.down > 0 && lim.up + lim.down >= BUF_SIZE - 2
      ensures Valid() && this.lim == lim && Initial(s) && s.typed == typed
    {
      this.lim := lim;
      s := Session(typed, typed, Prompt, "", Idle, "", interrupts, [], []);
      new;
      Runs.ReachableInit(Initial, (a: Session, b: Session) => Next(lim, a, b), s);
    }

    /** Everything but the connection and the server thread is as it was. */
    twostate predicate ClientUnchanged()
      reads this
    {
      && s.client == old(s.client) && s.typed == old(s.typed) && s.stdin == old(s.stdin)
      && s.requests == old(s.requests) && s.echoes == old(s.echoes)
    }

    method Take(a: Action)
      requires Valid() && Can(lim, s, a)
      modifies this
      ensures Valid() && s == Apply(lim, old(s), a) && Work(s) < old(Work(s))
    {
      var t := Apply(lim, s, a);
      ReachableInv(lim, s);
      WorkDecreases(lim, s, a, t);
      ReachableNext(lim, s, a, t);
      s := t;
    }

    /** The server thread gets one system call done, moving as many bytes as the kernel likes. */
    method ServerCall()
      requires Valid()
      requires (s.server == Idle && s.up != "") || (s.server.Echoing? && |s.down| < lim.down)
      modifies this
      ensures Valid() && ClientUnchanged() && Work(s) < old(Work(s))
    {
      ReachableInv(lim, s);
      if s.server == Idle {
        var n: nat :| 0 < n <= |s.up| && n <= BUF_SIZE;
        Take(ServerRecv(n));
      } else {
        var buf := s.server.buf;
        var n: nat :| 0 < n <= |buf| - s.server.done && |s.down| + n <= lim.down;
        Take(ServerSend(n));
      }
    }

    /** The server thread runs for a while. */
    method ServerRuns()
      requires Valid()
      modifies this
      ensures Valid() && ClientUnchanged() && Work(s) <= old(Work(s))
    {
      var goOn := *;
      while goOn && ((s.server == Idle && s.up != "") || (s.server.Echoing? && |s.down| < lim.down))
        invariant Valid() && ClientUnchanged() && Work(s) <= old(Work(s))
        decreases Work(s)
      {
        ServerCall();
        goOn := *;
      }
    }

    /** The kernel puts a sender to sleep until there is room: with enough room overall, there will be. */
    method AwaitRoom()
      requires Valid() && s.client.Sending?
      modifies this
      ensures Valid() && ClientUnchanged() && Work(s) <= old(Work(s))
      ensures |s.up| < lim.up
    {
      while |s.up| >= lim.up
        invariant Valid() && ClientUnchanged() && Work(s) <= old(Work(s))
        decreases Work(s)
      {
        ReachableInv(lim, s);
        assert |InFlight(s)| == |s.down| + |Held(s.server)| + |s.up|;
        ServerCall();
      }
    }

    /** send: blocks until the kernel has room, then takes some of the bytes; -1 stands for EINTR. */
    method Send(data: seq<char>) returns (n: int)
      requires Valid() && s.client.Sending? && data != []
      requires s.client.sent + |data| == |s.client.msg| && data == s.client.msg[s.client.sent..]
      modifies this
      ensures Valid() && s.typed == old(s.typed) && s.stdin == old(s.stdin)
      ensures s.requests == old(s.requests) && s.echoes == old(s.echoes)
      ensures Work(s) < old(Work(s))
      ensures n == -1 || 0 < n <= |data|
      ensures n == -1 ==> s.client == old(s.client)
      ensures n > 0 ==> s.client == if n < |data| then old(s.client).(sent := old(s.client.sent) + n) else Receiving("")
    {
      ServerRuns();
      var signal := *;
      if signal && s.interrupts > 0 {
        Take(Interrupt);
        return -1;
      }
      AwaitRoom();
      n := SendSome();
    }

    /** The kernel takes some of the bytes the client has to send. */
    method SendSome() returns (n: int)
      requires Valid() && s.client.Sending? && s.client.sent < |s.client.msg| && |s.up| < lim.up
      modifies this
      ensures Valid() && s.typed == old(s.typed) && s.stdin == old(s.stdin)
      ensures s.requests == old(s.requests) && s.echoes == old(s.echoes)
      ensures Work(s) < old(Work(s))
      ensures var msg, sent := old(s.client.msg), old(s.client.sent);
              0 < n <= |msg| - sent
              && s.client == if sent + n < |msg| then Sending(msg, sent + n) else Receiving("")
    {
      var msg, before := s.client.msg, s.client.sent;
      n :| 0 < n <= |msg| - before && |s.up| + n <= lim.up;
      Take(ClientSend(n));
    }

    /** recv of one byte: blocks until one is there; -1 stands for EINTR. */
    method Recv() returns (n: int, c: char)
      requires Valid() && s.client.Receiving?
      modifies this
      ensures Valid() && s.typed == old(s.typed) && s.stdin == old(s.stdin) && s.requests == old(s.requests)
      ensures Work(s) < old(Work(s))
      ensures n == -1 || n == 1
      ensures n == -1 ==> s.client == old(s.client) && s.echoes == old(s.echoes)
      ensures n == 1 ==>
                var got := old(s.client.got) + [c];
                && s.client == (if LineDone(got) then Prompt else Receiving(got))
                && s.echoes == old(s.echoes) + if LineDone(got) then [got] else []
    {
      ServerRuns();
      var signal := *;
      if signal && s.interrupts > 0 {
        Take(Interrupt);
        return -1, '\0';
      }
      while s.down == ""
        invariant Valid() && ClientUnchanged() && Work(s) <= old(Work(s))
        decreases Work(s)
      {
        // Something is still on its way: recv_line never waits for bytes that were not sent.
        ReachableInv(lim, s);
        ServerCall();
      }
      c := s.down[0];
      Take(ClientRecv);
      n := 1;
    }

    /** fgets, with the line it stores; the step also fixes the request that the newline rule will make of it. */
    method Fgets(line: array<char>) returns (ok: bool)
      requires Valid() && s.client == Prompt && line.Length == BUF_SIZE
      modifies this, line
      ensures Valid() && s.typed == old(s.typed)
      ensures !ok ==> old(s.stdin) == "" && s == old(s).(client := Closed)
      ensures ok ==>
                var text := TakeLine(old(s.stdin), BUF_SIZE);
                && 0 < |text| < BUF_SIZE && line[..|text|] == text && line[|text|] == '\0'
                && s == if IsQuit(text) then old(s).(client := Closed)
                        else old(s).(stdin := old(s.stdin)[|text|..], client := Sending(Message(text), 0),
                                     requests := old(s.requests) + [Message(text)])
      ensures ok ==> Work(s) < old(Work(s))
    {
      var text := TakeLine(s.stdin, BUF_SIZE);
      if s.stdin == "" {
        Take(ReadInput);
        return false;
      }
      TakeLineShape(s.stdin, BUF_SIZE);
      forall i | 0 <= i < |text| { line[i] := text[i]; }
      line[|text|] := '\0';
      Take(ReadInput);
      ok := true;
    }
  }

  /** send_all, with EINTR retried and partial sends continued. */
  method SendAll(w: World, buf: array<char>, len: nat) returns (sent: nat)
    requires w.Valid() && len <= buf.Length && len > 0
    requires w.s.client == Sending(buf[..len], 0)
    modifies w
    ensures w.Valid() && sent == len
    ensures w.s.client == Receiving("")
    ensures w.s.typed == old(w.s.typed) && w.s.stdin == old(w.s.stdin)
    ensures w.s.requests == old(w.s.requests) && w.s.echoes == old(w.s.echoes)
    ensures Work(w.s) < old(Work(w.s))
  {
    sent := 0;
    while sent < len
      invariant w.Valid() && sent <= len
      invariant w.s.client == if sent < len then Sending(buf[..len], sent) else Receiving("")
      invariant w.s.typed == old(w.s.typed) && w.s.stdin == old(w.s.stdin)
      invariant w.s.requests == old(w.s.requests) && w.s.echoes == old(w.s.echoes)
      invariant Work(w.s) <= old(Work(w.s)) && (sent == len ==> Work(w.s) < old(Work(w.s)))
      decreases Work(w.s)
    {
      var n := w.Send(buf[sent..len]);
      if n == -1 { continue; }
      sent := sent + n;
    }
  }

  /** recv_line: one byte at a time, until a newline or until one place is left for the terminator. */
  method RecvLine(w: World, buf: array<char>) returns (used: nat)
    requires w.Valid() && buf.Length == BUF_SIZE
    requires w.s.client == Receiving("")
    modifies w, buf
    ensures w.Valid() && w.s.client == Prompt
    ensures 0 < used < BUF_SIZE && buf[used] == '\0'
    ensures w.s.echoes == old(w.s.echoes) + [buf[..used]] == w.s.requests == old(w.s.requests)
    ensures w.s.typed == old(w.s.typed) && w.s.stdin == old(w.s.stdin)
    ensures Work(w.s) <= old(Work(w.s))
  {
    used := 0;
    while used + 1 < buf.Length
      invariant w.Valid() && used < buf.Length
      invariant used + 1 < buf.Length ==> w.s.client == Receiving(buf[..used]) && w.s.echoes == old(w.s.echoes)
      invariant used + 1 == buf.Length ==> w.s.client == Prompt && w.s.echoes == old(w.s.echoes) + [buf[..used]]
      invariant w.s.typed == old(w.s.typed) && w.s.stdin == old(w.s.stdin) && w.s.requests == old(w.s.requests)
      invariant Work(w.s) <= old(Work(w.s))
      decreases Work(w.s)
    {
      var n, c := w.Recv();
      if n == -1 { continue; }
      ghost var got := buf[..used];
      buf[used] := c;
      used := used + 1;
      assert buf[..used] == got + [c];
      if c == '\n' { break; }
    }
    buf[used] := '\0';
    LockstepEcho(w.lim, w.s);
  }

  lemma MessageHasNoTerminator(line: string)
    ensures '\0' !in Message(line)
  {
  }

  /** A buffer printed with %s shows a terminated text that holds no terminator itself. */
  method Printed(buf: array<char>, used: nat) returns (shown: string)
    requires used < buf.Length && buf[used] == '\0' && '\0' !in buf[..used]
    ensures shown == buf[..used]
  {
    CStrStops(buf[..], buf[..used]);
    shown := CStr(buf[..]);
  }

  lemma CStrStops(s: string, t: string)
    requires t <= s && |t| < |s| && s[|t|] == '\0'
    ensures CStr(s) == CStr(t)
  {
    var a, b := CStr(s), CStr(t);
    if |b| < |t| {
      assert s[|b|] == '\0';
    }
    assert forall i :: 0 <= i < |b| ==> s[i] == b[i];
    assert forall i :: 0 <= i < |a| ==> s[i] == a[i];
  }

  /** The newline rule, on the line as it stands in the client's buffer. */
  method EnsureNewline(line: array<char>, ghost text: string) returns (len: nat)
    requires line.Length == BUF_SIZE && |text| < BUF_SIZE
    requires line[..|text|] == text && line[|text|] == '\0'
    modifies line
    ensures len < BUF_SIZE && line[..len] == Message(text)
  {
    CStrStops(line[..], text);
    var was := CStr(line[..]);
    assert was == line[..|was|];
    len := |was|;
    if len == 0 || line[len - 1] != '\n' {
      if len + 1 < line.Length {
        line[len] := '\n';
        len := len + 1;
        line[len] := '\0';
        assert line[..len] == was + "\n";
      }
    }
  }

  lemma QuitSeen(s: string, text: string)
    requires text <= s && |text| < |s| && s[|text|] == '\0'
    ensures IsQuit(s) <==> IsQuit(text)
  {
  }

  /** One round of the main loop: a line is read, sent and received back; `more` is false when the loop is left. */
  method Round(w: World, line: array<char>, recvbuf: array<char>) returns (more: bool, echo: string)
    requires w.Valid() && w.s.client == Prompt
    requires line.Length == BUF_SIZE && recvbuf.Length == BUF_SIZE && line != recvbuf
    modifies w, line, recvbuf
    ensures w.Valid() && w.s.typed == old(w.s.typed)
    ensures w.s.client == if more then Prompt else Closed
    ensures w.s.echoes == old(w.s.echoes) + if more then [echo] else []
    ensures more ==> echo == Message(TakeLine(old(w.s.stdin), BUF_SIZE))
    ensures more ==> Work(w.s) < old(Work(w.s))
  {
    ghost var text := TakeLine(w.s.stdin, BUF_SIZE);
    more, echo := false, "";
    var ok := w.Fgets(line);
    if !ok { return; }
    QuitSeen(line[..], text);
    if IsQuit(line[..]) { return; }
    var len := EnsureNewline(line, text);
    var sent := SendAll(w, line, len);
    var r := RecvLine(w, recvbuf);
    assert recvbuf[..r] == w.s.requests[|w.s.requests| - 1] == Message(text);
    MessageHasNoTerminator(text);
    echo := Printed(recvbuf, r);
    more := true;
  }

  /**
   The client's main loop. What it prints is what the input calls for, line by line, and it leaves with
   nothing on its way in either direction; it always leaves.
   */
  method Client(w: World) returns (printed: seq<string>)
    requires w.Valid() && Initial(w.s)
    modifies w
    ensures w.Valid() && w.s.typed == old(w.s.typed)
    ensures printed == Transcript(w.s.typed)
    ensures w.s.client == Closed && w.s.up == "" && w.s.down == ""
  {
    var line := new char[BUF_SIZE];
    var recvbuf := new char[BUF_SIZE];
    printed := [];
    var more := true;
    while more
      invariant w.Valid() && w.s.client == if more then Prompt else Closed
      invariant w.s.typed == old(w.s.typed) && printed == w.s.echoes
      decreases more, Work(w.s)
    {
      var echo;
      more, echo := Round(w, line, recvbuf);
      if more {
        printed := printed + [echo];
      }
    }
    LockstepEcho(w.lim, w.s);
  }
}
