/**
 The line echo session as a transition system: the client, its server thread and the two directions of
 the connection, each a byte queue of bounded capacity. Every system call is one step: `send` moves any
 positive number of bytes that fits, `recv` takes any positive number that is there, and a call may be
 interrupted as often as `interrupts` allows.
 */
module EchoSystem {
  import opened LineProtocol
  import Runs

  datatype Client =
    | Prompt
    | Sending(msg: string, sent: nat)
    | Receiving(got: string)
    | Closed

  datatype Server =
    | Idle
    | Echoing(buf: string, done: nat)
    | Gone

  /** `requests` and `echoes` record what each round sent and what its recv_line returned. */
  datatype Session = Session(
    typed: string, stdin: string, client: Client, up: string, server: Server, down: string,
    interrupts: nat, requests: seq<string>, echoes: seq<string>)

  /** How many bytes the kernel buffers in each direction. */
  datatype Limits = Limits(up: nat, down: nat)

  datatype Action =
    | ReadInput
    | ClientSend(n: nat)
    | ClientRecv
    | ClientEof
    | ServerRecv(n: nat)
    | ServerSend(n: nat)
    | ServerEof
    | Interrupt

  predicate Initial(s: Session) {
    && s.stdin == s.typed && s.client == Prompt && s.server == Idle
    && s.up == "" && s.down == "" && s.requests == [] && s.echoes == []
  }

  /** The client's state once `got` is in recv_line's buffer. */
  predicate LineDone(got: string) {
    EndsInNewline(got) || |got| + 1 >= BUF_SIZE
  }

  /** The system call or the read of a line can happen now. */
  predicate Can(lim: Limits, s: Session, a: Action) {
    match a
    case ReadInput => s.client == Prompt
    case ClientSend(n) =>
      && s.client.Sending? && s.client.sent <= |s.client.msg|
      && 0 < n <= |s.client.msg| - s.client.sent && |s.up| + n <= lim.up
    case ClientRecv => s.client.Receiving? && s.down != ""
    case ClientEof => s.client.Receiving? && s.down == "" && s.server == Gone
    case ServerRecv(n) => s.server == Idle && 0 < n <= |s.up| && n <= BUF_SIZE
    case ServerSend(n) =>
      && s.server.Echoing? && s.server.done <= |s.server.buf|
      && 0 < n <= |s.server.buf| - s.server.done && |s.down| + n <= lim.down
    case ServerEof => s.server == Idle && s.up == "" && s.client == Closed
    case Interrupt => s.interrupts > 0 && (s.client.Sending? || s.client.Receiving? || s.server != Gone)
  }

  function Apply(lim: Limits, s: Session, a: Action): Session
    requires Can(lim, s, a)
  {
    match a
    case ReadInput =>
      var line := TakeLine(s.stdin, BUF_SIZE);
      if s.stdin == "" || IsQuit(line) then s.(client := Closed)
      else s.(stdin := s.stdin[|line|..], client := Sending(Message(line), 0), requests := s.requests + [Message(line)])
    case ClientSend(n) =>
      var msg, sent := s.client.msg, s.client.sent + n;
      s.(up := s.up + msg[s.client.sent..sent],
         client := if sent < |msg| then Sending(msg, sent) else Receiving(""))
    case ClientRecv =>
      var got := s.client.got + [s.down[0]];
      if LineDone(got) then s.(down := s.down[1..], client := Prompt, echoes := s.echoes + [got])
      else s.(down := s.down[1..], client := Receiving(got))
    case ClientEof =>
      if s.client.got == "" then s.(client := Closed)
      else s.(client := Prompt, echoes := s.echoes + [s.client.got])
    case ServerRecv(n) => s.(up := s.up[n..], server := Echoing(s.up[..n], 0))
    case ServerSend(n) =>
      var buf, done := s.server.buf, s.server.done + n;
      s.(down := s.down + buf[s.server.done..done],
         server := if done < |buf| then Echoing(buf, done) else Idle)
    case ServerEof => s.(server := Gone)
    case Interrupt => s.(interrupts := s.interrupts - 1)
  }

  predicate Step(lim: Limits, s: Session, a: Action, s': Session) {
    Can(lim, s, a) && s' == Apply(lim, s, a)
  }

  ghost predicate Next(lim: Limits, s: Session, s': Session) {
    exists a :: Step(lim, s, a, s')
  }

  ghost predicate Reachable(lim: Limits, s: Session) {
    Runs.Reachable(Initial, (a: Session, b: Session) => Next(lim, a, b), s)
  }

  lemma ReachableNext(lim: Limits, s: Session, a: Action, s': Session)
    requires Reachable(lim, s)
    requires Step(lim, s, a, s')
    ensures Reachable(lim, s')
  {
    Runs.ReachableStep(Initial, (a: Session, b: Session) => Next(lim, a, b), s, s');
  }

  // ---------------------------------------------------------------------------------------------
  // Lockstep: each recv_line returns the bytes its round sent
  // ---------------------------------------------------------------------------------------------

  /** What the server thread has received and not yet sent back. */
  function Held(server: Server): string {
    match server
    case Echoing(buf, done) => if done <= |buf| then buf[done..] else ""
    case _ => ""
  }

  /** The bytes on their way round, in the order in which they come back. */
  function InFlight(s: Session): string {
    s.down + Held(s.server) + s.up
  }

  predicate Lockstep(s: Session) {
    && (s.server.Echoing? ==> s.server.done < |s.server.buf|)
    && (s.server == Gone ==> s.client == Closed)
    && match s.client
       case Prompt => s.echoes == s.requests && InFlight(s) == ""
       case Closed => s.echoes == s.requests && InFlight(s) == "" && Transcript(s.stdin) == []
       case Sending(msg, sent) =>
         Frame(msg, BUF_SIZE) && sent < |msg| && s.requests == s.echoes + [msg] && InFlight(s) == msg[..sent]
       case Receiving(got) =>
         && |s.requests| > 0
         && var msg := s.requests[|s.requests| - 1];
            Frame(msg, BUF_SIZE) && s.requests == s.echoes + [msg] && |got| < |msg| && got + InFlight(s) == msg
  }

  predicate Inv(s: Session) {
    Lockstep(s) && Transcript(s.typed) == s.requests + Transcript(s.stdin)
  }

  lemma ReadInputKeeps(lim: Limits, s: Session, s': Session)
    requires Inv(s) && Step(lim, s, ReadInput, s')
    ensures Inv(s')
  {
    if s'.client.Sending? {
      var line := TakeLine(s.stdin, BUF_SIZE);
      MessageIsFrame(s.stdin);
      TranscriptFirst(s.stdin);
      Appended(s.requests, Message(line), Transcript(s'.stdin));
      assert s'.client.msg[..0] == "";
    }
  }

  lemma TranscriptFirst(stdin: string)
    requires stdin != "" && !IsQuit(TakeLine(stdin, BUF_SIZE))
    ensures var line := TakeLine(stdin, BUF_SIZE);
            Transcript(stdin) == [Message(line)] + Transcript(stdin[|line|..])
  {
  }

  lemma Appended(done: seq<string>, next: string, rest: seq<string>)
    ensures done + [next] + rest == done + ([next] + rest)
  {
  }

  lemma ClientSendKeeps(lim: Limits, s: Session, n: nat, s': Session)
    requires Lockstep(s) && Step(lim, s, ClientSend(n), s')
    ensures Lockstep(s')
  {
    var msg, sent := s.client.msg, s.client.sent;
    var part := msg[sent..sent + n];
    calc {
      InFlight(s');
      s.down + Held(s.server) + (s.up + part);
      { Associative(s.down + Held(s.server), s.up, part); }
      msg[..sent] + part;
      msg[..sent + n];
    }
  }

  lemma ClientRecvKeeps(lim: Limits, s: Session, s': Session)
    requires Lockstep(s) && Step(lim, s, ClientRecv, s')
    ensures Lockstep(s')
  {
    var msg := s.requests[|s.requests| - 1];
    var got, c, rest := s.client.got, s.down[0], s.down[1..];
    var held, up := Held(s.server), s.up;
    var got' := got + [c];
    calc {
      got' + (rest + held + up);
      { Associative(got, [c], rest + held + up); }
      got + ([c] + (rest + held + up));
      { assert [c] + (rest + held + up) == [c] + rest + held + up; }
      got + ([c] + rest + held + up);
      { assert [c] + rest == s.down; }
      msg;
    }
    assert msg[|got|] == c;
    if LineDone(got') {
      // A newline stands only at the end of a frame, and a full buffer is a whole frame.
      assert |got'| == |msg|;
      assert got' == msg;
    }
  }

  lemma ServerRecvKeeps(lim: Limits, s: Session, n: nat, s': Session)
    requires Lockstep(s) && Step(lim, s, ServerRecv(n), s')
    ensures Lockstep(s')
  {
    calc {
      InFlight(s');
      s.down + s.up[..n] + s.up[n..];
      { Associative(s.down, s.up[..n], s.up[n..]); assert s.up[..n] + s.up[n..] == s.up; }
      s.down + s.up;
      { assert s.down + "" == s.down; }
      InFlight(s);
    }
  }

  lemma ServerSendKeeps(lim: Limits, s: Session, n: nat, s': Session)
    requires Lockstep(s) && Step(lim, s, ServerSend(n), s')
    ensures Lockstep(s')
  {
    var buf, done := s.server.buf, s.server.done;
    var part := buf[done..done + n];
    assert Held(s'.server) == buf[done + n..];
    calc {
      InFlight(s');
      s.down + part + buf[done + n..] + s.up;
      { Associative(s.down, part, buf[done + n..]); assert part + buf[done + n..] == buf[done..]; }
      InFlight(s);
    }
  }

  lemma StepKeeps(lim: Limits, s: Session, a: Action, s': Session)
    requires Inv(s) && Step(lim, s, a, s')
    ensures Inv(s')
  {
    match a
    case ReadInput => ReadInputKeeps(lim, s, s');
    case ClientSend(n) => ClientSendKeeps(lim, s, n, s');
    case ClientRecv => ClientRecvKeeps(lim, s, s');
    case ServerRecv(n) => ServerRecvKeeps(lim, s, n, s');
    case ServerSend(n) => ServerSendKeeps(lim, s, n, s');
    case _ =>
  }

  lemma ReachableInv(lim: Limits, s: Session)
    requires Reachable(lim, s)
    ensures Inv(s)
  {
    var next := (a: Session, b: Session) => Next(lim, a, b);
    var inv := (a: Session) => Inv(a);
    forall a, b | inv(a) && next(a, b) ensures inv(b) {
      var act :| Step(lim, a, act, b);
      StepKeeps(lim, a, act, b);
    }
    Runs.ReachableInvariant(Initial, next, inv, s);
  }

  /**
   At the start of every round both directions are empty, the server is at recv and every recv_line so far
   returned exactly what its round sent; the requests are those the input calls for.
   */
  lemma LockstepEcho(lim: Limits, s: Session)
    requires Reachable(lim, s)
    ensures s.client == Prompt ==> s.up == "" && s.down == "" && s.server == Idle && s.echoes == s.requests
    ensures s.client == Closed ==> s.up == "" && s.down == "" && s.echoes == Transcript(s.typed)
    ensures s.echoes <= Transcript(s.typed)
    ensures s.server == Gone ==> s.client == Closed
  {
    ReachableInv(lim, s);
  }

  // ---------------------------------------------------------------------------------------------
  // Progress: the measure, and the exact capacity below which a round can block for good
  // ---------------------------------------------------------------------------------------------

  /** Work left in a session; a byte counts more the further it is from being received back. */
  function Work(s: Session): nat {
    s.interrupts + 9 * |s.stdin| + 3 * |s.up| + 2 * |Held(s.server)| + |s.down|
    + (match s.client
       case Sending(msg, sent) => 1 + if sent <= |msg| then 4 * (|msg| - sent) else 0
       case Closed => 0
       case _ => 1)
    + (if s.server == Gone then 0 else 1)
  }

  lemma ReadInputWorks(lim: Limits, s: Session, s': Session)
    requires Step(lim, s, ReadInput, s')
    ensures Work(s') < Work(s)
  {
    if s'.client.Sending? {
      var line := TakeLine(s.stdin, BUF_SIZE);
      assert 0 < |line| && |s'.client.msg| <= |line| + 1 && |s'.stdin| == |s.stdin| - |line|;
    }
  }

  lemma ClientSendWorks(lim: Limits, s: Session, n: nat, s': Session)
    requires Step(lim, s, ClientSend(n), s')
    ensures Work(s') < Work(s)
  {
    assert |s'.up| == |s.up| + n;
  }

  lemma ClientRecvWorks(lim: Limits, s: Session, s': Session)
    requires Step(lim, s, ClientRecv, s')
    ensures Work(s') < Work(s)
  {
    assert |s'.down| == |s.down| - 1;
  }

  lemma ServerRecvWorks(lim: Limits, s: Session, n: nat, s': Session)
    requires Step(lim, s, ServerRecv(n), s')
    ensures Work(s') < Work(s)
  {
    assert |s'.up| == |s.up| - n && |Held(s'.server)| == n && Held(s.server) == "";
  }

  lemma ServerSendWorks(lim: Limits, s: Session, n: nat, s': Session)
    requires Step(lim, s, ServerSend(n), s')
    ensures Work(s') < Work(s)
  {
    assert |s'.down| == |s.down| + n && |Held(s'.server)| == |Held(s.server)| - n;
  }

  /** Every step of every process, interruptions included, uses up work. */
  lemma WorkDecreases(lim: Limits, s: Session, a: Action, s': Session)
    requires Inv(s) && Step(lim, s, a, s')
    ensures Work(s') < Work(s)
  {
    match a
    case ReadInput => ReadInputWorks(lim, s, s');
    case ClientSend(n) => ClientSendWorks(lim, s, n, s');
    case ClientRecv => ClientRecvWorks(lim, s, s');
    case ServerRecv(n) => ServerRecvWorks(lim, s, n, s');
    case ServerSend(n) => ServerSendWorks(lim, s, n, s');
    case _ =>
  }

  /** A session cannot run for ever: the length of a run is bounded by the input and the interruptions. */
  lemma {:induction false} RunsAreFinite(lim: Limits, run: seq<Session>)
    requires Runs.IsRun(Initial, (a: Session, b: Session) => Next(lim, a, b), run)
    ensures |run| + Work(run[|run| - 1]) <= 3 + run[0].interrupts + 9 * |run[0].typed|
  {
    var next := (a: Session, b: Session) => Next(lim, a, b);
    if |run| > 1 {
      var prefix := run[..|run| - 1];
      RunsAreFinite(lim, prefix);
      var s, s' := run[|run| - 2], run[|run| - 1];
      assert next(s, s');
      var a :| Step(lim, s, a, s');
      assert Runs.IsRun(Initial, next, prefix) && prefix[|prefix| - 1] == s;
      assert Reachable(lim, s);
      ReachableInv(lim, s);
      WorkDecreases(lim, s, a, s');
    }
  }

  predicate Finished(s: Session) {
    s.client == Closed && s.server == Gone
  }

  /** Some process can move on without being interrupted. */
  ghost predicate Enabled(lim: Limits, s: Session) {
    exists a :: a != Interrupt && Can(lim, s, a)
  }

  ghost predicate DeadlockFree(lim: Limits) {
    forall s :: Reachable(lim, s) && !Finished(s) ==> Enabled(lim, s)
  }

  /** The action that can be taken in an unfinished session. */
  function SomeAction(lim: Limits, s: Session): Action {
    if s.client == Prompt then ReadInput
    else if s.client == Closed then ServerEof
    else if s.client.Receiving? && s.down != "" then ClientRecv
    else if s.client.Sending? && |s.up| < lim.up then ClientSend(1)
    else if s.server == Idle then ServerRecv(1)
    else ServerSend(1)
  }

  lemma EnoughRoom(lim: Limits, s: Session)
    requires lim.up > 0 && lim.down > 0
    requires Lockstep(s) && !Finished(s)
    requires lim.up + lim.down >= BUF_SIZE - 2
    ensures Can(lim, s, SomeAction(lim, s)) && Enabled(lim, s)
  {
    assert |InFlight(s)| == |s.down| + |Held(s.server)| + |s.up|;
    var a := SomeAction(lim, s);
    assert a != Interrupt && Can(lim, s, a);
  }

  /** A message of one full buffer, sent without a newline. */
  function LongLine(): (m: string)
    ensures |m| == BUF_SIZE - 1 && forall i :: 0 <= i < |m| ==> m[i] == 'a'
  {
    seq(BUF_SIZE - 1, _ => 'a')
  }

  /** The session in its first round, `i` bytes of the long line echoed back and none read. */
  function Filling(i: nat): Session
    requires i < BUF_SIZE - 1
  {
    var m := LongLine();
    Session(m, "", Sending(m, i), "", Idle, m[..i], 0, [m], [])
  }

  lemma LongLineIsText(m: string)
    requires m == LongLine()
    ensures CStr(m) == m && !IsQuit(m)
  {
    assert forall i :: 0 <= i < |m| ==> m[i] != '\0';
    assert "\\quit"[0] != m[0];
  }

  lemma LongLineIsMessage()
    ensures var m := LongLine(); TakeLine(m, BUF_SIZE) == m && Message(m) == m && !IsQuit(m)
  {
    var m := LongLine();
    FrameIsTaken(m, "", BUF_SIZE);
    assert m + "" == m;
    LongLineIsText(m);
  }

  lemma LongLineIsRead(lim: Limits, start: Session)
    requires start == Session(LongLine(), LongLine(), Prompt, "", Idle, "", 0, [], [])
    ensures Apply(lim, start, ReadInput) == Filling(0)
  {
    var m := LongLine();
    LongLineIsMessage();
    assert m[|m|..] == "" && m[..0] == "" && [] + [m] == [m];
  }

  lemma LongLineIsSent(lim: Limits)
    ensures Reachable(lim, Filling(0))
  {
    var start := Session(LongLine(), LongLine(), Prompt, "", Idle, "", 0, [], []);
    LongLineIsRead(lim, start);
    Runs.ReachableInit(Initial, (a: Session, b: Session) => Next(lim, a, b), start);
    ReachableNext(lim, start, ReadInput, Filling(0));
  }

  /** The client sends one more byte and the server takes it up. */
  lemma ByteReachesServer(lim: Limits, i: nat) returns (s: Session)
    requires lim.up > 0 && i < BUF_SIZE - 2
    requires Reachable(lim, Filling(i))
    ensures var m := LongLine();
            s == Filling(i).(client := Sending(m, i + 1), server := Echoing(m[i..i + 1], 0))
    ensures Reachable(lim, s)
  {
    var m := LongLine();
    var s0 := Filling(i);
    var s1 := s0.(client := Sending(m, i + 1), up := m[i..i + 1]);
    assert Step(lim, s0, ClientSend(1), s1);
    ReachableNext(lim, s0, ClientSend(1), s1);
    s := s1.(up := "", server := Echoing(m[i..i + 1], 0));
    assert s1.up[1..] == "" && s1.up[..1] == s1.up;
    assert Step(lim, s1, ServerRecv(1), s);
    ReachableNext(lim, s1, ServerRecv(1), s);
  }

  lemma {:induction false} ReturnPathFills(lim: Limits, i: nat)
    requires lim.up > 0 && i <= lim.down && i < BUF_SIZE - 1
    ensures Reachable(lim, Filling(i))
  {
    if i == 0 {
      LongLineIsSent(lim);
    } else {
      ReturnPathFills(lim, i - 1);
      var m := LongLine();
      var s := ByteReachesServer(lim, i - 1);
      assert m[..i - 1] + m[i - 1..i] == m[..i] && m[i - 1..i][0..1] == m[i - 1..i];
      assert Step(lim, s, ServerSend(1), Filling(i));
      ReachableNext(lim, s, ServerSend(1), Filling(i));
    }
  }

  /** With less room than that, a full line can block both programs in send for ever. */
  lemma BothBlocked(lim: Limits) returns (s: Session)
    requires lim.up > 0 && lim.down > 0
    requires lim.up + lim.down < BUF_SIZE - 2
    ensures Reachable(lim, s) && !Finished(s) && !Enabled(lim, s)
  {
    ReturnPathFills(lim, lim.down);
    var m := LongLine();
    var t := ByteReachesServer(lim, lim.down);
    var sent := lim.down + 1;
    s := t.(client := Sending(m, sent + lim.up), up := m[sent..sent + lim.up]);
    assert Step(lim, t, ClientSend(lim.up), s);
    ReachableNext(lim, t, ClientSend(lim.up), s);
  }

  /**
   No session ever blocks for good exactly when the two directions together buffer all but two bytes of
   a client buffer: one more byte can be in the server's hands, and the longest message is BUF_SIZE - 1.
   */
  lemma DeadlockFreedom(lim: Limits)
    requires lim.up > 0 && lim.down > 0
    ensures DeadlockFree(lim) <==> lim.up + lim.down >= BUF_SIZE - 2
  {
    if lim.up + lim.down >= BUF_SIZE - 2 {
      forall s | Reachable(lim, s) && !Finished(s) ensures Enabled(lim, s) {
        ReachableInv(lim, s);
        EnoughRoom(lim, s);
      }
    } else {
      var s := BothBlocked(lim);
    }
  }

  /** Given that room, a session that has come to rest has echoed everything it was to echo. */
  lemma EverySessionCompletes(lim: Limits, s: Session)
    requires lim.up > 0 && lim.down > 0 && lim.up + lim.down >= BUF_SIZE - 2
    requires Reachable(lim, s) && !Enabled(lim, s)
    ensures Finished(s) && s.echoes == Transcript(s.typed)
  {
    DeadlockFreedom(lim);
    LockstepEcho(lim, s);
  }

  // ---------------------------------------------------------------------------------------------
  // The threaded server: any number of sessions, interleaved
  // ---------------------------------------------------------------------------------------------

  /** Either one of the sessions takes a step, or a new connection is accepted. */
  ghost predicate ServerNext(lim: Limits, ss: seq<Session>, ss': seq<Session>) {
    || (exists i, t :: 0 <= i < |ss| && Next(lim, ss[i], t) && ss' == ss[i := t])
    || (exists t :: Initial(t) && ss' == ss + [t])
  }

  /** Whatever the interleaving, every session of the server is a session on its own. */
  lemma Interleaving(lim: Limits, ss: seq<Session>)
    requires Runs.Reachable((a: seq<Session>) => a == [],
                            (a: seq<Session>, b: seq<Session>) => ServerNext(lim, a, b), ss)
    ensures forall i :: 0 <= i < |ss| ==> Reachable(lim, ss[i])
  {
    var none := (a: seq<Session>) => a == [];
    var next := (a: seq<Session>, b: seq<Session>) => ServerNext(lim, a, b);
    var inv := (a: seq<Session>) => forall i :: 0 <= i < |a| ==> Reachable(lim, a[i]);
    forall a, b | inv(a) && next(a, b) ensures inv(b) {
      if i, t :| 0 <= i < |a| && Next(lim, a[i], t) && b == a[i := t] {
        var act :| Step(lim, a[i], act, t);
        ReachableNext(lim, a[i], act, t);
      } else {
        var t :| Initial(t) && b == a + [t];
        Runs.ReachableInit(Initial, (a: Session, b: Session) => Next(lim, a, b), t);
      }
    }
    Runs.ReachableInvariant(none, next, inv, ss);
  }
}
