/** `readline` of the one-connection server: a framing loop with a count that is not always the length stored. */
module ReadLine {
  import opened LineProtocol

  /** A descriptor: the bytes still to be read, and whether reading past them fails or reports end of file. */
  class Descriptor {
    var bytes: string
    const broken: bool

    constructor (bytes: string, broken: bool)
      ensures this.bytes == bytes && this.broken == broken
    {
      this.bytes, this.broken := bytes, broken;
    }

    method ReadByte() returns (rc: int, c: char)
      modifies `bytes
      ensures if old(bytes) == "" then rc == (if broken then -1 else 0) && bytes == ""
              else rc == 1 && c == old(bytes)[0] && bytes == old(bytes)[1..]
    {
      if bytes == "" {
        rc, c := if broken then -1 else 0, '\0';
      } else {
        rc, c, bytes := 1, bytes[0], bytes[1..];
      }
    }
  }

  /** What a call returns: the piece's length for a line, one more for any other piece, 0 at end of file. */
  function Count(bytes: string, broken: bool, maxlen: nat): int {
    var piece := TakeLine(bytes, maxlen);
    if EndsInNewline(piece) then |piece|
    else if |piece| + 1 >= maxlen then |piece| + 1
    else if broken then -1
    else if piece == "" then 0
    else |piece| + 1
  }

  /** Of the piece stored the count tells the length only when a newline ended it, and one more in any other case. */
  lemma CountMeaning(bytes: string, broken: bool, maxlen: nat)
    requires maxlen > 1
    ensures var piece, r := TakeLine(bytes, maxlen), Count(bytes, broken, maxlen);
            && (r > 0 ==> r == |piece| + if piece[|piece| - 1] == '\n' then 0 else 1)
            && (r == 0 <==> bytes == "" && !broken)
            && (r < 0 <==> broken && '\n' !in bytes && |bytes| + 1 < maxlen)
            && r >= -1
  {
    var piece := TakeLine(bytes, maxlen);
    if bytes != "" {
      TakeLineShape(bytes, maxlen);
      assert |bytes| + 1 < maxlen && '\n' !in bytes ==> piece == bytes by {
        if |bytes| < maxlen && '\n' !in bytes {
          TakeLineWhole(bytes, maxlen);
        }
      }
      if EndsInNewline(piece) {
        assert bytes[|piece| - 1] == '\n';
      } else if |piece| + 1 < maxlen {
        assert piece == bytes;
        assert forall i :: 0 <= i < |bytes| ==> bytes[i] != '\n';
      }
    }
  }

  /** Cutting a line in two: what is taken is taken byte by byte. */
  lemma {:induction false} TakeLineExtends(s: string, k: nat, cap: nat)
    requires k < |s| && k + 1 < cap
    requires '\n' !in s[..k]
    ensures TakeLine(s, cap) == s[..k] + TakeLine(s[k..], cap - k)
  {
    if k == 0 {
      assert s[0..] == s;
    } else {
      var t, more := s[1..], TakeLine(s[k..], cap - k);
      assert s[0] == s[..k][0] && t[..k - 1] == s[..k][1..];
      TakeLineExtends(t, k - 1, cap - 1);
      assert t[k - 1..] == s[k..];
      assert TakeLine(s, cap) == [s[0]] + TakeLine(t, cap - 1);
      Associative([s[0]], t[..k - 1], more);
      assert s[..k] == [s[0]] + t[..k - 1];
    }
  }

  lemma {:induction false} TakeLineWhole(s: string, cap: nat)
    requires |s| < cap && '\n' !in s
    ensures TakeLine(s, cap) == s
  {
    if s != "" {
      TakeLineWhole(s[1..], cap - 1);
    }
  }

  method ReadLine(fd: Descriptor, buf: array<char>, maxlen: nat) returns (r: int)
    requires 0 < maxlen <= buf.Length
    modifies fd`bytes, buf
    ensures var piece := TakeLine(old(fd.bytes), maxlen);
            && fd.bytes == old(fd.bytes)[|piece|..]
            && r == Count(old(fd.bytes), fd.broken, maxlen)
            && |piece| < maxlen && buf[..|piece|] == piece
            && (r > 0 ==> buf[|piece|] == '\0')
    ensures forall i :: maxlen <= i < buf.Length ==> buf[i] == old(buf[i])
  {
    ghost var input := fd.bytes;
    var n, ptr := 1, 0;
    while n < maxlen
      invariant 1 <= n <= maxlen && ptr == n - 1 <= |input|
      invariant fd.bytes == input[ptr..] && buf[..ptr] == input[..ptr] && '\n' !in input[..ptr]
      invariant forall i :: maxlen <= i < buf.Length ==> buf[i] == old(buf[i])
    {
      var rc, c := fd.ReadByte();
      if ptr < |input| {
        TakeLineExtends(input, ptr, maxlen);
      } else {
        assert input[..ptr] == input;
        TakeLineWhole(input, maxlen);
      }
      if rc == 1 {
        buf[ptr] := c;
        ptr := ptr + 1;
        assert input[..ptr] == input[..ptr - 1] + [c];
        if c == '\n' { break; }
      } else if rc == 0 {
        if n == 1 { return 0; }
        break;
      } else {
        return -1;
      }
      n := n + 1;
    }
    if n == maxlen {
      FullPiece(input, ptr);
    }
    buf[ptr] := '\0';
    r := n;
  }

  lemma {:induction false} FullPiece(s: string, k: nat)
    requires k <= |s| && '\n' !in s[..k]
    ensures TakeLine(s, k + 1) == s[..k]
  {
    if k > 0 {
      FullPiece(s[1..], k - 1);
      assert s[1..][..k - 1] == s[1..k] && s[..k] == [s[0]] + s[1..k];
    }
  }

  // ---------------------------------------------------------------------------------------------
  // Repeated calls
  // ---------------------------------------------------------------------------------------------

  /** The pieces that calls return one after the other, until one returns 0 or less. */
  function Pieces(bytes: string, broken: bool, maxlen: nat): seq<string>
    requires maxlen > 1
    decreases |bytes|
  {
    var piece := TakeLine(bytes, maxlen);
    if Count(bytes, broken, maxlen) <= 0 || bytes == "" then []
    else [piece] + Pieces(bytes[|piece|..], broken, maxlen)
  }

  /** What the caller's write sends for a piece: as many bytes as the count says, the terminator included. */
  function Wire(piece: string): string {
    if EndsInNewline(piece) then piece else piece + "\0"
  }

  function Written(pieces: seq<string>): string {
    if pieces == [] then "" else Written(pieces[..|pieces| - 1]) + Wire(pieces[|pieces| - 1])
  }

  lemma FirstPiece(bytes: string, broken: bool, maxlen: nat)
    requires maxlen > 1
    ensures var piece, pieces := TakeLine(bytes, maxlen), Pieces(bytes, broken, maxlen);
            var r := Count(bytes, broken, maxlen);
            if r > 0 then piece != "" && pieces != [] && pieces[0] == piece
                          && pieces[1..] == Pieces(bytes[|piece|..], broken, maxlen)
            else pieces == [] && r == (if broken then -1 else 0) && bytes[|piece|..] == ""
  {
    if bytes != "" {
      TakeLineShape(bytes, maxlen);
    }
  }

  /** One call with the bytes that the caller then writes back: as many as the count says. */
  method ReadAndWrite(fd: Descriptor, buf: array<char>, maxlen: nat) returns (r: int, sent: string)
    requires 1 < maxlen <= buf.Length
    modifies fd`bytes, buf
    ensures var pieces := Pieces(old(fd.bytes), fd.broken, maxlen);
            if r > 0 then
              && pieces != [] && sent == Wire(pieces[0])
              && Pieces(fd.bytes, fd.broken, maxlen) == pieces[1..] && |fd.bytes| < |old(fd.bytes)|
            else pieces == [] && sent == "" && r == (if fd.broken then -1 else 0) && fd.bytes == ""
  {
    FirstPiece(fd.bytes, fd.broken, maxlen);
    ghost var piece := TakeLine(fd.bytes, maxlen);
    r := ReadLine(fd, buf, maxlen);
    if r > 0 {
      sent := buf[..r];
      assert r == |piece| + 1 ==> buf[..r] == buf[..|piece|] + ['\0'];
    } else {
      sent := "";
    }
  }

  lemma WrittenNext(pieces: seq<string>, i: nat)
    requires i < |pieces|
    ensures Written(pieces[..i + 1]) == Written(pieces[..i]) + Wire(pieces[i])
    ensures pieces[i..][1..] == pieces[i + 1..]
  {
    assert pieces[..i + 1][..i] == pieces[..i];
  }

  /** The caller's loop: what it writes back over the whole connection. */
  method EchoAll(fd: Descriptor, buf: array<char>, maxlen: nat) returns (written: string, last: int)
    requires 1 < maxlen <= buf.Length
    modifies fd`bytes, buf
    ensures written == Written(Pieces(old(fd.bytes), fd.broken, maxlen)) && fd.bytes == ""
    ensures last == if fd.broken then -1 else 0
  {
    ghost var whole, i := Pieces(fd.bytes, fd.broken, maxlen), 0;
    written := "";
    var sent;
    last, sent := ReadAndWrite(fd, buf, maxlen);
    while last > 0
      invariant 0 <= i <= |whole| && written == Written(whole[..i])
      invariant last > 0 ==> i < |whole| && sent == Wire(whole[i])
      invariant last > 0 ==> Pieces(fd.bytes, fd.broken, maxlen) == whole[i + 1..]
      invariant last <= 0 ==> i == |whole| && last == (if fd.broken then -1 else 0) && fd.bytes == ""
      decreases last > 0, |fd.bytes|
    {
      WrittenNext(whole, i);
      written := written + sent;
      i := i + 1;
      last, sent := ReadAndWrite(fd, buf, maxlen);
    }
    assert whole[..i] == whole;
  }

  /** Pieces put together give the input back; after an error only an unfinished piece is missing. */
  lemma {:induction false} PiecesConcat(bytes: string, broken: bool, maxlen: nat)
    requires maxlen > 1
    ensures var all := Concat(Pieces(bytes, broken, maxlen));
            && all <= bytes
            && (!broken ==> all == bytes)
            && '\n' !in bytes[|all|..] && |bytes| - |all| < maxlen - 1
    decreases |bytes|
  {
    var piece := TakeLine(bytes, maxlen);
    if bytes != "" {
      TakeLineShape(bytes, maxlen);
      if Count(bytes, broken, maxlen) > 0 {
        var rest := bytes[|piece|..];
        PiecesConcat(rest, broken, maxlen);
        var all := Concat(Pieces(rest, broken, maxlen));
        assert Pieces(bytes, broken, maxlen)[1..] == Pieces(rest, broken, maxlen);
        PrefixAfter(bytes, piece, all);
      }
    }
  }

  lemma PrefixAfter(bytes: string, piece: string, all: string)
    requires piece <= bytes && all <= bytes[|piece|..]
    ensures piece + all <= bytes
    ensures bytes[|piece + all|..] == bytes[|piece|..][|all|..]
    ensures all == bytes[|piece|..] ==> piece + all == bytes
  {
  }

  lemma FirstPieceShape(bytes: string, broken: bool, maxlen: nat)
    requires maxlen > 1 && Count(bytes, broken, maxlen) > 0
    ensures var piece := TakeLine(bytes, maxlen);
            && bytes != "" && 0 < |piece| < maxlen
            && (forall k :: 0 <= k < |piece| - 1 ==> piece[k] != '\n')
            && (Frame(piece, maxlen) || (bytes[|piece|..] == "" && !broken))
  {
    TakeLineShape(bytes, maxlen);
  }

  /** Each piece is a frame for `maxlen`, except that the last one may end at the end of file. */
  lemma {:induction false} PiecesShape(bytes: string, broken: bool, maxlen: nat, i: nat)
    requires maxlen > 1 && i < |Pieces(bytes, broken, maxlen)|
    ensures var pieces := Pieces(bytes, broken, maxlen);
            && 0 < |pieces[i]| < maxlen
            && (forall k :: 0 <= k < |pieces[i]| - 1 ==> pieces[i][k] != '\n')
            && (Frame(pieces[i], maxlen) || (i == |pieces| - 1 && !broken))
    decreases |bytes|
  {
    var piece, pieces := TakeLine(bytes, maxlen), Pieces(bytes, broken, maxlen);
    var rest := bytes[|piece|..];
    FirstPiece(bytes, broken, maxlen);
    FirstPieceShape(bytes, broken, maxlen);
    assert pieces[1..] == Pieces(rest, broken, maxlen);
    if i > 0 {
      PiecesShape(rest, broken, maxlen, i - 1);
      assert pieces[1..][i - 1] == pieces[i];
    } else if !Frame(piece, maxlen) {
      FirstPiece(rest, broken, maxlen);
    }
  }

  // ---------------------------------------------------------------------------------------------
  // When the echo is exact
  // ---------------------------------------------------------------------------------------------

  /** What the caller's loop writes back for a stream. */
  function Echo(bytes: string, broken: bool, maxlen: nat): string
    requires maxlen > 1
  {
    Written(Pieces(bytes, broken, maxlen))
  }

  lemma {:induction false} WrittenCons(piece: string, rest: seq<string>)
    ensures Written([piece] + rest) == Wire(piece) + Written(rest)
  {
    var whole, n := [piece] + rest, |rest|;
    if rest == [] {
      assert whole == [piece] && whole[..0] == [];
    } else {
      var front, last := rest[..n - 1], Wire(rest[n - 1]);
      assert whole[..n] == [piece] + front && whole[n] == rest[n - 1];
      WrittenCons(piece, front);
      Associative(Wire(piece), Written(front), last);
    }
  }

  /** The echo of a stream is that of its first piece, then that of what follows; or nothing is echoed. */
  lemma EchoStep(bytes: string, broken: bool, maxlen: nat)
    requires maxlen > 1
    ensures var piece := TakeLine(bytes, maxlen);
            Echo(bytes, broken, maxlen) ==
              if Count(bytes, broken, maxlen) <= 0 then "" else Wire(piece) + Echo(bytes[|piece|..], broken, maxlen)
  {
    var piece := TakeLine(bytes, maxlen);
    if Count(bytes, broken, maxlen) > 0 {
      FirstPiece(bytes, broken, maxlen);
      WrittenCons(piece, Pieces(bytes[|piece|..], broken, maxlen));
    }
  }

  /** There is a newline among the `room` bytes from place `i` on. */
  predicate NewlineWithin(bytes: string, i: nat, room: nat)
    requires i + room <= |bytes|
  {
    exists k :: i <= k < i + room && bytes[k] == '\n'
  }

  /** Every line of the text has at most `room` bytes, its newline included, and the last one is complete. */
  predicate ShortLines(bytes: string, room: nat) {
    && (bytes == "" || EndsInNewline(bytes))
    && forall i: nat :: i + room <= |bytes| ==> NewlineWithin(bytes, i, room)
  }

  predicate AllTerminators(s: string) {
    forall i :: 0 <= i < |s| ==> s[i] == '\0'
  }

  /**
   From place `n` on there is no newline for a whole piece, and after that piece there are terminators only, one
   more left over at the end than there are full pieces of them.
   */
  predicate TerminatorsAfter(bytes: string, n: nat, room: nat)
    requires room > 0
  {
    && n + room <= |bytes|
    && ShortLines(bytes[..n], room)
    && !NewlineWithin(bytes, n, room)
    && var rest := bytes[n + room..]; AllTerminators(rest) && |rest| % room == |rest| / room + 1
  }

  /** What the terminators added to full pieces make up for, byte by byte, when a read error loses the end. */
  predicate MadeUpFor(bytes: string, room: nat)
    requires room > 0
  {
    exists n :: 0 <= n <= |bytes| && TerminatorsAfter(bytes, n, room)
  }

  lemma WindowMoves(bytes: string, p: nat, i: nat, room: nat)
    requires p + i + room <= |bytes|
    ensures NewlineWithin(bytes[p..], i, room) <==> NewlineWithin(bytes, p + i, room)
  {
    var rest := bytes[p..];
    if NewlineWithin(bytes, p + i, room) {
      var k :| p + i <= k < p + i + room && bytes[k] == '\n';
      assert rest[k - p] == '\n';
    }
  }

  /** A first piece that is a line does not matter for the shape of the rest. */
  lemma LineFirst(bytes: string, piece: string, room: nat)
    requires piece <= bytes && 0 < |piece| <= room && EndsInNewline(piece)
    requires forall k :: 0 <= k < |piece| - 1 ==> piece[k] != '\n'
    ensures ShortLines(bytes, room) <==> ShortLines(bytes[|piece|..], room)
  {
    var rest, p := bytes[|piece|..], |piece|;
    assert bytes[p - 1] == '\n';
    if ShortLines(rest, room) {
      forall i: nat | i + room <= |bytes| ensures NewlineWithin(bytes, i, room) {
        if i >= p {
          WindowMoves(bytes, p, i - p, room);
        }
      }
    }
    if ShortLines(bytes, room) {
      forall i: nat | i + room <= |rest| ensures NewlineWithin(rest, i, room) {
        WindowMoves(bytes, p, i, room);
      }
    }
  }

  lemma LineFirstMadeUp(bytes: string, piece: string, n: nat, room: nat)
    requires room > 0 && piece <= bytes && |piece| <= n <= |bytes| && 0 < |piece| <= room && EndsInNewline(piece)
    requires forall k :: 0 <= k < |piece| - 1 ==> piece[k] != '\n'
    ensures TerminatorsAfter(bytes, n, room) <==> TerminatorsAfter(bytes[|piece|..], n - |piece|, room)
  {
    var rest, p := bytes[|piece|..], |piece|;
    if n + room <= |bytes| {
      LineFirst(bytes[..n], piece, room);
      assert bytes[..n][p..] == rest[..n - p] && rest[n - p + room..] == bytes[n + room..];
      WindowMoves(bytes, p, n - p, room);
    }
  }

  lemma LineFirstMadeUpFor(bytes: string, piece: string, room: nat)
    requires room > 0 && piece <= bytes && 0 < |piece| <= room && EndsInNewline(piece)
    requires forall k :: 0 <= k < |piece| - 1 ==> piece[k] != '\n'
    ensures MadeUpFor(bytes, room) <==> MadeUpFor(bytes[|piece|..], room)
  {
    var rest, p := bytes[|piece|..], |piece|;
    if MadeUpFor(rest, room) {
      var n :| 0 <= n <= |rest| && TerminatorsAfter(rest, n, room);
      LineFirstMadeUp(bytes, piece, n + p, room);
    }
    if MadeUpFor(bytes, room) {
      var n :| 0 <= n <= |bytes| && TerminatorsAfter(bytes, n, room);
      if n < p {
        assert false;
      }
      LineFirstMadeUp(bytes, piece, n, room);
    }
  }

  lemma NoLineFirst(bytes: string, n: nat, room: nat)
    requires 0 < n <= |bytes| && room <= |bytes| && !NewlineWithin(bytes, 0, room)
    ensures !ShortLines(bytes[..n], room)
  {
    if n <= room {
      assert bytes[..n][n - 1] == bytes[n - 1] != '\n';
    } else {
      assert !NewlineWithin(bytes[..n], 0, room);
    }
  }

  /** A first piece that is full without a newline leaves one way only. */
  lemma FullFirst(bytes: string, room: nat)
    requires 0 < room <= |bytes| && !NewlineWithin(bytes, 0, room)
    ensures !ShortLines(bytes, room)
    ensures MadeUpFor(bytes, room) <==>
            AllTerminators(bytes[room..]) && |bytes[room..]| % room == |bytes[room..]| / room + 1
  {
    forall n | 0 < n <= |bytes| ensures !ShortLines(bytes[..n], room) {
      NoLineFirst(bytes, n, room);
    }
    if MadeUpFor(bytes, room) {
      var n :| 0 <= n <= |bytes| && TerminatorsAfter(bytes, n, room);
      if n > 0 {
        assert false;
      }
    }
    if AllTerminators(bytes[room..]) && |bytes[room..]| % room == |bytes[room..]| / room + 1 {
      assert bytes[..0] == "";
      assert TerminatorsAfter(bytes, 0, room);
    }
  }

  lemma EchoOfFull(bytes: string, broken: bool, maxlen: nat)
    requires 1 < maxlen <= |bytes| + 1 && !NewlineWithin(bytes, 0, maxlen - 1)
    ensures var room := maxlen - 1;
            Echo(bytes, broken, maxlen) == bytes[..room] + ("\0" + Echo(bytes[room..], broken, maxlen))
  {
    var room := maxlen - 1;
    var piece, more := bytes[..room], Echo(bytes[room..], broken, maxlen);
    FullPiece(bytes, room);
    assert piece[room - 1] == bytes[room - 1];
    EchoStep(bytes, broken, maxlen);
    Associative(piece, "\0", more);
  }

  lemma TerminatorsTogether(a: string, b: string)
    requires AllTerminators(a) && AllTerminators(b)
    ensures AllTerminators(a + b)
  {
  }

  /** How many terminators come back for `m` of them: one more for each full piece, and what is left over is lost. */
  function Returned(m: nat, room: nat): nat
    requires room > 0
  {
    if m < room then 0 else Returned(m - room, room) + room + 1
  }

  lemma FewTerminators(s: string, maxlen: nat)
    requires |s| + 1 < maxlen && AllTerminators(s)
    ensures Echo(s, true, maxlen) == ""
  {
    EchoStep(s, true, maxlen);
    TakeLineWhole(s, maxlen);
  }

  lemma {:induction false} EchoOfTerminators(s: string, maxlen: nat)
    requires maxlen > 1 && AllTerminators(s)
    ensures AllTerminators(Echo(s, true, maxlen)) && |Echo(s, true, maxlen)| == Returned(|s|, maxlen - 1)
    decreases |s|
  {
    var room := maxlen - 1;
    if |s| < room {
      FewTerminators(s, maxlen);
    } else {
      var more := Echo(s[room..], true, maxlen);
      EchoOfFull(s, true, maxlen);
      EchoOfTerminators(s[room..], maxlen);
      TerminatorsTogether("\0", more);
      TerminatorsTogether(s[..room], "\0" + more);
      assert |s[..room] + ("\0" + more)| == room + 1 + Returned(|s| - room, room);
    }
  }

  lemma {:induction false} ReturnedCount(m: nat, room: nat)
    requires room > 0
    ensures Returned(m, room) == m + m / room - m % room
  {
    if m >= room {
      ReturnedCount(m - room, room);
      QuotientStep(m, room);
    }
  }

  lemma QuotientStep(m: nat, room: nat)
    requires 0 < room <= m
    ensures m / room == (m - room) / room + 1 && m % room == (m - room) % room
  {
    var q, t := (m - room) / room, (m - room) % room;
    var d := m / room - (q + 1);
    assert m - room == q * room + t && m == m / room * room + m % room;
    assert d * room == m / room * room - q * room - room;
    AtLeastOnce(if d < 0 then -d else d, room);
    assert d < 0 ==> -d * room == -(d * room);
  }

  lemma {:induction false} AtLeastOnce(d: int, room: int)
    requires d >= 0 && room > 0
    ensures d > 0 ==> d * room >= room
  {
    if d > 1 {
      AtLeastOnce(d - 1, room);
      assert d * room == (d - 1) * room + room;
    }
  }

  /** Only terminators can be their own echo with terminators put before it. */
  lemma {:induction false} OnlyTerminatorsShift(s: string, before: string, maxlen: nat)
    requires maxlen > 1 && before != "" && AllTerminators(before)
    requires s == before + Echo(s, true, maxlen)
    ensures AllTerminators(s)
    decreases |s|
  {
    var piece := TakeLine(s, maxlen);
    EchoStep(s, true, maxlen);
    if Count(s, true, maxlen) > 0 {
      var rest := s[|piece|..];
      var more := Echo(rest, true, maxlen);
      AllOfPiece(s, piece, before, more);
      Shifts(s, piece, before, more);
      OnlyTerminatorsShift(rest, (before + piece + "\0")[|piece|..], maxlen);
      assert s == piece + rest;
    }
  }

  lemma AllOfPiece(s: string, piece: string, before: string, more: string)
    requires piece <= s && before != "" && AllTerminators(before)
    requires s == before + (Wire(piece) + more)
    ensures AllTerminators(piece)
  {
    var i := 0;
    while i < |piece|
      invariant 0 <= i <= |piece| && AllTerminators(piece[..i])
    {
      if i < |before| {
        assert s[i] == before[i];
      } else {
        assert s[i] == piece[i - |before|] == piece[..i][i - |before|];
      }
      assert piece[..i + 1] == piece[..i] + [piece[i]];
      i := i + 1;
    }
    assert piece[..i] == piece;
  }

  lemma Shifts(s: string, piece: string, before: string, more: string)
    requires piece <= s && s == before + (Wire(piece) + more)
    requires before != "" && AllTerminators(before) && AllTerminators(piece)
    ensures var shifted := (before + piece + "\0")[|piece|..];
            s[|piece|..] == shifted + more && shifted != "" && AllTerminators(shifted)
  {
    var all := before + piece + "\0";
    assert Wire(piece) == piece + "\0";
    assert s == all + more;
    assert AllTerminators(all);
  }

  lemma ShiftedExactly(s: string, maxlen: nat)
    requires maxlen > 1
    ensures s == "\0" + Echo(s, true, maxlen) <==>
            AllTerminators(s) && |s| % (maxlen - 1) == |s| / (maxlen - 1) + 1
  {
    if s == "\0" + Echo(s, true, maxlen) {
      OnlyTerminatorsShift(s, "\0", maxlen);
    }
    if AllTerminators(s) {
      EchoOfTerminators(s, maxlen);
      ReturnedCount(|s|, maxlen - 1);
      assert "\0" + Echo(s, true, maxlen) == s <==> |"\0" + Echo(s, true, maxlen)| == |s|;
    }
  }

  /** Without a read error the echo never is shorter than the input. */
  lemma {:induction false} NothingLost(bytes: string, maxlen: nat)
    requires maxlen > 1
    ensures |Echo(bytes, false, maxlen)| >= |bytes|
    decreases |bytes|
  {
    EchoStep(bytes, false, maxlen);
    if bytes != "" {
      NothingLost(bytes[|TakeLine(bytes, maxlen)|..], maxlen);
    }
  }

  predicate ExactWhen(bytes: string, broken: bool, maxlen: nat)
    requires maxlen > 1
  {
    ShortLines(bytes, maxlen - 1) || (broken && MadeUpFor(bytes, maxlen - 1))
  }

  lemma ExactAfterFull(bytes: string, broken: bool, maxlen: nat)
    requires 1 < maxlen <= |bytes| + 1 && !NewlineWithin(bytes, 0, maxlen - 1)
    ensures Echo(bytes, broken, maxlen) == bytes <==> ExactWhen(bytes, broken, maxlen)
  {
    var room := maxlen - 1;
    var piece, rest := bytes[..room], bytes[room..];
    assert bytes == piece + rest;
    EchoOfFull(bytes, broken, maxlen);
    SameStart(piece, "\0" + Echo(rest, broken, maxlen), rest);
    FullFirst(bytes, room);
    ShiftedExactly(rest, maxlen);
    NothingLost(rest, maxlen);
  }

  lemma SameStart(piece: string, a: string, b: string)
    ensures piece + a == piece + b <==> a == b
  {
    assert (piece + a)[|piece|..] == a && (piece + b)[|piece|..] == b;
  }

  lemma EchoAfterLine(bytes: string, broken: bool, maxlen: nat)
    requires maxlen > 1 && bytes != "" && EndsInNewline(TakeLine(bytes, maxlen))
    ensures var rest := bytes[|TakeLine(bytes, maxlen)|..];
            Echo(bytes, broken, maxlen) == bytes <==> Echo(rest, broken, maxlen) == rest
  {
    var piece := TakeLine(bytes, maxlen);
    var rest := bytes[|piece|..];
    assert bytes == piece + rest;
    EchoStep(bytes, broken, maxlen);
    SameStart(piece, Echo(rest, broken, maxlen), rest);
  }

  lemma ExactAfterLine(bytes: string, broken: bool, maxlen: nat)
    requires maxlen > 1 && bytes != "" && EndsInNewline(TakeLine(bytes, maxlen))
    ensures ExactWhen(bytes, broken, maxlen) <==> ExactWhen(bytes[|TakeLine(bytes, maxlen)|..], broken, maxlen)
  {
    var piece := TakeLine(bytes, maxlen);
    TakeLineShape(bytes, maxlen);
    LineFirst(bytes, piece, maxlen - 1);
    LineFirstMadeUpFor(bytes, piece, maxlen - 1);
  }

  lemma ExactWhenShort(bytes: string, broken: bool, maxlen: nat)
    requires maxlen > 1 && bytes != "" && !EndsInNewline(bytes) && |bytes| < maxlen - 1
    requires TakeLine(bytes, maxlen) == bytes
    ensures Echo(bytes, broken, maxlen) != bytes && !ExactWhen(bytes, broken, maxlen)
  {
    EchoStep(bytes, broken, maxlen);
  }

  /**
   The caller's loop sends back exactly what it received if and only if every line is complete and fits the
   buffer, as each piece that ends otherwise brings a terminator byte with it; the one exception is a stream
   that breaks off, when the bytes lost at the end are terminators themselves and of the right number.
   */
  lemma {:induction false} EchoIsExact(bytes: string, broken: bool, maxlen: nat)
    requires maxlen > 1
    ensures Written(Pieces(bytes, broken, maxlen)) == bytes <==>
            ShortLines(bytes, maxlen - 1) || (broken && MadeUpFor(bytes, maxlen - 1))
    decreases |bytes|
  {
    var piece := TakeLine(bytes, maxlen);
    if bytes != "" {
      TakeLineShape(bytes, maxlen);
      if EndsInNewline(piece) {
        EchoAfterLine(bytes, broken, maxlen);
        ExactAfterLine(bytes, broken, maxlen);
        EchoIsExact(bytes[|piece|..], broken, maxlen);
      } else if |piece| == maxlen - 1 {
        ExactAfterFull(bytes, broken, maxlen);
      } else {
        ExactWhenShort(bytes, broken, maxlen);
      }
    }
  }

  /** A line that the end of file cuts short comes back with a terminator; a read error loses it. */
  lemma ShortLineIsNotExact(maxlen: nat)
    requires maxlen > 2
    ensures Written(Pieces("a", false, maxlen)) == "a\0"
    ensures Written(Pieces("a", true, maxlen)) == ""
  {
    TakeLineWhole("a", maxlen);
    EchoStep("a", false, maxlen);
    EchoStep("a", true, maxlen);
    EchoStep("", false, maxlen);
  }

  /** The exception is real: a full piece without a newline, and then a terminator that a read error loses. */
  lemma LossMadeUpFor()
    ensures Written(Pieces("ab\0", true, 3)) == "ab\0" && !ShortLines("ab\0", 2)
  {
    FullFirst("ab\0", 2);
    EchoIsExact("ab\0", true, 3);
  }
}
