/**
 The framing rules of the line echo protocol: what fgets and recv_line take from a byte stream,
 and what the client sends for a line. Bytes are modelled by `char`, the C terminator by '\0'.
 */
module LineProtocol {
  const BUF_SIZE: nat := 4096

  /** The bytes that fgets and recv_line take from a stream: up to a newline, at most `cap - 1` of them. */
  function TakeLine(s: string, cap: nat): (line: string)
    ensures line <= s && |line| <= |s|
    ensures s != "" && cap > 1 ==> line != ""
  {
    if cap <= 1 || s == "" then ""
    else if s[0] == '\n' then "\n"
    else [s[0]] + TakeLine(s[1..], cap - 1)
  }

  /** The part of a C string before its terminator. */
  function CStr(s: string): (t: string)
    ensures t <= s && '\0' !in t
    ensures t == s || s[|t|] == '\0'
  {
    if s == "" || s[0] == '\0' then "" else [s[0]] + CStr(s[1..])
  }

  predicate EndsInNewline(s: string) {
    s != "" && s[|s| - 1] == '\n'
  }

  /** What the client sends for a line read by fgets: strlen, then the newline rule. */
  function Message(line: string): string {
    var text := CStr(line);
    if !EndsInNewline(text) && |text| + 1 < BUF_SIZE then text + "\n" else text
  }

  predicate IsQuit(line: string) {
    "\\quit" <= line
  }

  /** The requests a client makes of a whole standard input: one a line, until \quit or end of file. */
  function Transcript(stdin: string): seq<string>
    decreases |stdin|
  {
    var line := TakeLine(stdin, BUF_SIZE);
    if stdin == "" || IsQuit(line) then [] else [Message(line)] + Transcript(stdin[|line|..])
  }

  /** A frame: a newline may stand only at its end, and it is full when there is none. */
  predicate Frame(m: string, cap: nat) {
    && 0 < |m| < cap
    && (forall i :: 0 <= i < |m| - 1 ==> m[i] != '\n')
    && (EndsInNewline(m) || |m| == cap - 1)
  }

  /** A line taken from a stream is a frame, unless the stream ends first. */
  lemma {:induction false} TakeLineShape(s: string, cap: nat)
    requires s != "" && cap > 1
    ensures var line := TakeLine(s, cap);
            && 0 < |line| < cap
            && (forall i :: 0 <= i < |line| - 1 ==> line[i] != '\n')
            && (Frame(line, cap) || line == s)
  {
    if s[0] != '\n' && cap > 2 && |s| > 1 {
      TakeLineShape(s[1..], cap - 1);
      assert s == [s[0]] + s[1..];
    }
  }

  lemma {:induction false} FrameIsTaken(m: string, rest: string, cap: nat)
    requires Frame(m, cap)
    ensures TakeLine(m + rest, cap) == m
  {
    if m[0] == '\n' {
      assert |m| == 1;
    } else if |m| > 1 {
      FrameIsTaken(m[1..], rest, cap - 1);
      assert (m + rest)[1..] == m[1..] + rest;
    } else {
      assert cap == 2;
    }
  }

  /** Frames are exactly the self-delimiting messages: whatever follows, the reader takes the message and no more. */
  lemma {:induction false} SelfDelimiting(m: string, cap: nat)
    requires cap > 1
    ensures (forall rest :: TakeLine(m + rest, cap) == m) <==> Frame(m, cap)
  {
    if Frame(m, cap) {
      forall rest ensures TakeLine(m + rest, cap) == m {
        FrameIsTaken(m, rest, cap);
      }
    } else {
      TakeLineShape(m + "x", cap);
      assert TakeLine(m + "x", cap) != m;
    }
  }

  /**
   The client's newline and length rules match the cut-off of recv_line, over-long lines and embedded terminators
   included.
   */
  lemma MessageIsFrame(stdin: string)
    requires stdin != ""
    ensures Frame(Message(TakeLine(stdin, BUF_SIZE)), BUF_SIZE)
    ensures var line := TakeLine(stdin, BUF_SIZE);
            Message(line) == CStr(line) || Message(line) == CStr(line) + "\n"
  {
    var line := TakeLine(stdin, BUF_SIZE);
    TakeLineShape(stdin, BUF_SIZE);
    var text := CStr(line);
    assert forall i :: 0 <= i < |text| ==> text[i] == line[i];
    assert text != line ==> |text| < |line|;
  }

  lemma Associative(a: string, b: string, c: string)
    ensures (a + b) + c == a + (b + c)
  {
  }

  function Concat(ss: seq<string>): string {
    if ss == [] then "" else ss[0] + Concat(ss[1..])
  }

  /** The input can be cut into frames: its last line is not left short by the end of file. */
  predicate EndsFramed(stdin: string)
    decreases |stdin|
  {
    var line := TakeLine(stdin, BUF_SIZE);
    if stdin == "" then true
    else if |line| == |stdin| then Frame(line, BUF_SIZE)
    else EndsFramed(stdin[|line|..])
  }

  /** The input with the newline that a short last line lacks. */
  function Completed(stdin: string): string {
    if EndsFramed(stdin) then stdin else stdin + "\n"
  }

  /** No piece of the input asks the client to quit. */
  predicate NoQuit(stdin: string)
    decreases |stdin|
  {
    stdin == "" || (!("\\quit" <= stdin) && NoQuit(stdin[|TakeLine(stdin, BUF_SIZE)|..]))
  }

  lemma {:induction false} TakesAtLeast(s: string, k: nat, cap: nat)
    requires k <= |s| && k < cap && forall i :: 0 <= i < k ==> s[i] != '\n'
    ensures s[..k] <= TakeLine(s, cap)
  {
    if k > 0 {
      TakesAtLeast(s[1..], k - 1, cap - 1);
      assert s[1..][..k - 1] == s[1..k] && s[..k] == [s[0]] + s[1..k];
    }
  }

  /** The command to quit is seen on the line as it stands at the front of the input. */
  lemma QuitStands(stdin: string)
    ensures IsQuit(TakeLine(stdin, BUF_SIZE)) <==> "\\quit" <= stdin
  {
    if "\\quit" <= stdin {
      TakesAtLeast(stdin, 5, BUF_SIZE);
      assert stdin[..5] == "\\quit";
    }
  }

  /** Nothing is asked for at the end of the input, and from a line on that begins with the command to quit. */
  lemma QuitStops(stdin: string)
    ensures Transcript(stdin) == [] <==> stdin == "" || "\\quit" <= stdin
  {
    QuitStands(stdin);
  }

  /** A single line is asked for once, up to a terminator in it and with a newline if it lacks one. */
  lemma OneLineAsked(line: string)
    requires line != "" && !("\\quit" <= line) && |TakeLine(line, BUF_SIZE)| == |line|
    ensures var asked := Transcript(line);
            && |asked| == 1 && Frame(asked[0], BUF_SIZE)
            && (asked[0] == CStr(line) || asked[0] == CStr(line) + "\n")
  {
    QuitStands(line);
    MessageIsFrame(line);
    assert TakeLine(line, BUF_SIZE) == line && line[|line|..] == "" && Transcript("") == [];
  }

  lemma {:induction false} TakesSameLine(a: string, more: string, cap: nat)
    requires EndsInNewline(a) && cap > 1
    ensures TakeLine(a + more, cap) == TakeLine(a, cap)
  {
    if a[0] != '\n' {
      assert (a + more)[1..] == a[1..] + more;
      if cap > 2 {
        TakesSameLine(a[1..], more, cap - 1);
      }
    }
  }

  lemma Regroup(a: seq<string>, b: seq<string>, c: seq<string>)
    ensures a + (b + c) == a + b + c
  {
  }

  lemma FirstPieceOf(a: string, more: string)
    requires EndsInNewline(a) && !("\\quit" <= a)
    ensures var line, all := TakeLine(a, BUF_SIZE), a + more;
            TakeLine(all, BUF_SIZE) == line && all[|line|..] == a[|line|..] + more && !IsQuit(line)
  {
    TakesSameLine(a, more, BUF_SIZE);
    QuitStands(a);
  }

  /** Lines typed one after the other are dealt with one after the other. */
  lemma {:induction false} TranscriptTogether(a: string, more: string)
    requires a == "" || EndsInNewline(a)
    requires NoQuit(a)
    ensures Transcript(a + more) == Transcript(a) + Transcript(more)
    decreases |a|
  {
    if a == "" {
      assert a + more == more && Transcript(a) == [];
    } else {
      var line := TakeLine(a, BUF_SIZE);
      var first, rest := [Message(line)], a[|line|..];
      FirstPieceOf(a, more);
      TranscriptTogether(rest, more);
      Regroup(first, Transcript(rest), Transcript(more));
    }
  }

  /** What is typed from a line that begins with the command to quit on changes nothing. */
  lemma QuitEndsSession(a: string, b: string)
    requires a == "" || EndsInNewline(a)
    requires NoQuit(a)
    ensures Transcript(a + ("\\quit" + b)) == Transcript(a)
  {
    TranscriptTogether(a, "\\quit" + b);
    assert ("\\quit" + b)[..5] == "\\quit";
    QuitStops("\\quit" + b);
  }

  /** An input whose last line ends in a newline needs no completion. */
  lemma {:induction false} NewlineEndsFramed(stdin: string)
    requires EndsInNewline(stdin)
    ensures EndsFramed(stdin)
    decreases |stdin|
  {
    var line := TakeLine(stdin, BUF_SIZE);
    TakeLineShape(stdin, BUF_SIZE);
    if |line| < |stdin| {
      NewlineEndsFramed(stdin[|line|..]);
    }
  }

  lemma {:induction false} TranscriptHasNoTerminator(stdin: string)
    ensures '\0' !in Concat(Transcript(stdin))
    decreases |stdin|
  {
    var line := TakeLine(stdin, BUF_SIZE);
    if stdin != "" && !IsQuit(line) {
      TranscriptHasNoTerminator(stdin[|line|..]);
    }
  }

  lemma CompletedRest(stdin: string)
    requires stdin != "" && |TakeLine(stdin, BUF_SIZE)| < |stdin|
    ensures var line := TakeLine(stdin, BUF_SIZE);
            Completed(stdin) == line + Completed(stdin[|line|..])
  {
    var line := TakeLine(stdin, BUF_SIZE);
    var rest := stdin[|line|..];
    assert line + rest == stdin;
    assert line + (rest + "\n") == stdin + "\n";
  }

  lemma ConcatCons(first: string, rest: seq<string>)
    ensures Concat([first] + rest) == first + Concat(rest)
  {
    assert ([first] + rest)[1..] == rest;
  }

  lemma {:induction false} TranscriptWithoutTerminator(stdin: string)
    requires NoQuit(stdin) && '\0' !in stdin
    ensures Concat(Transcript(stdin)) == Completed(stdin)
    decreases |stdin|
  {
    if stdin != "" {
      var line := TakeLine(stdin, BUF_SIZE);
      var rest := stdin[|line|..];
      TakeLineShape(stdin, BUF_SIZE);
      QuitStands(stdin);
      TranscriptWithoutTerminator(rest);
      ConcatCons(Message(line), Transcript(rest));
      assert CStr(line) == line;
      if |line| < |stdin| {
        CompletedRest(stdin);
      } else {
        assert rest == "" && line == stdin;
      }
    }
  }

  lemma MessageNotLonger(line: string)
    requires '\0' !in line
    ensures line <= Message(line) <= line + "\n"
  {
    assert CStr(line) == line;
  }

  /** A command to quit leaves something of the input without an echo. */
  lemma {:induction false} QuitLosesInput(stdin: string)
    requires '\0' !in stdin && !NoQuit(stdin)
    ensures |Concat(Transcript(stdin))| < |stdin|
    decreases |stdin|
  {
    QuitStands(stdin);
    if !("\\quit" <= stdin) {
      var line := TakeLine(stdin, BUF_SIZE);
      var rest := stdin[|line|..];
      TakeLineShape(stdin, BUF_SIZE);
      QuitLosesInput(rest);
      MessageNotLonger(line);
      WholeLine(stdin);
      ConcatCons(Message(line), Transcript(rest));
    }
  }

  /** A line that is not the last is sent as it is. */
  lemma WholeLine(stdin: string)
    requires stdin != "" && '\0' !in stdin && |TakeLine(stdin, BUF_SIZE)| < |stdin|
    ensures Message(TakeLine(stdin, BUF_SIZE)) == TakeLine(stdin, BUF_SIZE)
  {
    TakeLineShape(stdin, BUF_SIZE);
    assert CStr(TakeLine(stdin, BUF_SIZE)) == TakeLine(stdin, BUF_SIZE);
  }

  /**
   The echoes put together give the typed text back exactly when no line of it begins with the command to quit
   and it holds no terminator byte: strlen cuts a line at the first one, and what follows it on the line is lost.
   */
  lemma Transparency(stdin: string)
    ensures Concat(Transcript(stdin)) == Completed(stdin) <==> NoQuit(stdin) && '\0' !in stdin
  {
    TranscriptHasNoTerminator(stdin);
    if '\0' !in stdin {
      if NoQuit(stdin) {
        TranscriptWithoutTerminator(stdin);
      } else {
        QuitLosesInput(stdin);
      }
    }
  }

  /** A terminator typed inside a line: what follows it on the line does not come back. */
  lemma TerminatorCuts()
    ensures Transcript("a\0b\n") == ["a\n"] && Completed("a\0b\n") == "a\0b\n"
  {
    var stdin, line := "a\0b\n", TakeLine("a\0b\n", BUF_SIZE);
    assert stdin[1..] == "\0b\n" && "\0b\n"[1..] == "b\n" && "b\n"[1..] == "\n";
    assert line == stdin && stdin[|line|..] == "" && !IsQuit(line) && CStr(stdin) == "a";
    assert Message(line) == "a\n" && Transcript("") == [];
  }
}
