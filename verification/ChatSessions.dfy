/**
 Sessions in the chat room: the shape of what is announced for a client, and how it follows from what the client
 sends.
 */
module ChatSessions {
  import opened LineProtocol
  import opened ChatRoom

  /** Joins with an empty name, up to `j`; there the join with the name; then lines under that name. */
  predicate Talking(spoken: seq<Message>, j: nat, name: string) {
    && j < |spoken| && name != "" && spoken[j] == Join(name)
    && (forall k :: 0 <= k < j ==> spoken[k] == Join(""))
    && (forall k :: j < k < |spoken| ==> spoken[k].Line? && spoken[k].name == name)
  }

  /** The shape of a session, in each of the phases a connection can be in. */
  ghost predicate SessionShape(spoken: seq<Message>, phase: Phase) {
    match phase
    case Nameless => forall k :: 0 <= k < |spoken| ==> spoken[k] == Join("")
    case Named(name) => exists j :: Talking(spoken, j, name)
    case Gone =>
      && spoken != [] && spoken[|spoken| - 1].Leave?
      && var front, name := spoken[..|spoken| - 1], spoken[|spoken| - 1].name;
         exists j :: Talking(front, j, name)
    case Broken => true
  }

  lemma {:induction false} PhaseShape(spoken: seq<Message>)
    ensures SessionShape(spoken, PhaseOf(spoken))
  {
    if spoken != [] {
      var front, m := spoken[..|spoken| - 1], spoken[|spoken| - 1];
      PhaseShape(front);
      match PhaseOf(front) {
        case Nameless =>
          if m.Join? && m.name != "" {
            assert Talking(spoken, |spoken| - 1, m.name);
          }
        case Named(name) =>
          var j :| Talking(front, j, name);
          if m.Line? && m.name == name {
            assert Talking(spoken, j, name);
          }
        case _ =>
      }
    }
  }

  /**
   Session shape: over every run, the broadcasts for a connection are joins without a name, then at most one
   join with a name, lines under that name, and at most one leave, which is the last; what its slot holds
   tells how far it has come, a named client that has no slot any more has taken its leave, and free slots
   hold no name.
   */
  lemma Sessions(rounds: seq<Round>, policy: Policy, c: nat)
    requires Allocates(policy)
    requires c < |After(rounds, policy).sent|
    ensures var r := After(rounds, policy);
            var spoken := Spoken(r.log, c);
            && PhaseOf(spoken) != Broken && SessionShape(spoken, PhaseOf(spoken))
            && (PhaseOf(spoken) == Gone ==> !Seated(r, c)) && (PhaseOf(spoken).Named? ==> Seated(r, c))
            && forall i :: 0 <= i < |r.slots| ==>
                 && (r.slots[i].fd == 0 ==> r.slots[i].username == "")
                 && (r.slots[i].fd > 0 && ConnAt(r, i) == c ==> PhaseOf(spoken) == SlotPhase(r.slots[i].username))
  {
    var r := After(rounds, policy);
    PhaseShape(Spoken(r.log, c));
  }

  /** The session a client expects: nothing, or one join, then lines, then at most one leave. */
  ghost predicate OneJoin(spoken: seq<Message>) {
    || spoken == []
    || (exists name :: Talking(spoken, 0, name))
    || (spoken[|spoken| - 1].Leave? && Talking(spoken[..|spoken| - 1], 0, spoken[|spoken| - 1].name))
  }

  lemma ShapeOneJoin(spoken: seq<Message>)
    requires PhaseOf(spoken) != Broken && SessionShape(spoken, PhaseOf(spoken))
    ensures OneJoin(spoken) <==> Join("") !in spoken
  {
    match PhaseOf(spoken) {
      case Nameless =>
        if spoken != [] {
          assert spoken[0] == Join("");
        }
      case Named(name) =>
        var j :| Talking(spoken, j, name);
        if j > 0 {
          assert spoken[0] == Join("");
        }
      case Gone =>
        var front := spoken[..|spoken| - 1];
        var name := spoken[|spoken| - 1].name;
        var j :| Talking(front, j, name);
        assert forall k :: 0 <= k < |front| ==> spoken[k] == front[k];
        if j > 0 {
          assert spoken[0] == Join("");
        }
    }
  }

  // ---------------------------------------------------------------------------------------------
  // What a client sends decides what is announced for it
  // ---------------------------------------------------------------------------------------------

  /** What the server reads from connection `c` in a sweep from slot `i` on: the empty chunk is the end of its data. */
  function ReadIn(r: Room, i: nat, round: Round, c: nat): seq<string>
    decreases |r.slots| - i
  {
    if i >= |r.slots| then []
    else (if Occupied(r, i) && ConnAt(r, i) == c && round.ready(r.slots[i].fd) then [round.chunks(c)] else [])
         + ReadIn(r, i + 1, round, c)
  }

  /** The room when the sweep of a round begins. */
  function Met(r: Room, round: Round, policy: Policy): (r': Room)
    requires Inv(r)
    requires Allocates(policy)
    ensures Inv(r')
  {
    AcceptKeeps(r, policy(r.open, |r.sent|));
    if round.arrival then Accept(r, policy(r.open, |r.sent|)) else r
  }

  /** What the server reads from connection `c` over a run. */
  function Reads(r: Room, rounds: seq<Round>, policy: Policy, c: nat): seq<string>
    requires Inv(r)
    requires Allocates(policy)
    decreases |rounds|
  {
    if rounds == [] then []
    else
      ReadIn(Met(r, rounds[0], policy), 0, rounds[0], c)
      + Reads(DoRound(r, rounds[0], policy), rounds[1..], policy, c)
  }

  /** What is announced for a client in that phase when that chunk is read from it. */
  function Reply(phase: Phase, chunk: string): seq<Message> {
    match phase
    case Nameless => if chunk == "" then [] else [Join(NameIn(CStr(chunk)))]
    case Named(name) => [if chunk == "" then Leave(name) else Line(name, CStr(chunk))]
    case _ => []
  }

  /** A client's announcements, given those so far and what is read from it next. */
  function Replies(spoken: seq<Message>, chunks: seq<string>): seq<Message>
    decreases |chunks|
  {
    if chunks == [] then spoken else Replies(spoken + Reply(PhaseOf(spoken), chunks[0]), chunks[1..])
  }

  lemma {:induction false} RepliesTogether(spoken: seq<Message>, a: seq<string>, b: seq<string>)
    ensures Replies(spoken, a + b) == Replies(Replies(spoken, a), b)
    decreases |a|
  {
    if a == [] {
      assert a + b == b;
    } else {
      assert (a + b)[1..] == a[1..] + b;
      RepliesTogether(spoken + Reply(PhaseOf(spoken), a[0]), a[1..], b);
    }
  }

  lemma SpokenAppend(log: seq<Entry>, e: Entry, c: nat)
    ensures Spoken(log + [e], c) == Spoken(log, c) + if e.Said? && e.conn == c then [e.m] else []
  {
    Append(log, e);
  }

  /** Dealing with a chunk announces the reply to it for its sender, and nothing for anyone else. */
  lemma HandleReplies(r: Room, i: nat, chunk: string, c: nat)
    requires Inv(r) && Occupied(r, i)
    ensures Spoken(Handle(r, i, chunk).log, c) ==
            Spoken(r.log, c) + if c == ConnAt(r, i) then Reply(PhaseOf(Spoken(r.log, c)), chunk) else []
  {
    var d, name := ConnAt(r, i), r.slots[i].username;
    var first := NameIn(CStr(chunk));
    assert PhaseOf(Spoken(r.log, d)) == SlotPhase(name);
    if chunk == "" {
      var told := if name == "" then r.log else r.log + [Said(d, Leave(name))];
      SpokenAppend(r.log, Said(d, Leave(name)), c);
      SpokenAppend(told, Exit(d), c);
    } else if name == "" {
      SpokenAppend(r.log, Said(d, Join(first)), c);
      SpokenAppend(r.log + [Said(d, Join(first))], Greet(d, Welcome(first)), c);
    } else {
      SpokenAppend(r.log, Said(d, Line(name, CStr(chunk))), c);
    }
  }

  /** Dealing with slot `i` leaves every other slot as it is. */
  lemma HandleKeepsOthers(r: Room, i: nat, chunk: string, j: nat)
    requires Inv(r) && Occupied(r, i) && j != i && j < |r.slots|
    ensures var r' := Handle(r, i, chunk);
            && |r'.slots| == |r.slots| && r'.slots[j] == r.slots[j]
            && (Occupied(r', j) <==> Occupied(r, j))
            && (Occupied(r, j) ==> ConnAt(r', j) == ConnAt(r, j))
  {
    assert r.slots[i].fd > 0 && (j < i || i < j);
    if Occupied(r, j) {
      SameConn(r, i, j);
    }
  }

  lemma {:induction false} ReadInRest(r: Room, i: nat, chunk: string, j: nat, round: Round, c: nat)
    requires Inv(r) && Occupied(r, i) && i < j
    ensures ReadIn(Handle(r, i, chunk), j, round, c) == ReadIn(r, j, round, c)
    decreases |r.slots| - j
  {
    HandleKeeps(r, i, chunk);
    if j < |r.slots| {
      HandleKeepsOthers(r, i, chunk, j);
      ReadInRest(r, i, chunk, j + 1, round, c);
    }
  }

  /** The sweep over slot `i`, when there is something to read there. */
  lemma SweepReads(r: Room, i: nat, round: Round, c: nat)
    requires Inv(r) && i < MAX_CLIENTS && r.slots[i].fd > 0 && round.ready(r.slots[i].fd)
    ensures var r' := Handle(r, i, round.chunks(ConnAt(r, i)));
            && Inv(r') && SweepFrom(r, i, round) == SweepFrom(r', i + 1, round)
            && Replies(Spoken(r.log, c), ReadIn(r, i, round, c)) ==
               Replies(Spoken(r'.log, c), ReadIn(r', i + 1, round, c))
  {
    var chunk, spoken, rest := round.chunks(ConnAt(r, i)), Spoken(r.log, c), ReadIn(r, i + 1, round, c);
    HandleKeeps(r, i, chunk);
    HandleReplies(r, i, chunk, c);
    ReadInRest(r, i, chunk, i + 1, round, c);
    RepliesFirst(spoken, chunk, rest);
    assert ReadIn(r, i, round, c) == (if c == ConnAt(r, i) then [chunk] else []) + rest;
  }

  lemma SweepPasses(r: Room, i: nat, round: Round, c: nat)
    requires Inv(r) && i < MAX_CLIENTS && !(r.slots[i].fd > 0 && round.ready(r.slots[i].fd))
    ensures SweepFrom(r, i, round) == SweepFrom(r, i + 1, round) && ReadIn(r, i, round, c) == ReadIn(r, i + 1, round, c)
  {
    assert [] + ReadIn(r, i + 1, round, c) == ReadIn(r, i + 1, round, c);
  }

  lemma SlotReplies(r: Room, i: nat, round: Round, c: nat) returns (r': Room)
    requires Inv(r) && i < MAX_CLIENTS
    ensures Inv(r') && SweepFrom(r, i, round) == SweepFrom(r', i + 1, round)
    ensures Replies(Spoken(r.log, c), ReadIn(r, i, round, c)) == Replies(Spoken(r'.log, c), ReadIn(r', i + 1, round, c))
  {
    if r.slots[i].fd > 0 && round.ready(r.slots[i].fd) {
      r' := Handle(r, i, round.chunks(ConnAt(r, i)));
      SweepReads(r, i, round, c);
    } else {
      r' := r;
      SweepPasses(r, i, round, c);
    }
  }

  lemma {:induction false} SweepReplies(r: Room, i: nat, round: Round, c: nat)
    requires Inv(r)
    ensures Spoken(SweepFrom(r, i, round).log, c) == Replies(Spoken(r.log, c), ReadIn(r, i, round, c))
    decreases MAX_CLIENTS - i
  {
    if i < MAX_CLIENTS {
      var r' := SlotReplies(r, i, round, c);
      SweepReplies(r', i + 1, round, c);
    }
  }

  lemma RepliesFirst(spoken: seq<Message>, chunk: string, rest: seq<string>)
    ensures Replies(spoken, [chunk] + rest) == Replies(spoken + Reply(PhaseOf(spoken), chunk), rest)
    ensures [] + rest == rest && spoken + [] == spoken
  {
    assert ([chunk] + rest)[1..] == rest;
  }

  lemma RoundReplies(r: Room, round: Round, policy: Policy, c: nat)
    requires Inv(r)
    requires Allocates(policy)
    ensures Spoken(DoRound(r, round, policy).log, c) ==
            Replies(Spoken(r.log, c), ReadIn(Met(r, round, policy), 0, round, c))
  {
    var met := Met(r, round, policy);
    SpokenAppend(r.log, Enter(|r.sent|), c);
    assert Spoken(met.log, c) == Spoken(r.log, c);
    SweepReplies(met, 0, round, c);
  }

  lemma {:induction false} ServeReplies(r: Room, rounds: seq<Round>, policy: Policy, c: nat)
    requires Inv(r)
    requires Allocates(policy)
    ensures Spoken(Serve(r, rounds, policy).log, c) == Replies(Spoken(r.log, c), Reads(r, rounds, policy, c))
    decreases |rounds|
  {
    if rounds != [] {
      var next := DoRound(r, rounds[0], policy);
      RoundReplies(r, rounds[0], policy, c);
      ServeReplies(next, rounds[1..], policy, c);
      var now, later := ReadIn(Met(r, rounds[0], policy), 0, rounds[0], c), Reads(next, rounds[1..], policy, c);
      RepliesTogether(Spoken(r.log, c), now, later);
    }
  }

  /**
   Over every run, what is announced for a client is decided by the chunks read from it alone: the replies to
   them in their order, whoever else is in the room and whatever descriptor and slot the client has.
   */
  lemma AnnouncementsAreReplies(rounds: seq<Round>, policy: Policy, c: nat)
    requires Allocates(policy)
    ensures Spoken(After(rounds, policy).log, c) == Replies([], Reads(Opened(), rounds, policy, c))
  {
    OpenedInv();
    ServeReplies(Opened(), rounds, policy, c);
  }

  /** The first data a client sends; empty when it sends none. */
  function FirstData(chunks: seq<string>): string {
    if chunks == [] then "" else if chunks[0] != "" then chunks[0] else FirstData(chunks[1..])
  }

  /** The data begin with the end of a line or of a string, so there is no name in them. */
  predicate NoName(data: string) {
    data != "" && data[0] in {'\n', '\0'}
  }

  lemma {:induction false} LaterRepliesJoinNot(spoken: seq<Message>, chunks: seq<string>)
    requires PhaseOf(spoken).Named? || PhaseOf(spoken) == Gone
    ensures Join("") in Replies(spoken, chunks) <==> Join("") in spoken
    decreases |chunks|
  {
    if chunks != [] {
      var reply := Reply(PhaseOf(spoken), chunks[0]);
      if reply != [] {
        PhaseAppend(spoken, reply[0]);
      } else {
        assert spoken + reply == spoken;
      }
      LaterRepliesJoinNot(spoken + reply, chunks[1..]);
    }
  }

  lemma {:induction false} RepliesKeep(spoken: seq<Message>, chunks: seq<string>, m: Message)
    requires m in spoken
    ensures m in Replies(spoken, chunks)
    decreases |chunks|
  {
    if chunks != [] {
      RepliesKeep(spoken + Reply(PhaseOf(spoken), chunks[0]), chunks[1..], m);
    }
  }

  lemma {:induction false} EmptyJoinExactly(chunks: seq<string>)
    ensures Join("") in Replies([], chunks) <==> NoName(FirstData(chunks))
    decreases |chunks|
  {
    if chunks != [] {
      if chunks[0] == "" {
        EmptyJoinExactly(chunks[1..]);
        assert [] + Reply(Nameless, chunks[0]) == [];
      } else {
        var name := NameIn(CStr(chunks[0]));
        var spoken := [Join(name)];
        assert [] + Reply(Nameless, chunks[0]) == spoken;
        if NoName(chunks[0]) {
          RepliesKeep(spoken, chunks[1..], Join(""));
        } else {
          PhaseAppend([], Join(name));
          assert [] + spoken == spoken;
          LaterRepliesJoinNot(spoken, chunks[1..]);
        }
      }
    }
  }

  /**
   A session has the form its client expects exactly when the first data read from it do not begin with a newline
   or a terminator: then there is no name in them, which is announced like any other, and the client is taken for
   a new one again.
   */
  lemma OneJoinExactly(rounds: seq<Round>, policy: Policy, c: nat)
    requires Allocates(policy)
    requires c < |After(rounds, policy).sent|
    ensures OneJoin(Spoken(After(rounds, policy).log, c)) <==> !NoName(FirstData(Reads(Opened(), rounds, policy, c)))
  {
    var spoken := Spoken(After(rounds, policy).log, c);
    PhaseShape(spoken);
    ShapeOneJoin(spoken);
    AnnouncementsAreReplies(rounds, policy, c);
    EmptyJoinExactly(Reads(Opened(), rounds, policy, c));
  }

  // A client that sends an empty line and then its name, alone with the server.

  function Arrives(): Round {
    Round(true, _ => false, _ => "")
  }

  function Sends(chunk: string): Round {
    Round(false, _ => true, _ => chunk)
  }

  /** Slot 0 holds connection 0, under a name, and every other slot is free. */
  predicate Alone(r: Room, username: string) {
    && Occupied(r, 0) && ConnAt(r, 0) == 0 && r.slots[0].username == username
    && forall i :: 0 < i < |r.slots| ==> r.slots[i] == FREE
  }

  lemma {:induction false} FreeSlotsPass(r: Room, i: nat, round: Round)
    requires Inv(r)
    requires forall j :: i <= j < |r.slots| ==> r.slots[j].fd == 0
    ensures SweepFrom(r, i, round) == r
    decreases MAX_CLIENTS - i
  {
    if i < MAX_CLIENTS {
      FreeSlotsPass(r, i + 1, round);
    }
  }

  lemma RoundsFirst(r: Room, round: Round, rest: seq<Round>, policy: Policy)
    requires Inv(r)
    requires Allocates(policy)
    ensures Serve(r, [round] + rest, policy) == Serve(DoRound(r, round, policy), rest, policy)
  {
    assert ([round] + rest)[1..] == rest;
  }

  lemma ArrivalAlone(policy: Policy)
    requires Allocates(policy)
    ensures var fd := policy(map[], 0);
            var r := Accept(Opened(), fd);
            Inv(r) && Alone(r, "") && r.log == [Enter(0)]
  {
    OpenedInv();
    var fd := policy(map[], 0);
    AcceptKeeps(Opened(), fd);
    assert FreeSlot(Opened().slots, 0) == 0;
  }

  lemma ArrivalRound(rest: seq<Round>, policy: Policy) returns (r: Room)
    requires Allocates(policy)
    ensures Inv(r) && Alone(r, "") && Spoken(r.log, 0) == []
    ensures After([Arrives()] + rest, policy) == Serve(r, rest, policy)
  {
    OpenedInv();
    ArrivalAlone(policy);
    r := Accept(Opened(), policy(map[], 0));
    SpokenAppend([], Enter(0), 0);
    SweepPasses(r, 0, Arrives(), 0);
    FreeSlotsPass(r, 1, Arrives());
    RoundsFirst(Opened(), Arrives(), rest, policy);
  }

  lemma LoneHandle(r: Room, chunk: string) returns (r': Room)
    requires Inv(r) && Alone(r, "") && chunk != ""
    ensures var name := NameIn(CStr(chunk));
            Alone(r', name) && Spoken(r'.log, 0) == Spoken(r.log, 0) + [Join(name)]
    ensures Inv(r') && SweepFrom(r, 0, Sends(chunk)) == SweepFrom(r', 1, Sends(chunk))
  {
    r' := Handle(r, 0, chunk);
    HandleReplies(r, 0, chunk, 0);
    SweepReads(r, 0, Sends(chunk), 0);
    forall j | 0 < j < |r.slots| ensures r'.slots[j] == FREE {
      HandleKeepsOthers(r, 0, chunk, j);
    }
  }

  lemma LoneRound(r: Room, chunk: string, rest: seq<Round>, policy: Policy) returns (r': Room)
    requires Inv(r) && Alone(r, "") && chunk != ""
    requires Allocates(policy)
    ensures var name := NameIn(CStr(chunk));
            Alone(r', name) && Spoken(r'.log, 0) == Spoken(r.log, 0) + [Join(name)]
    ensures Inv(r') && Serve(r, [Sends(chunk)] + rest, policy) == Serve(r', rest, policy)
  {
    r' := LoneHandle(r, chunk);
    FreeSlotsPass(r', 1, Sends(chunk));
    RoundsFirst(r, Sends(chunk), rest, policy);
  }

  function EmptyLineThenName(): seq<Round> {
    [Arrives()] + ([Sends("\n")] + ([Sends("b\n")] + []))
  }

  lemma TwoJoins()
    ensures NameIn(CStr("\n")) == "" && NameIn(CStr("b\n")) == "b"
    ensures !OneJoin([] + [Join("")] + [Join("b")]) && [] + [Join("")] + [Join("b")] == [Join(""), Join("b")]
  {
    assert "b\n"[1..] == "\n";
    assert ([] + [Join("")] + [Join("b")])[0] == Join("");
  }

  /** An empty first line makes it join twice. */
  lemma JoinsTwice(policy: Policy)
    requires Allocates(policy)
    ensures var spoken := Spoken(After(EmptyLineThenName(), policy).log, 0);
            spoken == [Join(""), Join("b")] && !OneJoin(spoken)
  {
    TwoJoins();
    var last := [Sends("b\n")] + [];
    var r1 := ArrivalRound([Sends("\n")] + last, policy);
    var r2 := LoneRound(r1, "\n", last, policy);
    var r3 := LoneRound(r2, "b\n", [], policy);
  }
}
