/** The chat server's rounds, one by one: who is read from, who gets in and who leaves, and what a session says. */
module ChatRounds {
  import opened LineProtocol
  import opened ChatRoom
  import opened ChatSessions

  // ---------------------------------------------------------------------------------------------
  // Rounds
  // ---------------------------------------------------------------------------------------------

  lemma FirstOf<T>(a: seq<T>, b: seq<T>)
    requires a != []
    ensures (a + b)[0] == a[0] && (a + b)[1..] == a[1..] + b
  {
  }

  lemma {:induction false} ServeTogether(r: Room, a: seq<Round>, b: seq<Round>, policy: Policy)
    requires Inv(r)
    requires Allocates(policy)
    ensures Serve(r, a + b, policy) == Serve(Serve(r, a, policy), b, policy)
    decreases |a|
  {
    if a == [] {
      assert a + b == b;
    } else {
      FirstOf(a, b);
      ServeTogether(DoRound(r, a[0], policy), a[1..], b, policy);
    }
  }

  lemma {:induction false} ReadsTogether(r: Room, a: seq<Round>, b: seq<Round>, policy: Policy, c: nat)
    requires Inv(r)
    requires Allocates(policy)
    ensures Reads(r, a + b, policy, c) == Reads(r, a, policy, c) + Reads(Serve(r, a, policy), b, policy, c)
    decreases |a|
  {
    if a == [] {
      assert a + b == b;
    } else {
      var now, next := ReadIn(Met(r, a[0], policy), 0, a[0], c), DoRound(r, a[0], policy);
      var later := Reads(Serve(r, a, policy), b, policy, c);
      FirstOf(a, b);
      ReadsTogether(next, a[1..], b, policy, c);
      assert now + (Reads(next, a[1..], policy, c) + later) == now + Reads(next, a[1..], policy, c) + later;
    }
  }

  /** Every round is made once and in order, and reads go with the rounds. */
  lemma RoundsInOrder(r: Room, rounds: seq<Round>, k: nat, policy: Policy, c: nat)
    requires Inv(r) && k < |rounds|
    requires Allocates(policy)
    ensures Serve(r, [], policy) == r && Reads(r, [], policy, c) == []
    ensures var r' := Serve(r, rounds[..k], policy);
            && Serve(r, rounds[..k + 1], policy) == DoRound(r', rounds[k], policy)
            && Reads(r, rounds[..k + 1], policy, c) ==
               Reads(r, rounds[..k], policy, c) + ReadIn(Met(r', rounds[k], policy), 0, rounds[k], c)
  {
    assert rounds[..k + 1] == rounds[..k] + [rounds[k]];
    ServeTogether(r, rounds[..k], [rounds[k]], policy);
    ReadsTogether(r, rounds[..k], [rounds[k]], policy, c);
    OneRound(Serve(r, rounds[..k], policy), rounds[k], policy, c);
  }

  lemma OneRound(r: Room, round: Round, policy: Policy, c: nat)
    requires Inv(r)
    requires Allocates(policy)
    ensures Serve(r, [round], policy) == DoRound(r, round, policy)
    ensures Reads(r, [round], policy, c) == ReadIn(Met(r, round, policy), 0, round, c)
  {
    assert [round][1..] == [];
  }

  lemma {:induction false} NothingReadFrom(r: Room, i: nat, round: Round, c: nat)
    requires forall j :: i <= j < |r.slots| && Occupied(r, j) ==> ConnAt(r, j) != c
    ensures ReadIn(r, i, round, c) == []
    decreases |r.slots| - i
  {
    if i < |r.slots| {
      NothingReadFrom(r, i + 1, round, c);
    }
  }

  lemma {:induction false} ReadOnceFrom(r: Room, i: nat, j: nat, round: Round, c: nat)
    requires TableInv(r) && i <= j < |r.slots| && Occupied(r, j) && ConnAt(r, j) == c
    ensures ReadIn(r, i, round, c) == if round.ready(r.slots[j].fd) then [round.chunks(c)] else []
    decreases j - i
  {
    if i < j {
      if Occupied(r, i) {
        SameConn(r, i, j);
      }
      ReadOnceFrom(r, i + 1, j, round, c);
    } else {
      forall m | j < m < |r.slots| && Occupied(r, m) ensures ConnAt(r, m) != c {
        SameConn(r, j, m);
      }
      NothingReadFrom(r, j + 1, round, c);
    }
  }

  /** In a sweep the server reads once from a client in a slot whose descriptor is ready, and from nobody else. */
  lemma ReadOnce(r: Room, round: Round, c: nat)
    requires Inv(r)
    ensures !Seated(r, c) ==> ReadIn(r, 0, round, c) == []
    ensures forall j :: 0 <= j < |r.slots| && Occupied(r, j) && ConnAt(r, j) == c ==>
              ReadIn(r, 0, round, c) == if round.ready(r.slots[j].fd) then [round.chunks(c)] else []
  {
    if !Seated(r, c) {
      NothingReadFrom(r, 0, round, c);
    }
    forall j | 0 <= j < |r.slots| && Occupied(r, j) && ConnAt(r, j) == c
      ensures ReadIn(r, 0, round, c) == if round.ready(r.slots[j].fd) then [round.chunks(c)] else []
    {
      ReadOnceFrom(r, 0, j, round, c);
    }
  }

  /** A round takes in one connection when one waits; it gets a slot exactly when one is free, and no one else does. */
  lemma ArrivalGetsSlot(r: Room, round: Round, policy: Policy, c: nat)
    requires Inv(r) && c <= |r.sent|
    requires Allocates(policy)
    ensures var met := Met(r, round, policy);
            && |met.sent| == |r.sent| + (if round.arrival then 1 else 0)
            && (c < |r.sent| ==> (Seated(met, c) <==> Seated(r, c)))
            && (Seated(met, |r.sent|) <==> round.arrival && exists i :: 0 <= i < |r.slots| && r.slots[i].fd == 0)
  {
    var fd := policy(r.open, |r.sent|);
    AcceptSeats(r, fd, c);
    AcceptSeats(r, fd, |r.sent|);
  }

  /** A client keeps its slot whatever it sends, and loses slot and descriptor when it has closed its end. */
  lemma HandleSeats(r: Room, i: nat, chunk: string, c: nat)
    requires Inv(r) && Occupied(r, i)
    ensures var r' := Handle(r, i, chunk);
            && (Seated(r', c) <==> Seated(r, c) && !(chunk == "" && c == ConnAt(r, i)))
            && r'.open.Keys == if chunk == "" then r.open.Keys - {r.slots[i].fd} else r.open.Keys
  {
    if chunk == "" {
      HangUpSeats(r, i, c);
    } else {
      SameSeats(r, Handle(r, i, chunk), c);
    }
  }

  // ---------------------------------------------------------------------------------------------
  // What a session says
  // ---------------------------------------------------------------------------------------------

  function Lines(name: string, chunks: seq<string>): seq<Message> {
    seq(|chunks|, i requires 0 <= i < |chunks| => Line(name, CStr(chunks[i])))
  }

  lemma {:induction false} NamedReplies(spoken: seq<Message>, name: string, chunks: seq<string>, leaves: bool)
    requires PhaseOf(spoken) == Named(name) && forall i :: 0 <= i < |chunks| ==> chunks[i] != ""
    ensures Replies(spoken, chunks + if leaves then [""] else []) ==
            spoken + Lines(name, chunks) + if leaves then [Leave(name)] else []
    decreases |chunks|
  {
    var end := if leaves then [""] else [];
    if chunks == [] {
      assert chunks + end == end && spoken + Lines(name, chunks) == spoken;
      if leaves {
        assert [""][1..] == [];
      }
    } else {
      var line := Line(name, CStr(chunks[0]));
      assert (chunks + end)[1..] == chunks[1..] + end && (chunks + end)[0] == chunks[0];
      PhaseAppend(spoken, line);
      NamedReplies(spoken + [line], name, chunks[1..], leaves);
      assert Lines(name, chunks) == [line] + Lines(name, chunks[1..]);
      assert spoken + [line] + Lines(name, chunks[1..]) == spoken + Lines(name, chunks);
    }
  }

  /** The data up to their first newline or terminator. */
  predicate NamePart(data: string, name: string) {
    && name <= data && '\n' !in name && '\0' !in name
    && (name == data || data[|name|] in {'\n', '\0'})
  }

  lemma NameIsPart(data: string)
    ensures NamePart(data, NameIn(CStr(data)))
  {
    NameInMeaning(CStr(data));
    var text, name := CStr(data), NameIn(CStr(data));
    assert name <= text <= data;
    if name != text {
      assert data[|name|] == text[|name|];
    }
  }

  lemma SessionReplies(first: string, chunks: seq<string>, leaves: bool)
    requires first != "" && first[0] !in {'\n', '\0'} && forall i :: 0 <= i < |chunks| ==> chunks[i] != ""
    ensures var name := NameIn(CStr(first));
            && name != "" && NamePart(first, name)
            && Replies([], [first] + (chunks + if leaves then [""] else [])) ==
               [Join(name)] + Lines(name, chunks) + if leaves then [Leave(name)] else []
  {
    var name := NameIn(CStr(first));
    NameIsPart(first);
    RepliesFirst([], first, chunks + if leaves then [""] else []);
    PhaseAppend([], Join(name));
    assert [] + [Join(name)] == [Join(name)];
    NamedReplies([Join(name)], name, chunks, leaves);
  }

  /**
   A whole session, over every run: the first data are the name, up to a newline or terminator; each chunk after
   them is announced as a line under that name, up to a terminator; and the end of the data as the leave.
   */
  lemma SessionAnnounced(rounds: seq<Round>, policy: Policy, c: nat, first: string, chunks: seq<string>, leaves: bool)
      returns (name: string)
    requires Allocates(policy)
    requires first != "" && first[0] !in {'\n', '\0'} && forall i :: 0 <= i < |chunks| ==> chunks[i] != ""
    requires Reads(Opened(), rounds, policy, c) == [first] + (chunks + if leaves then [""] else [])
    ensures name != "" && NamePart(first, name)
    ensures Spoken(After(rounds, policy).log, c) ==
            [Join(name)] + Lines(name, chunks) + if leaves then [Leave(name)] else []
  {
    name := NameIn(CStr(first));
    SessionReplies(first, chunks, leaves);
    AnnouncementsAreReplies(rounds, policy, c);
  }
}
