/**
 The chat server on values: its slot table, what each connection has been sent, and a log of what happened
 in the room. Connections are numbered in the order of their arrival, as descriptor numbers are used again.
 */
module ChatRoom {
  import opened LineProtocol

  const MAX_CLIENTS: nat := 100

  /** A place in the table; it is free when its descriptor is 0, and its client nameless when the name is empty. */
  datatype Slot = Slot(fd: nat, username: string)

  const FREE := Slot(0, "")

  datatype Message =
    | Join(name: string)
    | Leave(name: string)
    | Line(name: string, text: string)
    | Welcome(name: string)

  /** What happened: a client got a slot, something was broadcast for it, it was welcomed, it gave its slot up. */
  datatype Entry =
    | Enter(conn: nat)
    | Said(conn: nat, m: Message)
    | Greet(conn: nat, m: Message)
    | Exit(conn: nat)

  /** `sent[c]` is everything sent to connection `c`, in order; there have been `|sent|` connections. */
  datatype Room = Room(slots: seq<Slot>, open: map<nat, nat>, sent: seq<seq<Message>>, log: seq<Entry>)

  function Opened(): Room {
    Room(seq(MAX_CLIENTS, _ => FREE), map[], [], [])
  }

  // ---------------------------------------------------------------------------------------------
  // What a log means
  // ---------------------------------------------------------------------------------------------

  function Front(log: seq<Entry>): seq<Entry>
    requires log != []
  {
    log[..|log| - 1]
  }

  function Last(log: seq<Entry>): Entry
    requires log != []
  {
    log[|log| - 1]
  }

  /** Connection `c` has a slot at the end of the log. */
  predicate Holds(log: seq<Entry>, c: nat) {
    if log == [] then false
    else if Last(log) == Enter(c) then true
    else if Last(log) == Exit(c) then false
    else Holds(Front(log), c)
  }

  /** It got one and has not given it up since. */
  lemma {:induction false} HoldsMeaning(log: seq<Entry>, c: nat)
    ensures Holds(log, c) <==>
            exists e :: 0 <= e < |log| && log[e] == Enter(c) && forall x :: e < x < |log| ==> log[x] != Exit(c)
  {
    if log != [] && Last(log) != Enter(c) && Last(log) != Exit(c) {
      var front := Front(log);
      HoldsMeaning(front, c);
      if Holds(front, c) {
        var e :| 0 <= e < |front| && front[e] == Enter(c) && forall x :: e < x < |front| ==> front[x] != Exit(c);
        assert log[e] == Enter(c);
      }
      if e :| 0 <= e < |log| && log[e] == Enter(c) && forall x :: e < x < |log| ==> log[x] != Exit(c) {
        assert front[e] == Enter(c);
      }
    }
  }

  /** The places of the log that connection `c` hears of. */
  function Heard(log: seq<Entry>, c: nat): seq<nat> {
    if log == [] then []
    else Heard(Front(log), c) + if Hears(Front(log), Last(log), c) then [|log| - 1] else []
  }

  /** What comes after `log` is for `c`: broadcasts for others while it has a slot, and its own welcome. */
  predicate Hears(log: seq<Entry>, e: Entry, c: nat) {
    match e
    case Said(d, _) => d != c && Holds(log, c)
    case Greet(d, _) => d == c
    case _ => false
  }

  /** The messages of the log that connection `c` is to be sent. */
  function View(log: seq<Entry>, c: nat): seq<Message> {
    if log == [] then []
    else View(Front(log), c) + if Hears(Front(log), Last(log), c) then [Last(log).m] else []
  }

  /** The broadcasts made on behalf of connection `c`. */
  function Spoken(log: seq<Entry>, c: nat): seq<Message> {
    if log == [] then []
    else Spoken(Front(log), c) + if Last(log).Said? && Last(log).conn == c then [Last(log).m] else []
  }

  lemma Append(log: seq<Entry>, e: Entry)
    ensures Front(log + [e]) == log && Last(log + [e]) == e
  {
  }

  /** Phases of a connection, read off the broadcasts made for it. */
  datatype Phase = Nameless | Named(name: string) | Gone | Broken

  function Advance(p: Phase, m: Message): Phase {
    match (p, m)
    case (Nameless, Join(name)) => if name == "" then Nameless else Named(name)
    case (Named(n), Line(name, _)) => if name == n then p else Broken
    case (Named(n), Leave(name)) => if name == n then Gone else Broken
    case _ => Broken
  }

  function PhaseOf(spoken: seq<Message>): Phase {
    if spoken == [] then Nameless
    else Advance(PhaseOf(spoken[..|spoken| - 1]), spoken[|spoken| - 1])
  }

  // ---------------------------------------------------------------------------------------------
  // The server's operations
  // ---------------------------------------------------------------------------------------------

  /** broadcast_message from slot `i` on. */
  function BroadcastFrom(slots: seq<Slot>, open: map<nat, nat>, sent: seq<seq<Message>>, sender: nat, m: Message,
                         i: nat): (r: seq<seq<Message>>)
    ensures |r| == |sent|
    decreases |slots| - i
  {
    if i >= |slots| then sent
    else
      var fd := slots[i].fd;
      var next := if fd > 0 && fd != sender && fd in open && open[fd] < |sent|
                  then sent[open[fd] := sent[open[fd]] + [m]] else sent;
      BroadcastFrom(slots, open, next, sender, m, i + 1)
  }

  predicate Occupied(r: Room, i: nat) {
    i < |r.slots| && r.slots[i].fd > 0 && r.slots[i].fd in r.open && r.open[r.slots[i].fd] < |r.sent|
  }

  /** The connection in slot `i`. */
  function ConnAt(r: Room, i: nat): nat
    requires Occupied(r, i)
  {
    r.open[r.slots[i].fd]
  }

  /** `m` is broadcast on behalf of the client in slot `i`. */
  function Broadcast(r: Room, i: nat, m: Message): Room
    requires Occupied(r, i)
  {
    r.(sent := BroadcastFrom(r.slots, r.open, r.sent, r.slots[i].fd, m, 0), log := r.log + [Said(ConnAt(r, i), m)])
  }

  /** The first free slot from `i` on, or the size of the table. */
  function FreeSlot(slots: seq<Slot>, i: nat): (j: nat)
    requires i <= |slots|
    ensures i <= j <= |slots|
    ensures j < |slots| ==> slots[j].fd == 0
    ensures forall k :: i <= k < j ==> slots[k].fd != 0
    decreases |slots| - i
  {
    if i == |slots| || slots[i].fd == 0 then i else FreeSlot(slots, i + 1)
  }

  /** A connection is accepted: it gets the first free slot, or none, and then it stays open but unknown. */
  function Accept(r: Room, fd: nat): Room {
    var c, i := |r.sent|, FreeSlot(r.slots, 0);
    var known := r.(open := r.open[fd := c], sent := r.sent + [[]]);
    if i < |r.slots| then known.(slots := r.slots[i := Slot(fd, "")], log := r.log + [Enter(c)]) else known
  }

  /** The client in slot `i` has closed its end. */
  function HangUp(r: Room, i: nat): Room
    requires Occupied(r, i)
  {
    var c, fd, name := ConnAt(r, i), r.slots[i].fd, r.slots[i].username;
    var told := if name != "" then Broadcast(r, i, Leave(name)) else r;
    told.(slots := r.slots[i := FREE], open := r.open - {fd}, log := told.log + [Exit(c)])
  }

  /** The first line of what a nameless client sent: strcspn up to the newline. */
  function NameIn(data: string): string {
    if data == "" || data[0] == '\n' then "" else [data[0]] + NameIn(data[1..])
  }

  function TakeName(r: Room, i: nat, name: string): Room
    requires Occupied(r, i)
  {
    var c := ConnAt(r, i);
    var told := Broadcast(r.(slots := r.slots[i := r.slots[i].(username := name)]), i, Join(name));
    told.(sent := told.sent[c := told.sent[c] + [Welcome(name)]], log := told.log + [Greet(c, Welcome(name))])
  }

  /** What read gave for the client in slot `i` is dealt with; an empty chunk is the end of its data. */
  function Handle(r: Room, i: nat, chunk: string): Room
    requires Occupied(r, i)
  {
    if chunk == "" then HangUp(r, i)
    else if r.slots[i].username == "" then TakeName(r, i, NameIn(CStr(chunk)))
    else Broadcast(r, i, Line(r.slots[i].username, CStr(chunk)))
  }

  // ---------------------------------------------------------------------------------------------
  // The invariants
  // ---------------------------------------------------------------------------------------------

  /** Free slots have no name; occupied ones have different open descriptors. */
  predicate TableInv(r: Room) {
    && |r.slots| == MAX_CLIENTS
    && (forall i :: 0 <= i < |r.slots| ==> if r.slots[i].fd == 0 then r.slots[i].username == "" else Occupied(r, i))
    && (forall i, j :: 0 <= i < j < |r.slots| && r.slots[i].fd > 0 ==> r.slots[i].fd != r.slots[j].fd)
    && (forall f :: f in r.open ==> f > 0 && r.open[f] < |r.sent|)
    && (forall f, g :: f in r.open && g in r.open && f != g ==> r.open[f] != r.open[g])
  }

  predicate Seated(r: Room, c: nat) {
    exists i :: 0 <= i < |r.slots| && Occupied(r, i) && ConnAt(r, i) == c
  }

  /** The log tells who has a slot, and each connection has been sent its view of the log. */
  predicate HearInv(r: Room) {
    && (forall k :: 0 <= k < |r.log| ==> r.log[k].conn < |r.sent|)
    && (forall c :: 0 <= c < |r.sent| ==> (Holds(r.log, c) <==> Seated(r, c)))
    && (forall c :: 0 <= c < |r.sent| ==> r.sent[c] == View(r.log, c))
  }

  function SlotPhase(username: string): Phase {
    if username == "" then Nameless else Named(username)
  }

  /** What has been broadcast for a connection agrees with the name in its slot. */
  predicate TalkInv(r: Room) {
    && (forall i :: 0 <= i < |r.slots| && Occupied(r, i) ==>
          PhaseOf(Spoken(r.log, ConnAt(r, i))) == SlotPhase(r.slots[i].username))
    && (forall c :: 0 <= c < |r.sent| ==> PhaseOf(Spoken(r.log, c)) != Broken)
    && (forall c :: 0 <= c < |r.sent| && PhaseOf(Spoken(r.log, c)).Named? ==> Seated(r, c))
  }

  predicate Inv(r: Room) {
    TableInv(r) && HearInv(r) && TalkInv(r)
  }

  lemma SameConn(r: Room, i: nat, j: nat)
    requires TableInv(r) && Occupied(r, i) && Occupied(r, j)
    ensures ConnAt(r, i) == ConnAt(r, j) ==> i == j
  {
    if i < j {
      assert r.slots[i].fd != r.slots[j].fd;
    } else if j < i {
      assert r.slots[j].fd != r.slots[i].fd;
    }
  }

  // ---------------------------------------------------------------------------------------------
  // Broadcast
  // ---------------------------------------------------------------------------------------------

  /** Connection `c` is in slot `i` or a later one, under a descriptor other than the sender's. */
  predicate Listens(r: Room, sender: nat, c: nat, i: nat) {
    exists j :: i <= j < |r.slots| && Occupied(r, j) && r.slots[j].fd != sender && ConnAt(r, j) == c
  }

  /** Every listener is sent the message, once. */
  lemma {:induction false} BroadcastReaches(r: Room, sent: seq<seq<Message>>, sender: nat, m: Message, i: nat, c: nat)
    requires TableInv(r) && |sent| == |r.sent| && c < |sent|
    ensures BroadcastFrom(r.slots, r.open, sent, sender, m, i)[c] ==
            sent[c] + if Listens(r, sender, c, i) then [m] else []
    decreases |r.slots| - i
  {
    if i < |r.slots| {
      var fd := r.slots[i].fd;
      var next := if fd > 0 && fd != sender then sent[r.open[fd] := sent[r.open[fd]] + [m]] else sent;
      BroadcastReaches(r, next, sender, m, i + 1, c);
      if Occupied(r, i) && fd != sender && ConnAt(r, i) == c {
        assert Listens(r, sender, c, i) && !Listens(r, sender, c, i + 1);
      } else {
        assert Listens(r, sender, c, i) <==> Listens(r, sender, c, i + 1);
      }
    }
  }

  lemma ListenersAreSeated(r: Room, i: nat, c: nat)
    requires TableInv(r) && Occupied(r, i)
    ensures Listens(r, r.slots[i].fd, c, 0) <==> Seated(r, c) && c != ConnAt(r, i)
  {
    if Seated(r, c) && c != ConnAt(r, i) {
      var j :| 0 <= j < |r.slots| && Occupied(r, j) && ConnAt(r, j) == c;
      assert r.slots[j].fd != r.slots[i].fd;
    }
    if Listens(r, r.slots[i].fd, c, 0) {
      var j :| 0 <= j < |r.slots| && Occupied(r, j) && r.slots[j].fd != r.slots[i].fd && ConnAt(r, j) == c;
      SameConn(r, i, j);
    }
  }

  lemma BroadcastKeepsHear(r: Room, i: nat, m: Message)
    requires TableInv(r) && HearInv(r) && Occupied(r, i)
    ensures TableInv(Broadcast(r, i, m)) && HearInv(Broadcast(r, i, m))
  {
    var r', e := Broadcast(r, i, m), Said(ConnAt(r, i), m);
    Append(r.log, e);
    forall c | 0 <= c < |r'.sent|
      ensures r'.sent[c] == View(r'.log, c) && (Holds(r'.log, c) <==> Seated(r', c))
    {
      BroadcastReaches(r, r.sent, r.slots[i].fd, m, 0, c);
      ListenersAreSeated(r, i, c);
      SameSeats(r, r', c);
    }
  }

  lemma SameSeats(r: Room, r': Room, c: nat)
    requires r'.open == r.open && |r'.sent| == |r.sent| && |r'.slots| == |r.slots|
    requires forall i :: 0 <= i < |r.slots| ==> r'.slots[i].fd == r.slots[i].fd
    ensures Seated(r', c) <==> Seated(r, c)
  {
    if Seated(r, c) {
      var i :| 0 <= i < |r.slots| && Occupied(r, i) && ConnAt(r, i) == c;
      assert Occupied(r', i) && ConnAt(r', i) == c;
    }
    if Seated(r', c) {
      var i :| 0 <= i < |r.slots| && Occupied(r', i) && ConnAt(r', i) == c;
      assert Occupied(r, i) && ConnAt(r, i) == c;
    }
  }

  lemma PhaseAppend(spoken: seq<Message>, m: Message)
    ensures PhaseOf(spoken + [m]) == Advance(PhaseOf(spoken), m)
  {
    assert (spoken + [m])[..|spoken|] == spoken;
  }

  /** A broadcast moves the phase of its sender and of no one else. */
  lemma SpokenAfter(log: seq<Entry>, e: Entry, c: nat)
    ensures PhaseOf(Spoken(log + [e], c)) ==
            if e.Said? && e.conn == c then Advance(PhaseOf(Spoken(log, c)), e.m) else PhaseOf(Spoken(log, c))
  {
    Append(log, e);
    if e.Said? && e.conn == c {
      PhaseAppend(Spoken(log, c), e.m);
    } else {
      assert Spoken(log + [e], c) == Spoken(log, c);
    }
  }

  /** A connection that the log does not mention has no slot, has heard nothing and said nothing. */
  lemma {:induction false} Unmentioned(log: seq<Entry>, c: nat)
    requires forall k :: 0 <= k < |log| ==> log[k].conn != c
    ensures !Holds(log, c) && View(log, c) == [] && Spoken(log, c) == []
  {
    if log != [] {
      Unmentioned(Front(log), c);
    }
  }

  // ---------------------------------------------------------------------------------------------
  // Accept
  // ---------------------------------------------------------------------------------------------

  lemma AcceptKeepsTable(r: Room, fd: nat)
    requires TableInv(r) && fd > 0 && fd !in r.open
    ensures TableInv(Accept(r, fd))
  {
    var r', i := Accept(r, fd), FreeSlot(r.slots, 0);
    forall j, k | 0 <= j < k < |r'.slots| && r'.slots[j].fd > 0 ensures r'.slots[j].fd != r'.slots[k].fd {
      assert j != i && r.slots[j].fd > 0 ==> Occupied(r, j);
      assert k != i && r.slots[k].fd > 0 ==> Occupied(r, k);
    }
    forall j | 0 <= j < |r'.slots| && r'.slots[j].fd > 0 ensures Occupied(r', j) {
      assert j != i ==> Occupied(r, j);
    }
  }

  lemma AcceptSeats(r: Room, fd: nat, c: nat)
    requires TableInv(r) && fd > 0 && fd !in r.open && c <= |r.sent|
    ensures Seated(Accept(r, fd), c) <==> if c == |r.sent| then FreeSlot(r.slots, 0) < |r.slots| else Seated(r, c)
  {
    var r', i := Accept(r, fd), FreeSlot(r.slots, 0);
    if i < |r.slots| {
      assert Occupied(r', i) && ConnAt(r', i) == |r.sent|;
    }
    if Seated(r, c) {
      var j :| 0 <= j < |r.slots| && Occupied(r, j) && ConnAt(r, j) == c;
      assert Occupied(r', j) && ConnAt(r', j) == c;
    }
    if Seated(r', c) && c < |r.sent| {
      var j :| 0 <= j < |r.slots| && Occupied(r', j) && ConnAt(r', j) == c;
      assert j != i && Occupied(r, j) && ConnAt(r, j) == c;
    }
  }

  lemma AcceptKeepsHear(r: Room, fd: nat)
    requires Inv(r) && fd > 0 && fd !in r.open
    ensures HearInv(Accept(r, fd))
  {
    var r', n := Accept(r, fd), |r.sent|;
    Unmentioned(r.log, n);
    Append(r.log, Enter(n));
    forall c | 0 <= c < |r'.sent|
      ensures r'.sent[c] == View(r'.log, c) && (Holds(r'.log, c) <==> Seated(r', c))
    {
      AcceptSeats(r, fd, c);
    }
  }

  lemma AcceptKeepsPhase(r: Room, fd: nat, c: nat)
    ensures PhaseOf(Spoken(Accept(r, fd).log, c)) == PhaseOf(Spoken(r.log, c))
  {
    SpokenAfter(r.log, Enter(|r.sent|), c);
  }

  lemma AcceptKeepsSlots(r: Room, fd: nat, j: nat)
    requires Inv(r) && fd > 0 && fd !in r.open && j < |r.slots| && Occupied(Accept(r, fd), j)
    ensures var r' := Accept(r, fd);
            PhaseOf(Spoken(r'.log, ConnAt(r', j))) == SlotPhase(r'.slots[j].username)
  {
    var r' := Accept(r, fd);
    AcceptKeepsPhase(r, fd, ConnAt(r', j));
    if j != FreeSlot(r.slots, 0) {
      assert Occupied(r, j) && ConnAt(r', j) == ConnAt(r, j);
    } else {
      Unmentioned(r.log, |r.sent|);
    }
  }

  lemma AcceptKeepsTalk(r: Room, fd: nat)
    requires Inv(r) && fd > 0 && fd !in r.open
    ensures TalkInv(Accept(r, fd))
  {
    var r' := Accept(r, fd);
    Unmentioned(r.log, |r.sent|);
    forall c | 0 <= c < |r'.sent|
      ensures PhaseOf(Spoken(r'.log, c)) != Broken
      ensures PhaseOf(Spoken(r'.log, c)).Named? ==> Seated(r', c)
    {
      AcceptKeepsPhase(r, fd, c);
      AcceptSeats(r, fd, c);
    }
    forall j | 0 <= j < |r'.slots| && Occupied(r', j)
      ensures PhaseOf(Spoken(r'.log, ConnAt(r', j))) == SlotPhase(r'.slots[j].username)
    {
      AcceptKeepsSlots(r, fd, j);
    }
  }

  // ---------------------------------------------------------------------------------------------
  // Reading from a client
  // ---------------------------------------------------------------------------------------------

  /** A broadcast that its sender's phase allows, with the name that its slot has then. */
  lemma BroadcastKeepsTalk(r: Room, i: nat, m: Message, username: string)
    requires TableInv(r) && Occupied(r, i)
    requires TalkInv(r.(slots := r.slots[i := r.slots[i].(username := username)]))
    requires Advance(SlotPhase(username), m) == SlotPhase(r.slots[i].username)
    ensures TalkInv(Broadcast(r, i, m))
  {
    var was := r.(slots := r.slots[i := r.slots[i].(username := username)]);
    var r', c := Broadcast(r, i, m), ConnAt(r, i);
    assert Occupied(was, i) && ConnAt(was, i) == c;
    forall d | 0 <= d < |r'.sent|
      ensures PhaseOf(Spoken(r'.log, d)) != Broken
      ensures PhaseOf(Spoken(r'.log, d)).Named? ==> Seated(r', d)
    {
      SpokenAfter(r.log, Said(c, m), d);
      SameSeats(was, r', d);
      if d == c {
        assert Occupied(r', i) && ConnAt(r', i) == c;
      }
    }
    forall j | 0 <= j < |r'.slots| && Occupied(r', j)
      ensures PhaseOf(Spoken(r'.log, ConnAt(r', j))) == SlotPhase(r'.slots[j].username)
    {
      assert Occupied(r, j) && Occupied(was, j);
      SpokenAfter(r.log, Said(c, m), ConnAt(r, j));
      SameConn(r, i, j);
    }
  }

  lemma GreetKeeps(r: Room, c: nat, m: Message)
    requires Inv(r) && c < |r.sent|
    ensures Inv(r.(sent := r.sent[c := r.sent[c] + [m]], log := r.log + [Greet(c, m)]))
  {
    var r' := r.(sent := r.sent[c := r.sent[c] + [m]], log := r.log + [Greet(c, m)]);
    Append(r.log, Greet(c, m));
    forall d | 0 <= d < |r'.sent|
      ensures PhaseOf(Spoken(r'.log, d)) == PhaseOf(Spoken(r.log, d)) && (Seated(r', d) <==> Seated(r, d))
    {
      SpokenAfter(r.log, Greet(c, m), d);
      SameSeats(r, r', d);
    }
    forall j | 0 <= j < |r'.slots| && Occupied(r', j)
      ensures PhaseOf(Spoken(r'.log, ConnAt(r', j))) == SlotPhase(r'.slots[j].username)
    {
      assert Occupied(r, j);
    }
  }

  lemma TalkKeeps(r: Room, i: nat, text: string)
    requires Inv(r) && Occupied(r, i) && r.slots[i].username != ""
    ensures Inv(Broadcast(r, i, Line(r.slots[i].username, text)))
  {
    var m := Line(r.slots[i].username, text);
    BroadcastKeepsHear(r, i, m);
    assert r.(slots := r.slots[i := r.slots[i].(username := r.slots[i].username)]) == r;
    BroadcastKeepsTalk(r, i, m, r.slots[i].username);
  }

  lemma RenameKeeps(r: Room, i: nat, name: string)
    requires Inv(r) && Occupied(r, i)
    ensures var r' := r.(slots := r.slots[i := r.slots[i].(username := name)]);
            TableInv(r') && HearInv(r') && Occupied(r', i)
            && r'.(slots := r'.slots[i := r'.slots[i].(username := r.slots[i].username)]) == r
  {
    var r' := r.(slots := r.slots[i := r.slots[i].(username := name)]);
    forall c | 0 <= c < |r.sent| ensures Seated(r', c) <==> Seated(r, c) {
      SameSeats(r, r', c);
    }
    forall j | 0 <= j < |r.slots| && r.slots[j].fd > 0 ensures Occupied(r', j) {
      assert Occupied(r, j);
    }
  }

  lemma TakeNameKeeps(r: Room, i: nat, name: string)
    requires Inv(r) && Occupied(r, i) && r.slots[i].username == ""
    ensures Inv(TakeName(r, i, name))
  {
    var r' := r.(slots := r.slots[i := r.slots[i].(username := name)]);
    RenameKeeps(r, i, name);
    BroadcastKeepsHear(r', i, Join(name));
    BroadcastKeepsTalk(r', i, Join(name), "");
    GreetKeeps(Broadcast(r', i, Join(name)), ConnAt(r, i), Welcome(name));
  }

  // ---------------------------------------------------------------------------------------------
  // Leaving
  // ---------------------------------------------------------------------------------------------

  /** The client in slot `i` is struck from the table. */
  function Strike(r: Room, i: nat): Room
    requires Occupied(r, i)
  {
    r.(slots := r.slots[i := FREE], open := r.open - {r.slots[i].fd}, log := r.log + [Exit(ConnAt(r, i))])
  }

  lemma StrikeKeepsTable(r: Room, i: nat)
    requires TableInv(r) && Occupied(r, i)
    ensures TableInv(Strike(r, i))
  {
    var r' := Strike(r, i);
    forall j | 0 <= j < |r'.slots| && r'.slots[j].fd > 0 ensures Occupied(r', j) {
      assert Occupied(r, j) && r.slots[j].fd != r.slots[i].fd;
    }
  }

  lemma StrikeSeats(r: Room, i: nat, c: nat)
    requires TableInv(r) && Occupied(r, i)
    ensures Seated(Strike(r, i), c) <==> Seated(r, c) && c != ConnAt(r, i)
  {
    var r' := Strike(r, i);
    if Seated(r, c) && c != ConnAt(r, i) {
      var j :| 0 <= j < |r.slots| && Occupied(r, j) && ConnAt(r, j) == c;
      assert r.slots[j].fd != r.slots[i].fd;
      assert Occupied(r', j) && ConnAt(r', j) == c;
    }
    if Seated(r', c) {
      var j :| 0 <= j < |r.slots| && Occupied(r', j) && ConnAt(r', j) == c;
      assert Occupied(r, j) && ConnAt(r, j) == c;
      SameConn(r, i, j);
    }
  }

  lemma StrikeKeepsHear(r: Room, i: nat)
    requires TableInv(r) && HearInv(r) && Occupied(r, i)
    ensures HearInv(Strike(r, i))
  {
    var r', e := Strike(r, i), Exit(ConnAt(r, i));
    Append(r.log, e);
    forall c | 0 <= c < |r'.sent|
      ensures r'.sent[c] == View(r'.log, c) && (Holds(r'.log, c) <==> Seated(r', c))
    {
      StrikeSeats(r, i, c);
    }
  }

  lemma HangUpPhase(r: Room, i: nat, c: nat)
    requires Inv(r) && Occupied(r, i)
    ensures PhaseOf(Spoken(HangUp(r, i).log, c)) ==
            if c == ConnAt(r, i) && r.slots[i].username != "" then Gone else PhaseOf(Spoken(r.log, c))
  {
    var conn, name := ConnAt(r, i), r.slots[i].username;
    if name == "" {
      SpokenAfter(r.log, Exit(conn), c);
    } else {
      SpokenAfter(r.log, Said(conn, Leave(name)), c);
      SpokenAfter(r.log + [Said(conn, Leave(name))], Exit(conn), c);
    }
  }

  lemma HangUpSeats(r: Room, i: nat, c: nat)
    requires Inv(r) && Occupied(r, i)
    ensures Seated(HangUp(r, i), c) <==> Seated(r, c) && c != ConnAt(r, i)
  {
    StrikeSeats(r, i, c);
    SameSeats(Strike(r, i), HangUp(r, i), c);
  }

  lemma HangUpKeepsTalk(r: Room, i: nat)
    requires Inv(r) && Occupied(r, i)
    ensures TalkInv(HangUp(r, i))
  {
    var r' := HangUp(r, i);
    forall c | 0 <= c < |r'.sent|
      ensures PhaseOf(Spoken(r'.log, c)) != Broken
      ensures PhaseOf(Spoken(r'.log, c)).Named? ==> Seated(r', c)
    {
      HangUpPhase(r, i, c);
      HangUpSeats(r, i, c);
    }
    forall j | 0 <= j < |r'.slots| && Occupied(r', j)
      ensures PhaseOf(Spoken(r'.log, ConnAt(r', j))) == SlotPhase(r'.slots[j].username)
    {
      assert Occupied(r, j) && ConnAt(r', j) == ConnAt(r, j);
      SameConn(r, i, j);
      HangUpPhase(r, i, ConnAt(r, j));
    }
  }

  lemma HangUpKeeps(r: Room, i: nat)
    requires Inv(r) && Occupied(r, i)
    ensures Inv(HangUp(r, i))
  {
    var name := r.slots[i].username;
    if name != "" {
      BroadcastKeepsHear(r, i, Leave(name));
      StrikeKeepsTable(Broadcast(r, i, Leave(name)), i);
      StrikeKeepsHear(Broadcast(r, i, Leave(name)), i);
    } else {
      StrikeKeepsTable(r, i);
      StrikeKeepsHear(r, i);
    }
    HangUpKeepsTalk(r, i);
  }

  lemma HandleKeeps(r: Room, i: nat, chunk: string)
    requires Inv(r) && Occupied(r, i)
    ensures Inv(Handle(r, i, chunk))
  {
    if chunk == "" {
      HangUpKeeps(r, i);
    } else if r.slots[i].username == "" {
      TakeNameKeeps(r, i, NameIn(CStr(chunk)));
    } else {
      TalkKeeps(r, i, CStr(chunk));
    }
  }

  lemma AcceptKeeps(r: Room, fd: nat)
    requires Inv(r) && fd > 0 && fd !in r.open
    ensures Inv(Accept(r, fd))
  {
    AcceptKeepsTable(r, fd);
    AcceptKeepsHear(r, fd);
    AcceptKeepsTalk(r, fd);
  }

  lemma OpenedInv()
    ensures Inv(Opened())
  {
  }

  // ---------------------------------------------------------------------------------------------
  // Whole runs
  // ---------------------------------------------------------------------------------------------

  /** One round of the main loop: whether a connection waits, which descriptors are ready, what a read gives. */
  datatype Round = Round(arrival: bool, ready: nat -> bool, chunks: nat -> string)

  /** How the kernel numbers the descriptor of the n-th connection: any positive number that is not open will do. */
  type Policy = (map<nat, nat>, nat) -> nat

  ghost predicate Allocates(policy: Policy) {
    forall open, n :: policy(open, n) > 0 && policy(open, n) !in open
  }

  /** The sweep over the slots from slot `i` on. */
  function SweepFrom(r: Room, i: nat, round: Round): (r': Room)
    requires Inv(r)
    ensures Inv(r')
    decreases MAX_CLIENTS - i
  {
    if i >= MAX_CLIENTS then r
    else if r.slots[i].fd > 0 && round.ready(r.slots[i].fd) then
      HandleKeeps(r, i, round.chunks(ConnAt(r, i)));
      SweepFrom(Handle(r, i, round.chunks(ConnAt(r, i))), i + 1, round)
    else SweepFrom(r, i + 1, round)
  }

  lemma SweepSlot(r: Room, i: nat, round: Round) returns (r': Room)
    requires Inv(r) && i < MAX_CLIENTS
    ensures r' == if r.slots[i].fd > 0 && round.ready(r.slots[i].fd) then Handle(r, i, round.chunks(ConnAt(r, i)))
                  else r
    ensures Inv(r') && SweepFrom(r, i, round) == SweepFrom(r', i + 1, round)
  {
    r' := r;
    if r.slots[i].fd > 0 && round.ready(r.slots[i].fd) {
      HandleKeeps(r, i, round.chunks(ConnAt(r, i)));
      r' := Handle(r, i, round.chunks(ConnAt(r, i)));
    }
  }

  function DoRound(r: Room, round: Round, policy: Policy): (r': Room)
    requires Inv(r)
    requires Allocates(policy)
    ensures Inv(r')
  {
    AcceptKeeps(r, policy(r.open, |r.sent|));
    SweepFrom(if round.arrival then Accept(r, policy(r.open, |r.sent|)) else r, 0, round)
  }

  function Serve(r: Room, rounds: seq<Round>, policy: Policy): (r': Room)
    requires Inv(r)
    requires Allocates(policy)
    ensures Inv(r')
    decreases |rounds|
  {
    if rounds == [] then r else Serve(DoRound(r, rounds[0], policy), rounds[1..], policy)
  }

  /** The server after any number of rounds. */
  function After(rounds: seq<Round>, policy: Policy): (r: Room)
    requires Allocates(policy)
    ensures Inv(r)
  {
    OpenedInv();
    Serve(Opened(), rounds, policy)
  }

  // ---------------------------------------------------------------------------------------------
  // Main results
  // ---------------------------------------------------------------------------------------------

  function Texts(log: seq<Entry>, heard: seq<nat>): seq<Message>
    requires forall k :: 0 <= k < |heard| ==> heard[k] < |log| && (log[heard[k]].Said? || log[heard[k]].Greet?)
  {
    seq(|heard|, k requires 0 <= k < |heard| => log[heard[k]].m)
  }

  /** The places heard of go strictly forward, and hold messages. */
  predicate Forward(log: seq<Entry>, heard: seq<nat>) {
    && (forall p :: 0 <= p < |heard| ==> heard[p] < |log| && (log[heard[p]].Said? || log[heard[p]].Greet?))
    && (forall p, q :: 0 <= p < q < |heard| ==> heard[p] < heard[q])
  }

  lemma {:induction false} HeardForward(log: seq<Entry>, c: nat)
    ensures Forward(log, Heard(log, c))
  {
    if log != [] {
      HeardForward(Front(log), c);
    }
  }

  /** What is heard is exactly the broadcasts for others made while `c` had a slot, and its own welcome. */
  lemma {:induction false} HeardMembers(log: seq<Entry>, c: nat, k: nat)
    ensures k in Heard(log, c) <==> k < |log| && Hears(log[..k], log[k], c)
  {
    if log != [] {
      var front, n := Front(log), |log| - 1;
      HeardForward(front, c);
      HeardMembers(front, c, k);
      if k < n {
        assert log[..k] == front[..k] && log[k] == front[k];
      } else if k == n {
        assert log[..k] == front;
      }
    }
  }

  lemma {:induction false} ViewIsHeard(log: seq<Entry>, c: nat)
    ensures Forward(log, Heard(log, c))
    ensures View(log, c) == Texts(log, Heard(log, c))
  {
    HeardForward(log, c);
    if log != [] {
      var front := Front(log);
      ViewIsHeard(front, c);
      var before := Heard(front, c);
      assert Texts(log, before) == Texts(front, before);
    }
  }

  /**
   Ordered broadcast: over every run, what a connection has been sent is the log of the room, restricted to
   the broadcasts for others while it had a slot, and its own welcome, in the order of the log.
   */
  lemma OrderedBroadcast(rounds: seq<Round>, policy: Policy, c: nat)
    requires Allocates(policy)
    requires c < |After(rounds, policy).sent|
    ensures var r := After(rounds, policy);
            var heard := Heard(r.log, c);
            && Forward(r.log, heard)
            && (forall k: nat :: k in heard <==>
                  k < |r.log| && ((r.log[k].Said? && r.log[k].conn != c && Holds(r.log[..k], c))
                                  || (r.log[k].Greet? && r.log[k].conn == c)))
            && r.sent[c] == Texts(r.log, heard)
  {
    var r := After(rounds, policy);
    ViewIsHeard(r.log, c);
    forall k: nat ensures k in Heard(r.log, c) <==> k < |r.log| && Hears(r.log[..k], r.log[k], c) {
      HeardMembers(r.log, c, k);
    }
  }

  /** A third party's broadcast reaches both of two connections exactly when both have a slot, and each once. */
  lemma BothHear(log: seq<Entry>, a: nat, b: nat, k: nat)
    requires k < |log| && log[k].Said? && log[k].conn != a && log[k].conn != b
    ensures k in Heard(log, a) && k in Heard(log, b) <==> Holds(log[..k], a) && Holds(log[..k], b)
    ensures forall p, q :: 0 <= p < q < |Heard(log, a)| && Heard(log, a)[p] == k ==> Heard(log, a)[q] != k
  {
    HeardMembers(log, a, k);
    HeardMembers(log, b, k);
    HeardForward(log, a);
  }

  lemma HeardInOrder(log: seq<Entry>, a: nat, b: nat, p: nat, q: nat, p': nat, q': nat)
    requires p < |Heard(log, a)| && p' < |Heard(log, a)| && q < |Heard(log, b)| && q' < |Heard(log, b)|
    requires Heard(log, a)[p] == Heard(log, b)[q] && Heard(log, a)[p'] == Heard(log, b)[q']
    ensures p < p' <==> q < q'
  {
    HeardForward(log, a);
    HeardForward(log, b);
    var x, y := Heard(log, a), Heard(log, b);
    if p < p' {
      assert x[p] < x[p'];
    } else if p' < p {
      assert x[p'] < x[p];
    }
    if q < q' {
      assert y[q] < y[q'];
    } else if q' < q {
      assert y[q'] < y[q];
    }
  }

  /**
   Over every run, any two broadcasts that two connections have both been sent, they have been sent in the same
   order: the broadcasts are told apart by their places in the log, as texts may repeat.
   */
  lemma SameOrder(rounds: seq<Round>, policy: Policy, a: nat, b: nat, p: nat, q: nat, p': nat, q': nat)
    requires Allocates(policy)
    requires var r := After(rounds, policy);
             var x, y := Heard(r.log, a), Heard(r.log, b);
             && a < |r.sent| && b < |r.sent| && p < |x| && p' < |x| && q < |y| && q' < |y|
             && x[p] == y[q] && x[p'] == y[q']
    ensures var r := After(rounds, policy);
            && p < |r.sent[a]| && p' < |r.sent[a]| && q < |r.sent[b]| && q' < |r.sent[b]|
            && r.sent[a][p] == r.sent[b][q] && r.sent[a][p'] == r.sent[b][q']
            && (p < p' <==> q < q')
  {
    OrderedBroadcast(rounds, policy, a);
    OrderedBroadcast(rounds, policy, b);
    HeardInOrder(After(rounds, policy).log, a, b, p, q, p', q');
  }

  /** What a chunk adds to the log: a first line is announced and welcomed, a leave comes before the exit. */
  function News(c: nat, name: string, chunk: string): seq<Entry> {
    if chunk == "" then (if name == "" then [] else [Said(c, Leave(name))]) + [Exit(c)]
    else if name == "" then
      var first := NameIn(CStr(chunk)); [Said(c, Join(first)), Greet(c, Welcome(first))]
    else [Said(c, Line(name, CStr(chunk)))]
  }

  lemma HandleSays(r: Room, i: nat, chunk: string)
    requires Occupied(r, i)
    ensures Handle(r, i, chunk).log == r.log + News(ConnAt(r, i), r.slots[i].username, chunk)
  {
  }

  /** The name taken from a chunk ends before the first newline or terminator, and runs up to it. */
  lemma {:induction false} NameInMeaning(data: string)
    ensures var name := NameIn(data);
            && name <= data && '\n' !in name
            && (name == data || data[|name|] == '\n')
  {
    if data != "" && data[0] != '\n' {
      NameInMeaning(data[1..]);
    }
  }

  /** Each join is followed at once by the welcome of the same client under the same name, and only joins are. */
  predicate Welcomed(log: seq<Entry>) {
    && (forall k :: 0 <= k < |log| && log[k].Said? && log[k].m.Join? ==>
          k + 1 < |log| && log[k + 1] == Greet(log[k].conn, Welcome(log[k].m.name)))
    && (forall k :: 0 <= k < |log| && log[k].Greet? ==>
          k > 0 && log[k - 1].Said? && log[k - 1].m.Join? && log[k - 1].conn == log[k].conn)
  }

  lemma WelcomedTogether(log: seq<Entry>, more: seq<Entry>)
    requires Welcomed(log) && Welcomed(more)
    ensures Welcomed(log + more)
  {
    var all, n := log + more, |log|;
    forall k | 0 <= k < |all| && all[k].Said? && all[k].m.Join?
      ensures k + 1 < |all| && all[k + 1] == Greet(all[k].conn, Welcome(all[k].m.name))
    {
      assert all[k] == if k < n then log[k] else more[k - n];
    }
    forall k | 0 <= k < |all| && all[k].Greet?
      ensures k > 0 && all[k - 1].Said? && all[k - 1].m.Join? && all[k - 1].conn == all[k].conn
    {
      assert all[k] == if k < n then log[k] else more[k - n];
    }
  }

  lemma NewsWelcomed(c: nat, name: string, chunk: string)
    ensures Welcomed(News(c, name, chunk))
  {
  }

  lemma HandleWelcomes(r: Room, i: nat, chunk: string)
    requires Occupied(r, i) && Welcomed(r.log)
    ensures Welcomed(Handle(r, i, chunk).log)
  {
    var c, name := ConnAt(r, i), r.slots[i].username;
    HandleSays(r, i, chunk);
    NewsWelcomed(c, name, chunk);
    WelcomedTogether(r.log, News(c, name, chunk));
  }

  lemma {:induction false} SweepWelcomes(r: Room, i: nat, round: Round)
    requires Inv(r) && Welcomed(r.log)
    ensures Welcomed(SweepFrom(r, i, round).log)
    decreases MAX_CLIENTS - i
  {
    if i < MAX_CLIENTS {
      var r' := SweepSlot(r, i, round);
      if r' != r {
        HandleWelcomes(r, i, round.chunks(ConnAt(r, i)));
      }
      SweepWelcomes(r', i + 1, round);
    }
  }

  lemma {:induction false} ServeWelcomes(r: Room, rounds: seq<Round>, policy: Policy)
    requires Inv(r) && Welcomed(r.log)
    requires Allocates(policy)
    ensures Welcomed(Serve(r, rounds, policy).log)
    decreases |rounds|
  {
    if rounds != [] {
      var fd := policy(r.open, |r.sent|);
      AcceptKeeps(r, fd);
      var r1 := if rounds[0].arrival then Accept(r, fd) else r;
      WelcomedTogether(r.log, [Enter(|r.sent|)]);
      SweepWelcomes(r1, 0, rounds[0]);
      ServeWelcomes(DoRound(r, rounds[0], policy), rounds[1..], policy);
    }
  }

  /** Over every run, a client is welcomed right after each of its joins and at no other time. */
  lemma EveryJoinIsWelcomed(rounds: seq<Round>, policy: Policy)
    requires Allocates(policy)
    ensures Welcomed(After(rounds, policy).log)
  {
    OpenedInv();
    ServeWelcomes(Opened(), rounds, policy);
  }
}
