/** The chat server's program: its slot table changed in place, proved against the functions of `ChatRoom`. */
module ChatServer {
  import opened LineProtocol
  import opened ChatRoom

  class Server {
    const clients: array<Slot>
    /** Open descriptors with their connections, and what has been sent to each connection. */
    var open: map<nat, nat>
    var sent: seq<seq<Message>>
    ghost var log: seq<Entry>

    ghost function Now(): Room
      reads this, clients
    {
      Room(clients[..], open, sent, log)
    }

    constructor ()
      ensures fresh(clients) && Now() == Opened()
    {
      clients := new Slot[MAX_CLIENTS](_ => FREE);
      open, sent, log := map[], [], [];
    }

    /** broadcast_message: one send to every client but the sender. */
    method BroadcastMessage(senderFd: nat, m: Message)
      requires forall i :: 0 <= i < clients.Length && clients[i].fd > 0 ==> Occupied(Now(), i)
      modifies `sent
      ensures sent == BroadcastFrom(clients[..], open, old(sent), senderFd, m, 0)
    {
      ghost var slots := clients[..];
      ghost var goal := BroadcastFrom(slots, open, sent, senderFd, m, 0);
      ghost var conns := |sent|;
      var i := 0;
      while i < clients.Length
        invariant 0 <= i <= clients.Length && |sent| == conns
        invariant BroadcastFrom(slots, open, sent, senderFd, m, i) == goal
      {
        var fd := clients[i].fd;
        assert fd == slots[i].fd;
        if fd > 0 && fd != senderFd {
          assert Occupied(old(Now()), i);
          sent := sent[open[fd] := sent[open[fd]] + [m]];
        }
        i := i + 1;
      }
    }

    /** A connection is accepted into the first free slot; when there is none it is left open and unknown. */
    method AcceptClient(fd: nat)
      requires clients.Length == MAX_CLIENTS
      modifies this, clients
      ensures Now() == Accept(old(Now()), fd)
    {
      ghost var slots := clients[..];
      var c := |sent|;
      open := open[fd := c];
      sent := sent + [[]];
      var i := 0;
      while i < clients.Length && clients[i].fd != 0
        invariant 0 <= i <= clients.Length && clients[..] == slots
        invariant FreeSlot(slots, 0) == FreeSlot(slots, i)
      {
        i := i + 1;
      }
      if i < clients.Length {
        clients[i] := Slot(fd, "");
        log := log + [Enter(c)];
      }
    }

    method ClientLeaves(i: nat)
      requires TableInv(Now()) && Occupied(Now(), i)
      modifies this, clients
      ensures Now() == HangUp(old(Now()), i)
    {
      var fd, name := clients[i].fd, clients[i].username;
      var c := open[fd];
      if |name| > 0 {
        BroadcastMessage(fd, Leave(name));
        log := log + [Said(c, Leave(name))];
      }
      open := open - {fd};
      clients[i] := FREE;
      log := log + [Exit(c)];
    }

    method ClientNamed(i: nat, name: string)
      requires TableInv(Now()) && Occupied(Now(), i)
      modifies this, clients
      ensures Now() == TakeName(old(Now()), i, name)
    {
      var fd := clients[i].fd;
      var c := open[fd];
      clients[i] := clients[i].(username := name);
      assert forall j :: 0 <= j < clients.Length && clients[j].fd > 0 ==> Occupied(old(Now()), j);
      BroadcastMessage(fd, Join(name));
      sent := sent[c := sent[c] + [Welcome(name)]];
      log := log + [Said(c, Join(name))] + [Greet(c, Welcome(name))];
    }

    /** What the sweep does with a client whose descriptor is ready. */
    method ReadClient(i: nat, chunk: string)
      requires TableInv(Now()) && Occupied(Now(), i)
      modifies this, clients
      ensures Now() == Handle(old(Now()), i, chunk)
    {
      if |chunk| == 0 {
        ClientLeaves(i);
      } else if |clients[i].username| == 0 {
        ClientNamed(i, NameIn(CStr(chunk)));
      } else {
        var m := Line(clients[i].username, CStr(chunk));
        BroadcastMessage(clients[i].fd, m);
        log := log + [Said(open[clients[i].fd], m)];
      }
    }

    /** The slot is read from when it holds a client whose descriptor is ready. */
    method SweepOne(i: nat, round: Round)
      requires Inv(Now()) && i < MAX_CLIENTS
      modifies this, clients
      ensures Inv(Now()) && SweepFrom(Now(), i + 1, round) == SweepFrom(old(Now()), i, round)
    {
      ghost var next := SweepSlot(Now(), i, round);
      var fd := clients[i].fd;
      if fd > 0 && round.ready(fd) {
        ReadClient(i, round.chunks(open[fd]));
      }
      assert Now() == next;
    }

    method Sweep(round: Round)
      requires Inv(Now())
      modifies this, clients
      ensures Now() == SweepFrom(old(Now()), 0, round)
    {
      ghost var goal := SweepFrom(Now(), 0, round);
      var i := 0;
      while i < MAX_CLIENTS
        invariant 0 <= i <= MAX_CLIENTS && Inv(Now())
        invariant SweepFrom(Now(), i, round) == goal
      {
        SweepOne(i, round);
        i := i + 1;
      }
    }

    method MainLoop(rounds: seq<Round>, policy: Policy)
      requires Now() == Opened()
      requires Allocates(policy)
      modifies this, clients
      ensures Now() == After(rounds, policy)
    {
      OpenedInv();
      ghost var goal := Serve(Now(), rounds, policy);
      var n := 0;
      assert rounds[0..] == rounds;
      while n < |rounds|
        invariant 0 <= n <= |rounds| && Inv(Now())
        invariant Serve(Now(), rounds[n..], policy) == goal
      {
        assert rounds[n..][1..] == rounds[n + 1..];
        OneRound(rounds[n], policy);
        n := n + 1;
      }
    }

    method OneRound(round: Round, policy: Policy)
      requires Inv(Now())
      requires Allocates(policy)
      modifies this, clients
      ensures Now() == DoRound(old(Now()), round, policy)
    {
      if round.arrival {
        var fd := policy(open, |sent|);
        AcceptKeeps(Now(), fd);
        AcceptClient(fd);
      }
      Sweep(round);
    }
  }
}
