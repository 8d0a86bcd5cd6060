/** The poll server's program: its arrays changed in place, proved against the functions of `PollTable`. */
module PollServer {
  import opened PollTable

  class Server {
    const fds: array<PollFd>
    const addrs: array<Address>
    var nfds: nat
    /** The kernel's side: descriptors open and connections closed. */
    var k: Kernel

    ghost predicate Valid()
      reads this
    {
      fds.Length == MAX_FDS && addrs.Length == MAX_FDS
    }

    ghost function Now(): World
      reads this, fds, addrs
    {
      World(fds[..], addrs[..], nfds, k)
    }

    /** The server with its listener open: both arrays cleared, the listener in place 0. */
    constructor (listener: nat)
      ensures Valid() && fresh(fds) && fresh(addrs)
      ensures Started(Now()) && fds[0].fd == listener
    {
      fds := new PollFd[MAX_FDS](i => PollFd(if i == 0 then listener else 0, NO_EVENTS));
      addrs := new Address[MAX_FDS](_ => 0);
      nfds := 1;
      k := Kernel(map[listener := 0], [0], []);
    }

    /** remove_fd: close, then let the last place take this one over. */
    method RemoveFd(i: nat)
      requires Valid() && Sized(Now()) && i < nfds && fds[i].fd in k.open
      modifies this, fds, addrs
      ensures Valid() && Now() == PollTable.RemoveFd(old(Now()), i)
    {
      k := CloseFd(k, fds[i].fd);
      var last := nfds - 1;
      if i != last {
        fds[i] := fds[last];
        addrs[i] := addrs[last];
      }
      nfds := nfds - 1;
    }

    /** poll writes the events of the first `nfds` places. */
    method CallPoll(report: nat -> Events)
      requires Valid() && Inv(Now())
      modifies fds
      ensures Valid() && Now() == Poll(old(Now()), report)
    {
      ghost var w := Now();
      for i := 0 to nfds
        invariant forall j :: 0 <= j < MAX_FDS ==>
                    fds[j] == if j < i then w.fds[j].(revents := report(Conn(w, j))) else w.fds[j]
      {
        fds[i] := fds[i].(revents := report(k.open[fds[i].fd]));
      }
      assert fds[..] == Poll(w, report).fds;
    }

    /** A new client is stored in the next place; what poll once reported there is left as it is. */
    method Store(fd: nat, peer: Address)
      requires Valid() && Sized(Now()) && nfds < MAX_FDS && fd !in k.open
      modifies this, fds, addrs
      ensures Valid() && Now() == AcceptOne(old(Now()), fd, peer, true)
    {
      k := OpenFd(k, fd, peer);
      fds[nfds] := fds[nfds].(fd := fd);
      addrs[nfds] := peer;
      nfds := nfds + 1;
    }

    /** A connection is there: it is stored, or closed at once when the table is full or it cannot be set up. */
    method TakeConnection(fd: nat, peer: Address, ready: bool)
      requires Valid() && Sized(Now()) && fd !in k.open
      modifies this, fds, addrs
      ensures Valid() && Now() == AcceptOne(old(Now()), fd, peer, ready)
    {
      if nfds >= MAX_FDS || !ready {
        k := CloseFd(OpenFd(k, fd, peer), fd);
      } else {
        Store(fd, peer);
      }
    }

    method AcceptLoop(arrivals: seq<Arrival>, policy: Policy)
      requires Valid() && Inv(Now())
      requires Allocates(policy)
      modifies this, fds, addrs
      ensures Valid() && Now() == AcceptAll(old(Now()), arrivals, policy)
      decreases |arrivals|
    {
      ghost var goal := AcceptAll(Now(), arrivals, policy);
      var i := 0;
      assert arrivals[0..] == arrivals;
      while i < |arrivals|
        invariant Valid() && 0 <= i <= |arrivals| && Inv(Now())
        invariant AcceptAll(Now(), arrivals[i..], policy) == goal
      {
        var a := arrivals[i];
        AcceptFirst(Now(), arrivals[i..], policy);
        assert arrivals[i..][1..] == arrivals[i + 1..];
        if a.AcceptFailed? { return; }
        i := i + 1;
        if a.AcceptInterrupted? { continue; }
        var fd := policy(k);
        ghost var w1 := AcceptOne(Now(), fd, a.peer, a.ready);
        assert Inv(w1) && AcceptAll(w1, arrivals[i..], policy) == goal;
        TakeConnection(fd, a.peer, a.ready);
        assert Now() == w1;
      }
    }

    /** The sweep: place i is examined again whenever a client has been moved into it. */
    method SweepClients(net: Network)
      requires Valid() && Inv(Now())
      modifies this, fds, addrs
      ensures Valid() && Now() == Sweep(old(Now()), 1, net).0
    {
      ghost var goal := Sweep(Now(), 1, net).0;
      var i := 1;
      while i < nfds
        invariant Valid() && Inv(Now()) && 1 <= i
        invariant Sweep(Now(), i, net).0 == goal
        decreases nfds - i
      {
        ghost var examined := Examine(Now(), i, net);
        var keep := ExamineClient(i, net);
        assert Now() == examined.0;
        if keep {
          i := i + 1;
        }
      }
    }

    /** One client is examined: it is removed on an error event, or when its drained socket calls for it. */
    method ExamineClient(i: nat, net: Network) returns (keep: bool)
      requires Valid() && Inv(Now()) && 1 <= i < nfds
      modifies this, fds, addrs
      ensures Valid()
      ensures (Now(), if keep then i + 1 else i) == Examine(old(Now()), i, net)
    {
      var ev := fds[i].revents;
      if ev.error {
        RemoveFd(i);
        return false;
      }
      if ev.input {
        var closes := Drain(net(k.open[fds[i].fd]));
        if closes {
          RemoveFd(i);
          return false;
        }
      }
      return true;
    }

    method MainLoop(passes: seq<Pass>, policy: Policy)
      requires Valid() && Inv(Now())
      requires Allocates(policy)
      modifies this, fds, addrs
      ensures Valid() && Now() == Serve(old(Now()), passes, policy)
    {
      ghost var goal := Serve(Now(), passes, policy);
      var n := 0;
      assert passes[0..] == passes;
      while n < |passes|
        invariant Valid() && 0 <= n <= |passes| && Inv(Now())
        invariant Serve(Now(), passes[n..], policy) == goal
      {
        ServeFrom(Now(), passes, n, policy);
        if passes[n].PollFailed? { return; }
        OnePass(passes[n], policy);
        n := n + 1;
      }
    }

    method OnePass(p: Pass, policy: Policy)
      requires Valid() && Inv(Now()) && !p.PollFailed?
      requires Allocates(policy)
      modifies this, fds, addrs
      ensures Valid() && Now() == DoPass(old(Now()), p, policy)
    {
      if p.Ready? {
        AcceptPart(p.report, p.arrivals, policy);
        SweepClients(p.net);
      }
    }

    method AcceptPart(report: nat -> Events, arrivals: seq<Arrival>, policy: Policy)
      requires Valid() && Inv(Now())
      requires Allocates(policy)
      modifies this, fds, addrs
      ensures Valid() && Now() == AcceptPhase(old(Now()), report, arrivals, policy)
    {
      CallPoll(report);
      if fds[0].revents.input {
        AcceptLoop(arrivals, policy);
      }
    }

    method CloseOne(ghost used: seq<PollFd>, i: nat)
      requires Valid() && nfds <= MAX_FDS && used == fds[..nfds] && i < nfds && Covers(used, i, k.open)
      modifies `k
      ensures Covers(used, i + 1, k.open) && CloseRest(used, i + 1, k) == old(CloseRest(used, i, k))
    {
      CoversNext(used, i, k.open);
      k := CloseFd(k, fds[i].fd);
    }

    /** Every place in use is closed, one after the other. */
    method CloseAll(ghost used: seq<PollFd>)
      requires Valid() && nfds <= MAX_FDS && used == fds[..nfds] && Covers(used, 0, k.open)
      modifies `k
      ensures k == CloseRest(used, 0, old(k))
    {
      ghost var goal := CloseRest(used, 0, k);
      var i := 0;
      while i < nfds
        invariant i <= nfds && Covers(used, i, k.open) && CloseRest(used, i, k) == goal
      {
        CloseOne(used, i);
        i := i + 1;
      }
    }

    method CleanUp()
      requires Valid() && Inv(Now())
      modifies `k
      ensures Valid() && k == Cleanup(old(Now()))
    {
      InvCovers(Now());
      assert Now().fds[..nfds] == fds[..nfds];
      CloseAll(fds[..nfds]);
    }

    /** The whole program: whatever the kernel does, every connection and the listener end up closed, once each. */
    method Run(passes: seq<Pass>, policy: Policy)
      requires Valid() && Started(Now())
      requires Allocates(policy)
      modifies this, fds, addrs
      ensures old(Inv(Now())) && k == Cleanup(Serve(old(Now()), passes, policy))
      ensures k.open == map[] && EachOnce(k.closed, |k.peers|)
    {
      DescriptorConservation(Now(), passes, policy);
      MainLoop(passes, policy);
      CleanUp();
    }
  }

  method Drain(results: seq<Recv>) returns (closes: bool)
    ensures closes == DrainCloses(results)
  {
    var n := 0;
    assert results[0..] == results;
    while n < |results|
      invariant 0 <= n <= |results| && DrainCloses(results[n..]) == DrainCloses(results)
      decreases |results| - n
    {
      assert results[n..][1..] == results[n + 1..];
      match results[n] {
        case Data =>
        case Interrupted =>
        case WouldBlock => return false;
        case PeerClosed => return true;
        case Failed => return true;
      }
      n := n + 1;
    }
    closes := false;
  }
}
