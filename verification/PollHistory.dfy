/**
 The history of the poll server's array: who last stood at each place, and with which events. It is kept from the
 connections alone, without a look at the events in the array, and explains every one of those.
 */
module PollHistory {
  import opened PollTable

  /** What a place has seen last: a client, and the events that it carried while it stood there. */
  datatype Trace = Nobody | Stood(conn: nat, events: Events)

  function Left(t: Trace): Events {
    if t.Nobody? then NO_EVENTS else t.events
  }

  /** `carried(c)`: what poll last reported for connection `c`, or what it came into when poll never did. */
  datatype History = History(w: World, carried: nat -> Events, places: seq<Trace>)

  /** The server with its listener, of which poll has reported nothing yet. */
  function Beginning(w: World): History {
    History(w, _ => NO_EVENTS, seq(MAX_FDS, p => if p == 0 then Stood(0, NO_EVENTS) else Nobody))
  }

  /** Each place in use now has its client standing there; the others have last seen whom they had. */
  function Noted(h: History, w: World): (h': History)
    requires TableInv(w) && |h.places| == MAX_FDS
    ensures |h'.places| == MAX_FDS
  {
    h.(w := w, places := seq(MAX_FDS, p requires 0 <= p < MAX_FDS =>
                               if p < w.nfds then Stood(Conn(w, p), h.carried(Conn(w, p))) else h.places[p]))
  }

  /** The events at every place are those that its last client carried there. */
  predicate Explained(h: History) {
    && Inv(h.w) && |h.places| == MAX_FDS
    && (forall p :: 0 <= p < MAX_FDS ==> h.w.fds[p].revents == Left(h.places[p]))
    && (forall p :: 0 <= p < h.w.nfds ==> h.places[p] == Stood(Conn(h.w, p), h.carried(Conn(h.w, p))))
  }

  lemma BeginningExplained(w: World)
    requires Started(w)
    ensures Explained(Beginning(w))
  {
    StartedInv(w);
    assert PlaceOk(w, 0);
  }

  // ---------------------------------------------------------------------------------------------
  // The steps of a pass
  // ---------------------------------------------------------------------------------------------

  /** poll gives everyone in the table something new to carry. */
  function Polled(h: History, report: nat -> Events): History
    requires Explained(h)
  {
    Noted(h.(carried := (c: nat) => if From(h.w, 0, c) then report(c) else h.carried(c)), Poll(h.w, report))
  }

  lemma PolledExplained(h: History, report: nat -> Events)
    requires Explained(h)
    ensures Explained(Polled(h, report))
  {
    var h' := Polled(h, report);
    forall p | 0 <= p < h.w.nfds ensures h'.w.fds[p].revents == Left(h'.places[p]) {
      PollReports(h.w, report, p);
      assert From(h.w, 0, Conn(h.w, p));
    }
  }

  /** A newcomer comes into the events of the client that last stood at its place. */
  function Accepted(h: History, fd: nat, peer: Address, ready: bool): History
    requires Explained(h) && fd !in h.w.k.open
  {
    AcceptKeeps(h.w, fd, peer, ready);
    var c, n := |h.w.k.peers|, h.w.nfds;
    var heir := if n == MAX_FDS then h
                else h.(carried := (d: nat) => if d == c then Left(h.places[n]) else h.carried(d));
    Noted(heir, AcceptOne(h.w, fd, peer, ready))
  }

  lemma AcceptedExplained(h: History, fd: nat, peer: Address, ready: bool)
    requires Explained(h) && fd !in h.w.k.open
    ensures Explained(Accepted(h, fd, peer, ready))
  {
    var h' := Accepted(h, fd, peer, ready);
    AcceptKeeps(h.w, fd, peer, ready);
    forall p | 0 <= p < MAX_FDS ensures h'.w.fds[p].revents == Left(h'.places[p]) {
      AcceptOneKeepsPlace(h.w, fd, peer, ready, p);
      if p < h.w.nfds {
        assert PlaceOk(h.w, p);
      } else if p < h'.w.nfds {
        assert h'.w.fds[p].fd == fd;
      }
    }
  }

  /** A client is removed: the last one stands at its place, and the last place keeps what it had. */
  function Removed(h: History, i: nat): History
    requires Explained(h) && 1 <= i < h.w.nfds
  {
    RemoveKeeps(h.w, i);
    Noted(h, RemoveFd(h.w, i))
  }

  lemma RemovedExplained(h: History, i: nat)
    requires Explained(h) && 1 <= i < h.w.nfds
    ensures Explained(Removed(h, i))
  {
    var h' := Removed(h, i);
    RemoveKeeps(h.w, i);
    forall p | 0 <= p < h'.w.nfds ensures h'.w.fds[p].revents == Left(h'.places[p]) {
      RemoveMoves(h.w, i, if p == i then h.w.nfds - 1 else p);
    }
  }

  // ---------------------------------------------------------------------------------------------
  // Passes and whole runs
  // ---------------------------------------------------------------------------------------------

  function AcceptedAll(h: History, arrivals: seq<Arrival>, policy: Policy): (h': History)
    requires Explained(h)
    requires Allocates(policy)
    ensures Explained(h') && h'.w == AcceptAll(h.w, arrivals, policy)
    ensures forall c :: 0 <= c < |h.w.k.peers| ==> h'.carried(c) == h.carried(c)
    decreases |arrivals|
  {
    if arrivals == [] || arrivals[0].AcceptFailed? then h
    else if arrivals[0].AcceptInterrupted? then AcceptedAll(h, arrivals[1..], policy)
    else
      var a, fd := arrivals[0], policy(h.w.k);
      AcceptedExplained(h, fd, a.peer, a.ready);
      AcceptedAll(Accepted(h, fd, a.peer, a.ready), arrivals[1..], policy)
  }

  function Swept(h: History, i: nat, net: Network): (h': History)
    requires Explained(h) && 1 <= i
    ensures Explained(h') && h'.w == Sweep(h.w, i, net).0 && h'.carried == h.carried
    decreases h.w.nfds - i
  {
    if i >= h.w.nfds then h
    else if Drops(h.w.fds[i].revents, net(Conn(h.w, i))) then
      RemovedExplained(h, i);
      Swept(Removed(h, i), i, net)
    else Swept(h, i + 1, net)
  }

  function Passed(h: History, p: Pass, policy: Policy): (h': History)
    requires Explained(h)
    requires Allocates(policy)
    ensures Explained(h') && h'.w == DoPass(h.w, p, policy)
  {
    match p
    case Ready(report, arrivals, net) =>
      PolledExplained(h, report);
      var polled := Polled(h, report);
      Swept(if polled.w.fds[0].revents.input then AcceptedAll(polled, arrivals, policy) else polled, 1, net)
    case _ => h
  }

  function Served(h: History, passes: seq<Pass>, policy: Policy): (h': History)
    requires Explained(h)
    requires Allocates(policy)
    ensures Explained(h') && h'.w == Serve(h.w, passes, policy)
    decreases |passes|
  {
    if passes == [] || passes[0].PollFailed? then h else Served(Passed(h, passes[0], policy), passes[1..], policy)
  }

  /** The history of a run. */
  function Run(w: World, passes: seq<Pass>, policy: Policy): History
    requires Started(w)
    requires Allocates(policy)
  {
    BeginningExplained(w);
    Served(Beginning(w), passes, policy)
  }

  // ---------------------------------------------------------------------------------------------
  // Main results
  // ---------------------------------------------------------------------------------------------

  /**
   Over every run: the events at a place in use are those its client carries, and the events at a place beyond the
   table are those that the client which last stood there carried there, or none when nobody ever did.
   */
  lemma EventsExplained(w: World, passes: seq<Pass>, policy: Policy, p: nat)
    requires Started(w) && p < MAX_FDS
    requires Allocates(policy)
    ensures var h := Run(w, passes, policy);
            && Inv(w) && h.w == Serve(w, passes, policy)
            && h.w.fds[p].revents == Left(h.places[p])
            && (p < h.w.nfds ==> h.places[p] == Stood(Conn(h.w, p), h.carried(Conn(h.w, p))))
  {
    StartedInv(w);
    BeginningExplained(w);
  }

  /** What a client carries once poll has seen it is what poll reported for it last. */
  lemma CarriedIsReported(h: History, p: Pass, policy: Policy, c: nat)
    requires Explained(h) && p.Ready? && c < |h.w.k.peers|
    requires Allocates(policy)
    ensures Passed(h, p, policy).carried(c) == if From(h.w, 0, c) then p.report(c) else h.carried(c)
  {
    PolledExplained(h, p.report);
  }

  /**
   Over every run, a client accepted in its next pass stays in it exactly when the events that the client which last
   stood at its place carried there are no error, and when they are not for reading or its recv calls see neither a
   close nor a failure; at a place that nobody has had yet, it stays.
   */
  lemma NewcomerJudged(w: World, passes: seq<Pass>, p: Pass, policy: Policy, i: nat)
    requires Started(w) && p.Ready?
    requires Allocates(policy)
    requires var h := Run(w, passes, policy);
             Inv(h.w) && h.w.nfds <= i < AcceptPhase(h.w, p.report, p.arrivals, policy).nfds
    ensures var h := Run(w, passes, policy);
            var c := Conn(AcceptPhase(h.w, p.report, p.arrivals, policy), i);
            && c >= |h.w.k.peers|
            && (From(DoPass(h.w, p, policy), 0, c) <==>
                  !Left(h.places[i]).error
                  && (Left(h.places[i]).input ==>
                        !exists n :: 0 <= n < |p.net(c)| && p.net(c)[n] in {PeerClosed, Failed}
                          && forall m :: 0 <= m < n ==> p.net(c)[m] in {Data, Interrupted}))
            && (h.places[i] == Nobody ==> From(DoPass(h.w, p, policy), 0, c))
  {
    EventsExplained(w, passes, policy, i);
    NewcomerFate(Run(w, passes, policy).w, p, policy, i);
  }
}
