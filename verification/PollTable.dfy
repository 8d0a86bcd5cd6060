/**
 The poll server on values: its two parallel arrays, the kernel's descriptors, and one pass of its loop.
 Connections are numbered in the order in which they come to be, the listener being number 0, since the
 kernel reuses descriptor numbers. The arrays are whole: places past `nfds` keep what was last in them.
 */
module PollTable {
  const MAX_FDS: nat := 1024

  /** What poll reports for a descriptor: POLLIN, and any of POLLERR, POLLHUP and POLLNVAL. */
  datatype Events = Events(input: bool, error: bool)

  const NO_EVENTS := Events(false, false)

  datatype PollFd = PollFd(fd: nat, revents: Events)

  type Address = int

  /** Open descriptors with their connections, the peer of each connection, and the connections closed so far. */
  datatype Kernel = Kernel(open: map<nat, nat>, peers: seq<Address>, closed: seq<nat>)

  datatype World = World(fds: seq<PollFd>, addrs: seq<Address>, nfds: nat, k: Kernel)

  function CloseFd(k: Kernel, fd: nat): Kernel
    requires fd in k.open
  {
    k.(open := k.open - {fd}, closed := k.closed + [k.open[fd]])
  }

  function OpenFd(k: Kernel, fd: nat, peer: Address): Kernel {
    k.(open := k.open[fd := |k.peers|], peers := k.peers + [peer])
  }

  // ---------------------------------------------------------------------------------------------
  // The invariants
  // ---------------------------------------------------------------------------------------------

  /** Each connection there has been is either open, under one descriptor, or has been closed once. */
  predicate KernelInv(k: Kernel) {
    && (forall f :: f in k.open ==> k.open[f] < |k.peers| && k.open[f] !in k.closed)
    && (forall f, g :: f in k.open && g in k.open && f != g ==> k.open[f] != k.open[g])
    && (forall i :: 0 <= i < |k.closed| ==> k.closed[i] < |k.peers|)
    && (forall i, j :: 0 <= i < j < |k.closed| ==> k.closed[i] != k.closed[j])
    && (forall c :: 0 <= c < |k.peers| ==> c in k.closed || c in k.open.Values)
  }

  predicate Sized(w: World) {
    |w.fds| == MAX_FDS && |w.addrs| == MAX_FDS && 1 <= w.nfds <= MAX_FDS
  }

  /** What stands at place `i` belongs together: an open descriptor and, but for the listener, its peer's address. */
  predicate PlaceOk(w: World, i: nat)
    requires Sized(w) && i < w.nfds
  {
    var fd := w.fds[i].fd;
    && fd in w.k.open
    && if i == 0 then w.k.open[fd] == 0 else w.k.open[fd] < |w.k.peers| && w.addrs[i] == w.k.peers[w.k.open[fd]]
  }

  predicate HasPlace(w: World, f: nat)
    requires Sized(w)
  {
    exists i :: 0 <= i < w.nfds && w.fds[i].fd == f
  }

  /** The table holds every open descriptor once, the listener first, each beside the address of its peer. */
  predicate TableInv(w: World) {
    && Sized(w)
    && (forall i {:trigger w.fds[i]} :: 0 <= i < w.nfds ==> PlaceOk(w, i))
    && (forall i, j :: 0 <= i < j < w.nfds ==> w.fds[i].fd != w.fds[j].fd)
    && (forall f :: f in w.k.open ==> HasPlace(w, f))
  }

  predicate Inv(w: World) {
    KernelInv(w.k) && TableInv(w)
  }

  /** The connection at place `i` of the table. */
  function Conn(w: World, i: nat): nat
    requires TableInv(w) && i < w.nfds
  {
    assert PlaceOk(w, i);
    w.k.open[w.fds[i].fd]
  }

  lemma ConnDistinct(w: World, i: nat, j: nat)
    requires Inv(w) && i < w.nfds && j < w.nfds
    ensures Conn(w, i) == Conn(w, j) ==> i == j
  {
    if i < j {
      assert w.fds[i].fd != w.fds[j].fd;
    } else if j < i {
      assert w.fds[j].fd != w.fds[i].fd;
    }
  }

  // ---------------------------------------------------------------------------------------------
  // remove_fd
  // ---------------------------------------------------------------------------------------------

  function RemoveFd(w: World, i: nat): World
    requires Sized(w) && i < w.nfds && w.fds[i].fd in w.k.open
  {
    var last := w.nfds - 1;
    World(if i != last then w.fds[i := w.fds[last]] else w.fds,
          if i != last then w.addrs[i := w.addrs[last]] else w.addrs,
          last,
          CloseFd(w.k, w.fds[i].fd))
  }

  lemma CloseKeeps(k: Kernel, fd: nat)
    requires KernelInv(k) && fd in k.open
    ensures KernelInv(CloseFd(k, fd))
  {
    var k' := CloseFd(k, fd);
    forall c | 0 <= c < |k'.peers| ensures c in k'.closed || c in k'.open.Values {
      if c !in k.closed && c != k.open[fd] {
        var f :| f in k.open && k.open[f] == c;
        assert f in k'.open && k'.open[f] == c;
      } else if c == k.open[fd] {
        assert k'.closed[|k.closed|] == c;
      }
    }
    forall f | f in k'.open ensures k'.open[f] !in k'.closed {
      assert k.open[f] != k.open[fd];
    }
  }

  lemma RemoveCoversOpen(w: World, i: nat, f: nat)
    requires Inv(w) && 1 <= i < w.nfds && f in RemoveFd(w, i).k.open
    ensures HasPlace(RemoveFd(w, i), f)
  {
    var w', last := RemoveFd(w, i), w.nfds - 1;
    assert HasPlace(w, f);
    var j :| 0 <= j < w.nfds && w.fds[j].fd == f;
    assert j != i;
    assert w'.fds[if j == last then i else j].fd == f;
  }

  lemma RemoveKeepsPlace(w: World, i: nat, j: nat)
    requires Inv(w) && 1 <= i < w.nfds && j < w.nfds - 1
    ensures PlaceOk(RemoveFd(w, i), j)
  {
    var w', from := RemoveFd(w, i), if j == i then w.nfds - 1 else j;
    assert PlaceOk(w, from) && w.fds[from].fd != w.fds[i].fd;
    assert w'.fds[j] == w.fds[from] && w'.addrs[j] == w.addrs[from];
  }

  lemma RemoveKeepsTable(w: World, i: nat)
    requires Inv(w) && 1 <= i < w.nfds
    ensures TableInv(RemoveFd(w, i))
  {
    var w' := RemoveFd(w, i);
    forall j | 0 <= j < w'.nfds ensures PlaceOk(w', j) {
      RemoveKeepsPlace(w, i, j);
    }
    forall f | f in w'.k.open ensures HasPlace(w', f) {
      RemoveCoversOpen(w, i, f);
    }
  }

  lemma RemoveKeeps(w: World, i: nat)
    requires Inv(w) && 1 <= i < w.nfds
    ensures Inv(RemoveFd(w, i))
  {
    CloseKeeps(w.k, w.fds[i].fd);
    RemoveKeepsTable(w, i);
  }

  /** Where the client that was at place `j` stands after the removal of place `i`. */
  function MovedTo(w: World, i: nat, j: nat): nat {
    if j + 1 == w.nfds then i else j
  }

  /** The rest of the table survives a removal: connection, address and reported events go together. */
  lemma RemoveMoves(w: World, i: nat, j: nat)
    requires Inv(w) && 1 <= i < w.nfds && j < w.nfds && i != j
    ensures var w', m := RemoveFd(w, i), MovedTo(w, i, j);
            && TableInv(w') && m < w'.nfds && Conn(w', m) == Conn(w, j)
            && w'.fds[m] == w.fds[j] && w'.addrs[m] == w.addrs[j]
  {
    RemoveKeeps(w, i);
  }

  // ---------------------------------------------------------------------------------------------
  // The sweep over the clients
  // ---------------------------------------------------------------------------------------------

  /** One result of recv in the drain loop. */
  datatype Recv = Data | PeerClosed | WouldBlock | Interrupted | Failed

  /** The drain loop: whether it ends with the removal of the client. The end of `results` stands for EAGAIN. */
  function DrainCloses(results: seq<Recv>): bool {
    if results == [] then false
    else match results[0]
      case Data => DrainCloses(results[1..])
      case Interrupted => DrainCloses(results[1..])
      case WouldBlock => false
      case PeerClosed => true
      case Failed => true
  }

  /** The drain loop removes a client exactly when a close or a failure comes before the socket runs dry. */
  lemma {:induction false} DrainMeaning(results: seq<Recv>)
    ensures DrainCloses(results) <==>
            exists n :: 0 <= n < |results| && results[n] in {PeerClosed, Failed}
              && forall m :: 0 <= m < n ==> results[m] in {Data, Interrupted}
  {
    if results != [] && results[0] in {Data, Interrupted} {
      DrainMeaning(results[1..]);
      if DrainCloses(results) {
        var n :| 0 <= n < |results[1..]| && results[1..][n] in {PeerClosed, Failed}
                 && forall m :: 0 <= m < n ==> results[1..][m] in {Data, Interrupted};
        assert results[n + 1] in {PeerClosed, Failed};
        assert forall m :: 0 < m < n + 1 ==> results[m] == results[1..][m - 1];
      }
      if n :| 0 <= n < |results| && results[n] in {PeerClosed, Failed}
                     && forall m :: 0 <= m < n ==> results[m] in {Data, Interrupted} {
        assert results[1..][n - 1] in {PeerClosed, Failed};
        assert forall m :: 0 <= m < n - 1 ==> results[1..][m] == results[m + 1];
      }
    }
  }

  predicate Drops(ev: Events, results: seq<Recv>) {
    ev.error || (ev.input && DrainCloses(results))
  }

  lemma DropsMeaning(ev: Events, results: seq<Recv>)
    ensures Drops(ev, results) <==>
            ev.error || (ev.input && exists n :: 0 <= n < |results| && results[n] in {PeerClosed, Failed}
                                       && forall m :: 0 <= m < n ==> results[m] in {Data, Interrupted})
  {
    DrainMeaning(results);
  }

  /** What the recv calls on each connection give during a sweep. */
  type Network = nat -> seq<Recv>

  /** The world after the client at place `i` has been examined, and the place to examine next. */
  function Examine(w: World, i: nat, net: Network): (r: (World, nat))
    requires Inv(w) && 1 <= i < w.nfds
    ensures Inv(r.0) && 1 <= r.1 && r.0.nfds - r.1 == w.nfds - i - 1
  {
    RemoveKeeps(w, i);
    if Drops(w.fds[i].revents, net(Conn(w, i))) then (RemoveFd(w, i), i) else (w, i + 1)
  }

  /** The sweep from place `i` on, with the connections examined, in order. */
  function Sweep(w: World, i: nat, net: Network): (r: (World, seq<nat>))
    requires Inv(w) && 1 <= i
    ensures Inv(r.0) && r.0.k.peers == w.k.peers
    decreases w.nfds - i
  {
    if i >= w.nfds then (w, [])
    else
      var (w1, next) := Examine(w, i, net);
      var (w', rest) := Sweep(w1, next, net);
      (w', [Conn(w, i)] + rest)
  }

  /** Connection `c` is in the table, with these events reported for it. */
  predicate Listed(w: World, c: nat, ev: Events)
    requires TableInv(w)
  {
    exists j :: 0 <= j < w.nfds && Conn(w, j) == c && w.fds[j].revents == ev
  }

  /** Connection `c` is at place `i` or after it. */
  predicate From(w: World, i: nat, c: nat)
    requires TableInv(w)
  {
    exists j :: i <= j < w.nfds && Conn(w, j) == c
  }

  predicate NoRepeats(s: seq<nat>) {
    forall i, j :: 0 <= i < j < |s| ==> s[i] != s[j]
  }

  lemma RemoveFrom(w: World, i: nat, c: nat)
    requires Inv(w) && 1 <= i < w.nfds
    ensures Inv(RemoveFd(w, i))
    ensures From(RemoveFd(w, i), i, c) <==> From(w, i, c) && c != Conn(w, i)
  {
    RemoveKeeps(w, i);
    var w' := RemoveFd(w, i);
    if From(w, i, c) && c != Conn(w, i) {
      var j :| i <= j < w.nfds && Conn(w, j) == c;
      RemoveMoves(w, i, j);
      assert Conn(w', MovedTo(w, i, j)) == c;
    }
    if From(w', i, c) {
      var m :| i <= m < w'.nfds && Conn(w', m) == c;
      var j := if m == i then w.nfds - 1 else m;
      RemoveMoves(w, i, j);
      ConnDistinct(w, i, j);
      assert Conn(w, j) == c;
    }
  }

  lemma RemoveListed(w: World, i: nat, c: nat, ev: Events)
    requires Inv(w) && 1 <= i < w.nfds
    ensures Inv(RemoveFd(w, i))
    ensures Listed(RemoveFd(w, i), c, ev) <==> Listed(w, c, ev) && c != Conn(w, i)
  {
    RemoveKeeps(w, i);
    var w' := RemoveFd(w, i);
    if Listed(w, c, ev) && c != Conn(w, i) {
      var j :| 0 <= j < w.nfds && Conn(w, j) == c && w.fds[j].revents == ev;
      RemoveMoves(w, i, j);
      assert Conn(w', MovedTo(w, i, j)) == c;
    }
    if Listed(w', c, ev) {
      var m :| 0 <= m < w'.nfds && Conn(w', m) == c && w'.fds[m].revents == ev;
      var j := if m == i then w.nfds - 1 else m;
      RemoveMoves(w, i, j);
      ConnDistinct(w, i, j);
      assert Conn(w, j) == c;
    }
  }

  lemma NextFrom(w: World, i: nat, c: nat)
    requires Inv(w) && i < w.nfds
    ensures From(w, i + 1, c) <==> From(w, i, c) && c != Conn(w, i)
  {
    if From(w, i + 1, c) {
      var j :| i + 1 <= j < w.nfds && Conn(w, j) == c;
      ConnDistinct(w, i, j);
    }
  }

  lemma ExamineMoves(w: World, i: nat, net: Network, c: nat, ev: Events)
    requires Inv(w) && 1 <= i < w.nfds
    ensures var (w1, next) := Examine(w, i, net);
            && (From(w1, next, c) <==> From(w, i, c) && c != Conn(w, i))
            && (Listed(w1, c, ev) <==> Listed(w, c, ev) && !(c == Conn(w, i) && Drops(ev, net(c))))
  {
    if Listed(w, Conn(w, i), ev) {
      var j :| 0 <= j < w.nfds && Conn(w, j) == Conn(w, i) && w.fds[j].revents == ev;
      ConnDistinct(w, i, j);
    }
    if Drops(w.fds[i].revents, net(Conn(w, i))) {
      RemoveFrom(w, i, c);
      RemoveListed(w, i, c, ev);
    } else {
      NextFrom(w, i, c);
    }
  }

  /**
   Whatever the sweep removes on its way, it examines exactly the clients that were at place `i` or after
   it, each once.
   */
  lemma {:induction false} SweepExaminesAll(w: World, i: nat, net: Network)
    requires Inv(w) && 1 <= i
    ensures NoRepeats(Sweep(w, i, net).1)
    ensures forall c :: c in Sweep(w, i, net).1 <==> From(w, i, c)
    decreases w.nfds - i
  {
    if i < w.nfds {
      var (w1, next) := Examine(w, i, net);
      SweepExaminesAll(w1, next, net);
      forall c ensures From(w1, next, c) <==> From(w, i, c) && c != Conn(w, i) {
        ExamineMoves(w, i, net, c, NO_EVENTS);
      }
      assert From(w, i, Conn(w, i));
    }
  }

  /**
   The survivors of a sweep are exactly the clients that it had no reason to remove, each judged by the
   events that stood beside it when the sweep began.
   */
  lemma {:induction false} SweepSurvivors(w: World, i: nat, net: Network, c: nat, ev: Events)
    requires Inv(w) && 1 <= i
    ensures Listed(Sweep(w, i, net).0, c, ev) <==> Listed(w, c, ev) && !(From(w, i, c) && Drops(ev, net(c)))
    decreases w.nfds - i
  {
    if i < w.nfds {
      var (w1, next) := Examine(w, i, net);
      ExamineMoves(w, i, net, c, ev);
      SweepSurvivors(w1, next, net, c, ev);
      assert From(w, i, Conn(w, i));
    }
  }

  // ---------------------------------------------------------------------------------------------
  // poll and the accept loop
  // ---------------------------------------------------------------------------------------------

  function Reported(w: World, report: nat -> Events): World
    requires TableInv(w)
  {
    w.(fds := seq(MAX_FDS, i requires 0 <= i < MAX_FDS =>
                    if i < w.nfds then w.fds[i].(revents := report(Conn(w, i))) else w.fds[i]))
  }

  lemma ReportedKeeps(w: World, report: nat -> Events)
    requires TableInv(w)
    ensures TableInv(Reported(w, report))
  {
    var w' := Reported(w, report);
    assert forall i :: 0 <= i < w.nfds ==> w'.fds[i].fd == w.fds[i].fd;
    forall i | 0 <= i < w'.nfds ensures PlaceOk(w', i) {
      assert PlaceOk(w, i);
    }
    forall f | f in w'.k.open ensures HasPlace(w', f) {
      assert HasPlace(w, f);
      var i :| 0 <= i < w.nfds && w.fds[i].fd == f;
      assert w'.fds[i].fd == f;
    }
  }

  /** poll reports on the first `nfds` places and on no other. */
  function Poll(w: World, report: nat -> Events): (w': World)
    requires Inv(w)
    ensures Inv(w')
  {
    ReportedKeeps(w, report);
    Reported(w, report)
  }

  /** One result of accept: a connection from `peer`, with whether its socket can be made non-blocking. */
  datatype Arrival = Connected(peer: Address, ready: bool) | AcceptInterrupted | AcceptFailed

  /** How the kernel numbers descriptors: any number that is not open will do. */
  type Policy = Kernel -> nat

  ghost predicate Allocates(policy: Policy) {
    forall k :: policy(k) !in k.open
  }

  /** A connection is accepted: stored in the next place, whose reported events stay as they are, or closed. */
  function AcceptOne(w: World, fd: nat, peer: Address, ready: bool): World
    requires Sized(w) && fd !in w.k.open
  {
    var k := OpenFd(w.k, fd, peer);
    if w.nfds >= MAX_FDS || !ready then w.(k := CloseFd(k, fd))
    else World(w.fds[w.nfds := w.fds[w.nfds].(fd := fd)], w.addrs[w.nfds := peer], w.nfds + 1, k)
  }

  lemma OpenKeeps(k: Kernel, fd: nat, peer: Address)
    requires KernelInv(k) && fd !in k.open
    ensures KernelInv(OpenFd(k, fd, peer))
  {
    var k' := OpenFd(k, fd, peer);
    forall c | 0 <= c < |k'.peers| ensures c in k'.closed || c in k'.open.Values {
      if c == |k.peers| {
        assert fd in k'.open && k'.open[fd] == c;
      } else if c !in k.closed {
        var f :| f in k.open && k.open[f] == c;
        assert f in k'.open && k'.open[f] == c;
      }
    }
  }

  lemma StoreCoversOpen(w: World, fd: nat, peer: Address, f: nat)
    requires Inv(w) && fd !in w.k.open && w.nfds < MAX_FDS
    requires f in AcceptOne(w, fd, peer, true).k.open
    ensures HasPlace(AcceptOne(w, fd, peer, true), f)
  {
    var w' := AcceptOne(w, fd, peer, true);
    if f == fd {
      assert w'.fds[w.nfds].fd == f;
    } else {
      assert HasPlace(w, f);
      var i :| 0 <= i < w.nfds && w.fds[i].fd == f;
      assert w'.fds[i].fd == f;
    }
  }

  lemma StoreKeepsPlace(w: World, fd: nat, peer: Address, i: nat)
    requires Inv(w) && fd !in w.k.open && w.nfds < MAX_FDS && i <= w.nfds
    ensures PlaceOk(AcceptOne(w, fd, peer, true), i)
    ensures i < w.nfds ==> w.fds[i].fd != fd
  {
    if i < w.nfds {
      assert PlaceOk(w, i);
    }
  }

  lemma StoreKeepsTable(w: World, fd: nat, peer: Address)
    requires Inv(w) && fd !in w.k.open && w.nfds < MAX_FDS
    ensures TableInv(AcceptOne(w, fd, peer, true))
  {
    var w' := AcceptOne(w, fd, peer, true);
    forall i | 0 <= i < w'.nfds ensures PlaceOk(w', i) && (i < w.nfds ==> w.fds[i].fd != fd) {
      StoreKeepsPlace(w, fd, peer, i);
    }
    forall f | f in w'.k.open ensures HasPlace(w', f) {
      StoreCoversOpen(w, fd, peer, f);
    }
  }

  lemma RefuseKeepsTable(w: World, k: Kernel)
    requires Inv(w) && k.open == w.k.open && w.k.peers <= k.peers
    ensures TableInv(w.(k := k))
  {
    var w' := w.(k := k);
    forall i | 0 <= i < w'.nfds ensures PlaceOk(w', i) {
      assert PlaceOk(w, i);
    }
    forall f | f in w'.k.open ensures HasPlace(w', f) {
      assert HasPlace(w, f);
      var i :| 0 <= i < w.nfds && w.fds[i].fd == f;
      assert w'.fds[i].fd == f;
    }
  }

  lemma AcceptKeeps(w: World, fd: nat, peer: Address, ready: bool)
    requires Inv(w) && fd !in w.k.open
    ensures Inv(AcceptOne(w, fd, peer, ready))
  {
    OpenKeeps(w.k, fd, peer);
    var k := CloseFd(OpenFd(w.k, fd, peer), fd);
    CloseKeeps(OpenFd(w.k, fd, peer), fd);
    assert k.open == w.k.open;
    if w.nfds >= MAX_FDS || !ready {
      RefuseKeepsTable(w, k);
    } else {
      StoreKeepsTable(w, fd, peer);
    }
  }

  /** The accept loop; the end of `arrivals` stands for EAGAIN. */
  function AcceptAll(w: World, arrivals: seq<Arrival>, policy: Policy): (w': World)
    requires Inv(w)
    requires Allocates(policy)
    ensures Inv(w') && w'.nfds >= w.nfds && |w'.k.peers| >= |w.k.peers|
    decreases |arrivals|
  {
    if arrivals == [] then w
    else match arrivals[0]
      case AcceptFailed => w
      case AcceptInterrupted => AcceptAll(w, arrivals[1..], policy)
      case Connected(peer, ready) =>
        AcceptKeeps(w, policy(w.k), peer, ready);
        AcceptAll(AcceptOne(w, policy(w.k), peer, ready), arrivals[1..], policy)
  }

  lemma AcceptFirst(w: World, arrivals: seq<Arrival>, policy: Policy)
    requires Inv(w) && arrivals != []
    requires Allocates(policy)
    ensures match arrivals[0]
            case AcceptFailed => AcceptAll(w, arrivals, policy) == w
            case AcceptInterrupted => AcceptAll(w, arrivals, policy) == AcceptAll(w, arrivals[1..], policy)
            case Connected(peer, ready) =>
              var w1 := AcceptOne(w, policy(w.k), peer, ready);
              Inv(w1) && AcceptAll(w, arrivals, policy) == AcceptAll(w1, arrivals[1..], policy)
  {
    if arrivals[0].Connected? {
      AcceptKeeps(w, policy(w.k), arrivals[0].peer, arrivals[0].ready);
    }
  }

  // ---------------------------------------------------------------------------------------------
  // One pass of the main loop, and whole runs
  // ---------------------------------------------------------------------------------------------

  /** What poll and the calls after it give in one pass. */
  datatype Pass =
    | PollFailed
    | PollInterrupted
    | PollTimedOut
    | Ready(report: nat -> Events, arrivals: seq<Arrival>, net: Network)

  function AcceptPhase(w: World, report: nat -> Events, arrivals: seq<Arrival>, policy: Policy): (w': World)
    requires Inv(w)
    requires Allocates(policy)
    ensures Inv(w')
  {
    var polled := Poll(w, report);
    if polled.fds[0].revents.input then AcceptAll(polled, arrivals, policy) else polled
  }

  function DoPass(w: World, p: Pass, policy: Policy): (w': World)
    requires Inv(w)
    requires Allocates(policy)
    ensures Inv(w')
  {
    match p
    case Ready(report, arrivals, net) => Sweep(AcceptPhase(w, report, arrivals, policy), 1, net).0
    case _ => w
  }

  /** The main loop until poll fails or the passes end because of the stop signal. */
  function Serve(w: World, passes: seq<Pass>, policy: Policy): (w': World)
    requires Inv(w)
    requires Allocates(policy)
    ensures Inv(w')
    decreases |passes|
  {
    if passes == [] || passes[0].PollFailed? then w
    else Serve(DoPass(w, passes[0], policy), passes[1..], policy)
  }

  lemma ServeFrom(w: World, passes: seq<Pass>, n: nat, policy: Policy)
    requires Inv(w) && n < |passes|
    requires Allocates(policy)
    ensures Serve(w, passes[n..], policy) ==
            if passes[n].PollFailed? then w else Serve(DoPass(w, passes[n], policy), passes[n + 1..], policy)
  {
    assert passes[n..][1..] == passes[n + 1..];
  }

  /** The server with its listener open and nothing else. */
  predicate Started(w: World) {
    && Sized(w) && w.nfds == 1
    && w.k.open == map[w.fds[0].fd := 0] && |w.k.peers| == 1 && w.k.closed == []
    && forall i :: 0 <= i < MAX_FDS ==> w.fds[i].revents == NO_EVENTS
  }

  lemma StartedInv(w: World)
    requires Started(w)
    ensures Inv(w)
  {
    assert PlaceOk(w, 0) && HasPlace(w, w.fds[0].fd);
  }

  /** The places from `i` on hold exactly the open descriptors, each once. */
  predicate Covers(fds: seq<PollFd>, i: nat, open: map<nat, nat>) {
    && (forall j :: i <= j < |fds| ==> fds[j].fd in open)
    && (forall j, m :: i <= j < m < |fds| ==> fds[j].fd != fds[m].fd)
    && (forall f :: f in open ==> exists j :: i <= j < |fds| && fds[j].fd == f)
  }

  lemma CoversNext(fds: seq<PollFd>, i: nat, open: map<nat, nat>)
    requires i < |fds| && Covers(fds, i, open)
    ensures Covers(fds, i + 1, open - {fds[i].fd})
  {
  }

  lemma InvCovers(w: World)
    requires Inv(w)
    ensures Covers(w.fds[..w.nfds], 0, w.k.open)
  {
    var used := w.fds[..w.nfds];
    forall j | 0 <= j < |used| ensures used[j].fd in w.k.open {
      assert PlaceOk(w, j);
    }
    forall f | f in w.k.open ensures exists j :: 0 <= j < |used| && used[j].fd == f {
      assert HasPlace(w, f);
      var j :| 0 <= j < w.nfds && w.fds[j].fd == f;
      assert used[j].fd == f;
    }
  }

  /** The cleanup loop: the descriptors of the places in use are closed one after the other. */
  function Cleanup(w: World): Kernel
    requires Inv(w)
  {
    InvCovers(w);
    CloseRest(w.fds[..w.nfds], 0, w.k)
  }

  /** Closing goes on from place `i`; each of the descriptors is open when its turn comes. */
  function CloseRest(fds: seq<PollFd>, i: nat, k: Kernel): Kernel
    requires Covers(fds, i, k.open)
    decreases |fds| - i
  {
    if i >= |fds| then k
    else
      CoversNext(fds, i, k.open);
      CloseRest(fds, i + 1, CloseFd(k, fds[i].fd))
  }

  lemma {:induction false} CloseRestCloses(fds: seq<PollFd>, i: nat, k: Kernel)
    requires KernelInv(k) && i <= |fds| && Covers(fds, i, k.open)
    ensures var k' := CloseRest(fds, i, k); KernelInv(k') && k'.open == map[] && k'.peers == k.peers
    decreases |fds| - i
  {
    if i < |fds| {
      CloseKeeps(k, fds[i].fd);
      CoversNext(fds, i, k.open);
      var k1 := CloseFd(k, fds[i].fd);
      assert CloseRest(fds, i, k) == CloseRest(fds, i + 1, k1);
      CloseRestCloses(fds, i + 1, k1);
    } else {
      assert k.open.Keys == {};
    }
  }

  /** The numbers of all connections there have been, once each. */
  ghost predicate EachOnce(closed: seq<nat>, n: nat) {
    && NoRepeats(closed)
    && forall c: nat :: c in closed <==> c < n
  }

  /** At every top of the loop a connection is in the table, at one place, or has been closed, once. */
  lemma TableOrClosed(w: World)
    requires Inv(w)
    ensures forall c :: 0 <= c < |w.k.peers| ==> (From(w, 0, c) <==> c !in w.k.closed)
    ensures NoRepeats(w.k.closed)
    ensures forall i, j :: 0 <= i < j < w.nfds ==> Conn(w, i) != Conn(w, j)
  {
    forall i, j | 0 <= i < j < w.nfds ensures Conn(w, i) != Conn(w, j) {
      ConnDistinct(w, i, j);
    }
    forall c | 0 <= c < |w.k.peers| ensures From(w, 0, c) <==> c !in w.k.closed {
      if c !in w.k.closed {
        var f :| f in w.k.open && w.k.open[f] == c;
        assert HasPlace(w, f);
        var i :| 0 <= i < w.nfds && w.fds[i].fd == f;
        assert Conn(w, i) == c;
      }
    }
  }

  lemma AllClosed(k: Kernel)
    requires KernelInv(k) && k.open == map[]
    ensures EachOnce(k.closed, |k.peers|)
  {
    assert k.open.Values == {};
    forall c | c in k.closed ensures c < |k.peers| {
      var i :| 0 <= i < |k.closed| && k.closed[i] == c;
    }
  }

  lemma CleanupCloses(w: World)
    requires Inv(w)
    ensures var end := Cleanup(w);
            end.open == map[] && end.peers == w.k.peers && EachOnce(end.closed, |w.k.peers|)
  {
    InvCovers(w);
    CloseRestCloses(w.fds[..w.nfds], 0, w.k);
    AllClosed(Cleanup(w));
  }

  /**
   Over every run, whatever descriptor numbers the kernel gives out again: at every top of the loop a
   connection is in the table, once, or has been closed, once; and after the cleanup every one of them,
   the listener included, has been closed exactly once.
   */
  lemma DescriptorConservation(w: World, passes: seq<Pass>, policy: Policy)
    requires Started(w)
    requires Allocates(policy)
    ensures Inv(w)
    ensures var w' := Serve(w, passes, policy);
            && (forall c :: 0 <= c < |w'.k.peers| ==> (From(w', 0, c) <==> c !in w'.k.closed))
            && NoRepeats(w'.k.closed)
            && (forall i, j :: 0 <= i < j < w'.nfds ==> Conn(w', i) != Conn(w', j))
            && var end := Cleanup(w');
               end.open == map[] && end.peers == w'.k.peers && EachOnce(end.closed, |w'.k.peers|)
  {
    StartedInv(w);
    TableOrClosed(Serve(w, passes, policy));
    CleanupCloses(Serve(w, passes, policy));
  }

  // ---------------------------------------------------------------------------------------------
  // Whose events a client is judged by
  // ---------------------------------------------------------------------------------------------

  /** Places in use keep their connection, and every place of the array keeps its reported events. */
  predicate PlaceKept(w: World, w': World, i: nat)
    requires TableInv(w) && TableInv(w') && i < MAX_FDS
  {
    && w'.fds[i].revents == w.fds[i].revents
    && w.nfds <= w'.nfds && |w.k.peers| <= |w'.k.peers|
    && (i < w.nfds ==> Conn(w', i) == Conn(w, i))
    && (w.nfds <= i < w'.nfds ==> Conn(w', i) >= |w.k.peers|)
  }

  lemma AcceptOneKeepsPlace(w: World, fd: nat, peer: Address, ready: bool, i: nat)
    requires Inv(w) && fd !in w.k.open && i < MAX_FDS
    requires Inv(AcceptOne(w, fd, peer, ready))
    ensures PlaceKept(w, AcceptOne(w, fd, peer, ready), i)
  {
    if i < w.nfds {
      assert PlaceOk(w, i) && w.fds[i].fd != fd;
    }
  }

  lemma {:induction false} AcceptAllKeepsPlace(w: World, arrivals: seq<Arrival>, policy: Policy, i: nat)
    requires Inv(w) && i < MAX_FDS
    requires Allocates(policy)
    ensures PlaceKept(w, AcceptAll(w, arrivals, policy), i)
    decreases |arrivals|
  {
    if arrivals != [] && arrivals[0].Connected? {
      var a := arrivals[0];
      AcceptKeeps(w, policy(w.k), a.peer, a.ready);
      AcceptOneKeepsPlace(w, policy(w.k), a.peer, a.ready, i);
      var w1 := AcceptOne(w, policy(w.k), a.peer, a.ready);
      AcceptAllKeepsPlace(w1, arrivals[1..], policy, i);
      PlaceKeptTwice(w, w1, AcceptAll(w1, arrivals[1..], policy), i);
    } else if arrivals != [] && arrivals[0].AcceptInterrupted? {
      AcceptAllKeepsPlace(w, arrivals[1..], policy, i);
    }
  }

  lemma PlaceKeptTwice(w: World, w1: World, w2: World, i: nat)
    requires TableInv(w) && TableInv(w1) && TableInv(w2) && i < MAX_FDS
    requires PlaceKept(w, w1, i) && PlaceKept(w1, w2, i)
    ensures PlaceKept(w, w2, i)
  {
  }

  lemma AcceptPhasePlace(w: World, report: nat -> Events, arrivals: seq<Arrival>, policy: Policy, i: nat)
    requires Inv(w) && i < MAX_FDS
    requires Allocates(policy)
    ensures PlaceKept(Poll(w, report), AcceptPhase(w, report, arrivals, policy), i)
  {
    AcceptAllKeepsPlace(Poll(w, report), arrivals, policy, i);
  }

  lemma PollReports(w: World, report: nat -> Events, i: nat)
    requires Inv(w) && i < w.nfds
    ensures Conn(Poll(w, report), i) == Conn(w, i) && Poll(w, report).fds[i].revents == report(Conn(w, i))
  {
  }

  lemma PolledClientJudged(w: World, p: Pass, policy: Policy, i: nat)
    requires Inv(w) && p.Ready? && 1 <= i < w.nfds
    requires Allocates(policy)
    ensures var c := Conn(w, i);
            From(DoPass(w, p, policy), 0, c) <==> !Drops(p.report(c), p.net(c))
  {
    AcceptPhasePlace(w, p.report, p.arrivals, policy, i);
    PollReports(w, p.report, i);
    PlaceFate(AcceptPhase(w, p.report, p.arrivals, policy), p.net, i);
  }

  /**
   A client that was in the table when poll was called is judged by what poll reported for it, whatever
   moves around it: it stays exactly when those are no error, and when it was not for reading or its recv calls
   saw neither a close nor a failure.
   */
  lemma PolledClientFate(w: World, p: Pass, policy: Policy, i: nat)
    requires Inv(w) && p.Ready? && 1 <= i < w.nfds
    requires Allocates(policy)
    ensures var c := Conn(w, i);
            From(DoPass(w, p, policy), 0, c) <==>
              !p.report(c).error
              && (p.report(c).input ==>
                    !exists n :: 0 <= n < |p.net(c)| && p.net(c)[n] in {PeerClosed, Failed}
                      && forall m :: 0 <= m < n ==> p.net(c)[m] in {Data, Interrupted})
  {
    PolledClientJudged(w, p, policy, i);
    DropsMeaning(p.report(Conn(w, i)), p.net(Conn(w, i)));
  }

  /** The client at place `i` stays exactly when the events beside it give no reason to remove it. */
  lemma PlaceFate(w: World, net: Network, i: nat)
    requires Inv(w) && 1 <= i < w.nfds
    ensures var c := Conn(w, i);
            From(Sweep(w, 1, net).0, 0, c) <==> !Drops(w.fds[i].revents, net(c))
  {
    var c, w' := Conn(w, i), Sweep(w, 1, net).0;
    SweepSurvivors(w, 1, net, c, w.fds[i].revents);
    assert From(w, 1, c) && Listed(w, c, w.fds[i].revents);
    if From(w', 0, c) {
      var j :| 0 <= j < w'.nfds && Conn(w', j) == c;
      assert Listed(w', c, w'.fds[j].revents);
      SweepSurvivors(w, 1, net, c, w'.fds[j].revents);
      var m :| 0 <= m < w.nfds && Conn(w, m) == c && w.fds[m].revents == w'.fds[j].revents;
      ConnDistinct(w, i, m);
    }
  }

  lemma NewcomerJudgedBy(w: World, p: Pass, policy: Policy, i: nat)
    requires Inv(w) && p.Ready?
    requires Allocates(policy)
    requires w.nfds <= i < AcceptPhase(w, p.report, p.arrivals, policy).nfds
    ensures var c := Conn(AcceptPhase(w, p.report, p.arrivals, policy), i);
            c >= |w.k.peers| && (From(DoPass(w, p, policy), 0, c) <==> !Drops(w.fds[i].revents, p.net(c)))
  {
    AcceptPhasePlace(w, p.report, p.arrivals, policy, i);
    PlaceFate(AcceptPhase(w, p.report, p.arrivals, policy), p.net, i);
  }

  /**
   A client accepted in this very pass is judged by whatever an earlier client left in its place of the
   array: it stays exactly when those stale events are no error, and when they are not for reading or its recv
   calls see neither a close nor a failure.
   */
  lemma NewcomerFate(w: World, p: Pass, policy: Policy, i: nat)
    requires Inv(w) && p.Ready?
    requires Allocates(policy)
    requires w.nfds <= i < AcceptPhase(w, p.report, p.arrivals, policy).nfds
    ensures var c := Conn(AcceptPhase(w, p.report, p.arrivals, policy), i);
            && c >= |w.k.peers|
            && (From(DoPass(w, p, policy), 0, c) <==>
                  !w.fds[i].revents.error
                  && (w.fds[i].revents.input ==>
                        !exists n :: 0 <= n < |p.net(c)| && p.net(c)[n] in {PeerClosed, Failed}
                          && forall m :: 0 <= m < n ==> p.net(c)[m] in {Data, Interrupted}))
  {
    NewcomerJudgedBy(w, p, policy, i);
    DropsMeaning(w.fds[i].revents, p.net(Conn(AcceptPhase(w, p.report, p.arrivals, policy), i)));
  }

  /** A pass in which poll reports `ev` for connection `c` alone, and no client has anything to be read. */
  function QuietPass(c: nat, ev: Events, arrivals: seq<Arrival>): Pass {
    Ready(d => if d == c then ev else NO_EVENTS, arrivals, _ => [])
  }

  function Arriving(peer: Address): Pass {
    QuietPass(0, Events(true, false), [Connected(peer, true)])
  }

  lemma SweepOfOne(w: World, net: Network)
    requires Inv(w) && w.nfds == 2
    ensures Sweep(w, 1, net).0 == Examine(w, 1, net).0
  {
    var (next, i) := Examine(w, 1, net);
    assert i >= next.nfds;
  }

  lemma AcceptOfOne(w: World, peer: Address, policy: Policy)
    requires Inv(w)
    requires Allocates(policy)
    ensures var fd := policy(w.k);
            AcceptAll(w, [Connected(peer, true)], policy) == AcceptOne(w, fd, peer, true)
  {
    AcceptKeeps(w, policy(w.k), peer, true);
    assert [Connected(peer, true)][1..] == [];
  }

  /** A pass with one arrival on a server without clients: the place it gets decides. */
  lemma ArrivalAlone(w: World, peer: Address, policy: Policy)
    requires Inv(w) && w.nfds == 1
    requires Allocates(policy)
    ensures var w', c := DoPass(w, Arriving(peer), policy), |w.k.peers|;
            && |w'.k.peers| == c + 1 && w'.fds[1].revents == w.fds[1].revents
            && if w.fds[1].revents.error then w'.nfds == 1 && w'.k.closed == w.k.closed + [c]
               else w'.nfds == 2 && Conn(w', 1) == c && w'.k.closed == w.k.closed
  {
    var p := Arriving(peer);
    var polled := Poll(w, p.report);
    PollReports(w, p.report, 0);
    AcceptOfOne(polled, peer, policy);
    var one := AcceptPhase(w, p.report, p.arrivals, policy);
    assert one == AcceptOne(polled, policy(polled.k), peer, true);
    SweepOfOne(one, p.net);
    assert !DrainCloses(p.net(Conn(one, 1)));
  }

  /** A pass in which the only client is reported broken: its events stay in the place that it leaves. */
  lemma HangUpAlone(w: World, policy: Policy)
    requires Inv(w) && w.nfds == 2
    requires Allocates(policy)
    ensures var w', c := DoPass(w, QuietPass(Conn(w, 1), Events(false, true), []), policy), Conn(w, 1);
            && w'.nfds == 1 && w'.k.peers == w.k.peers && w'.k.closed == w.k.closed + [c] && w'.fds[1].revents.error
  {
    var p := QuietPass(Conn(w, 1), Events(false, true), []);
    PollReports(w, p.report, 0);
    PollReports(w, p.report, 1);
    ConnDistinct(w, 0, 1);
    SweepOfOne(Poll(w, p.report), p.net);
  }

  /** A client that hangs up spoils its place for the next one, which is closed in the pass that accepts it. */
  lemma HangUpThenArrival(w: World, second: Address, policy: Policy)
    requires Inv(w) && w.nfds == 2 && Conn(w, 1) == 1 && |w.k.peers| == 2 && w.k.closed == []
    requires Allocates(policy)
    ensures var p := QuietPass(1, Events(false, true), []);
            DoPass(DoPass(w, p, policy), Arriving(second), policy).k.closed == [1, 2]
  {
    HangUpAlone(w, policy);
    ArrivalAlone(DoPass(w, QuietPass(1, Events(false, true), []), policy), second, policy);
  }

  lemma FirstClient(w: World, first: Address, policy: Policy)
    requires Inv(w) && Started(w)
    requires Allocates(policy)
    ensures var w' := DoPass(w, Arriving(first), policy);
            w'.nfds == 2 && Conn(w', 1) == 1 && |w'.k.peers| == 2 && w'.k.closed == []
  {
    ArrivalAlone(w, first, policy);
  }

  /**
   So a new client can be closed although poll reported nothing for it and there was nothing for it to read:
   one client comes and hangs up, the next one takes its place and is closed in the pass that accepts it.
   */
  lemma StaleEventsCloseNewcomer(w: World, first: Address, second: Address, policy: Policy)
    requires Inv(w) && Started(w)
    requires Allocates(policy)
    ensures var w1 := DoPass(w, Arriving(first), policy);
            var w2 := DoPass(w1, QuietPass(1, Events(false, true), []), policy);
            DoPass(w2, Arriving(second), policy).k.closed == [1, 2]
    ensures Arriving(second).report(2) == NO_EVENTS && Arriving(second).net(2) == []
  {
    FirstClient(w, first, policy);
    HangUpThenArrival(DoPass(w, Arriving(first), policy), second, policy);
  }
}
