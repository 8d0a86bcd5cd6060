/** The poll server's passes and arrivals, counted: each is dealt with once and in order, and the table fills up. */
module PollArrivals {
  import opened PollTable

  /** accept gives a connection at place `n` of its results, and has not failed before. */
  predicate Comes(arrivals: seq<Arrival>, n: nat) {
    n < |arrivals| && arrivals[n].Connected? && forall m :: 0 <= m < n ==> !arrivals[m].AcceptFailed?
  }

  predicate ComesReady(arrivals: seq<Arrival>, n: nat) {
    Comes(arrivals, n) && arrivals[n].ready
  }

  function ComeBefore(arrivals: seq<Arrival>, k: nat): set<nat> {
    set n: nat | n < k && Comes(arrivals, n)
  }

  function ReadyBefore(arrivals: seq<Arrival>, k: nat): set<nat> {
    set n: nat | n < k && ComesReady(arrivals, n)
  }

  lemma ComeNext(arrivals: seq<Arrival>, k: nat)
    ensures |ComeBefore(arrivals, k + 1)| == |ComeBefore(arrivals, k)| + if Comes(arrivals, k) then 1 else 0
    ensures |ReadyBefore(arrivals, k + 1)| == |ReadyBefore(arrivals, k)| + if ComesReady(arrivals, k) then 1 else 0
  {
    var a, b := ComeBefore(arrivals, k), ReadyBefore(arrivals, k);
    assert ComeBefore(arrivals, k + 1) == if Comes(arrivals, k) then a + {k} else a;
    assert ReadyBefore(arrivals, k + 1) == if ComesReady(arrivals, k) then b + {k} else b;
  }

  predicate Fails(arrivals: seq<Arrival>) {
    exists m :: 0 <= m < |arrivals| && arrivals[m].AcceptFailed?
  }

  lemma {:induction false} AcceptTogether(w: World, a: seq<Arrival>, b: seq<Arrival>, policy: Policy)
    requires Inv(w)
    requires Allocates(policy)
    ensures AcceptAll(w, a + b, policy) ==
            if Fails(a) then AcceptAll(w, a, policy) else AcceptAll(AcceptAll(w, a, policy), b, policy)
    decreases |a|
  {
    if a == [] {
      assert a + b == b;
    } else {
      assert (a + b)[1..] == a[1..] + b && (a + b)[0] == a[0];
      AcceptFirst(w, a, policy);
      AcceptFirst(w, a + b, policy);
      assert Fails(a) <==> a[0].AcceptFailed? || Fails(a[1..]) by {
        assert a[1..] == a[1..] && forall m :: 0 <= m < |a[1..]| ==> a[1..][m] == a[m + 1];
        if Fails(a) && !a[0].AcceptFailed? {
          var m :| 0 <= m < |a| && a[m].AcceptFailed?;
          assert a[1..][m - 1].AcceptFailed?;
        }
      }
      match a[0]
      case AcceptFailed =>
      case AcceptInterrupted => AcceptTogether(w, a[1..], b, policy);
      case Connected(peer, ready) => AcceptTogether(AcceptOne(w, policy(w.k), peer, ready), a[1..], b, policy);
    }
  }

  lemma FailsBefore(arrivals: seq<Arrival>, k: nat)
    requires k < |arrivals|
    ensures Comes(arrivals, k) <==> arrivals[k].Connected? && !Fails(arrivals[..k])
  {
    if Fails(arrivals[..k]) {
      var m :| 0 <= m < k && arrivals[..k][m].AcceptFailed?;
      assert arrivals[m].AcceptFailed?;
    }
  }

  /** One more result of accept. */
  lemma AcceptNext(w: World, arrivals: seq<Arrival>, k: nat, policy: Policy)
    requires Inv(w) && k < |arrivals|
    requires Allocates(policy)
    ensures var w' := AcceptAll(w, arrivals[..k], policy);
            AcceptAll(w, arrivals[..k + 1], policy) ==
              if Comes(arrivals, k) then AcceptOne(w', policy(w'.k), arrivals[k].peer, arrivals[k].ready) else w'
  {
    var before, last := arrivals[..k], [arrivals[k]];
    var w' := AcceptAll(w, before, policy);
    assert arrivals[..k + 1] == before + last && last[1..] == [];
    AcceptTogether(w, before, last, policy);
    AcceptFirst(w', last, policy);
    FailsBefore(arrivals, k);
  }

  lemma AcceptOneCounts(w: World, fd: nat, peer: Address, ready: bool)
    requires Inv(w) && fd !in w.k.open
    ensures var w', c, stored := AcceptOne(w, fd, peer, ready), |w.k.peers|, ready && w.nfds < MAX_FDS;
            && Inv(w') && w'.k.peers == w.k.peers + [peer] && w.k.closed <= w'.k.closed
            && w'.nfds == w.nfds + (if stored then 1 else 0)
            && (if stored then Conn(w', w.nfds) == c else c in w'.k.closed)
  {
    AcceptKeeps(w, fd, peer, ready);
  }

  /**
   How many connections come to be, and how far the table fills: every one that accept gave before it failed, and
   every one of these that could be set up, until there is no room.
   */
  lemma {:induction false} ArrivalsCounted(w: World, arrivals: seq<Arrival>, k: nat, policy: Policy)
    requires Inv(w) && k <= |arrivals|
    requires Allocates(policy)
    ensures var w' := AcceptAll(w, arrivals[..k], policy);
            && |w'.k.peers| == |w.k.peers| + |set n: nat | n < k && Comes(arrivals, n)|
            && w'.nfds == Min(MAX_FDS, w.nfds + |set n: nat | n < k && ComesReady(arrivals, n)|)
    decreases k
  {
    if k > 0 {
      ArrivalsCounted(w, arrivals, k - 1, policy);
      AcceptNext(w, arrivals, k - 1, policy);
      ComeNext(arrivals, k - 1);
      var w' := AcceptAll(w, arrivals[..k - 1], policy);
      if Comes(arrivals, k - 1) {
        AcceptOneCounts(w', policy(w'.k), arrivals[k - 1].peer, arrivals[k - 1].ready);
      }
    }
  }

  function Min(a: nat, b: nat): nat {
    if a <= b then a else b
  }

  lemma {:induction false} AcceptGrows(w: World, arrivals: seq<Arrival>, policy: Policy)
    requires Inv(w)
    requires Allocates(policy)
    ensures var w' := AcceptAll(w, arrivals, policy); w.k.peers <= w'.k.peers && w.k.closed <= w'.k.closed
    decreases |arrivals|
  {
    if arrivals != [] {
      AcceptFirst(w, arrivals, policy);
      match arrivals[0]
      case AcceptFailed =>
      case AcceptInterrupted => AcceptGrows(w, arrivals[1..], policy);
      case Connected(peer, ready) =>
        AcceptOneCounts(w, policy(w.k), peer, ready);
        AcceptGrows(AcceptOne(w, policy(w.k), peer, ready), arrivals[1..], policy);
    }
  }

  /** What an arrival got stays with it while others are accepted. */
  lemma ArrivalKept(w: World, rest: seq<Arrival>, c: nat, place: nat, policy: Policy)
    requires Inv(w) && c < |w.k.peers|
    requires if 0 < place < w.nfds then Conn(w, place) == c else c in w.k.closed
    requires Allocates(policy)
    ensures var w' := AcceptAll(w, rest, policy);
            && c < |w'.k.peers| && w'.k.peers[c] == w.k.peers[c]
            && (From(w', 0, c) <==> 0 < place < w.nfds) && (From(w', 0, c) <==> c !in w'.k.closed)
  {
    var w' := AcceptAll(w, rest, policy);
    AcceptGrows(w, rest, policy);
    TableOrClosed(w');
    if 0 < place < w.nfds {
      AcceptAllKeepsPlace(w, rest, policy, place);
      assert Conn(w', place) == c;
    }
  }

  /** The world right after arrival `n`, and what accepting the others makes of it. */
  lemma ArrivalStep(w: World, arrivals: seq<Arrival>, n: nat, policy: Policy) returns (w1: World, place: nat)
    requires Inv(w) && Comes(arrivals, n)
    requires Allocates(policy)
    ensures var c := |w.k.peers| + |set m: nat | m < n && Comes(arrivals, m)|;
            && Inv(w1) && |w1.k.peers| == c + 1 && w1.k.peers[c] == arrivals[n].peer
            && (if 0 < place < w1.nfds then Conn(w1, place) == c else c in w1.k.closed)
            && (0 < place < w1.nfds <==>
                  arrivals[n].ready && w.nfds + |set m: nat | m < n && ComesReady(arrivals, m)| < MAX_FDS)
    ensures AcceptAll(w, arrivals, policy) == AcceptAll(w1, arrivals[n + 1..], policy)
  {
    var w0 := AcceptAll(w, arrivals[..n], policy);
    ArrivalsCounted(w, arrivals, n, policy);
    AcceptNext(w, arrivals, n, policy);
    AcceptOneCounts(w0, policy(w0.k), arrivals[n].peer, arrivals[n].ready);
    w1 := AcceptOne(w0, policy(w0.k), arrivals[n].peer, arrivals[n].ready);
    place := w0.nfds;
    assert arrivals == arrivals[..n + 1] + arrivals[n + 1..];
    assert !Fails(arrivals[..n + 1]);
    AcceptTogether(w, arrivals[..n + 1], arrivals[n + 1..], policy);
  }

  /**
   What becomes of each arrival: it gets the next number and its peer's address, and a place in the table exactly when
   it could be set up and those before it left room; otherwise it is closed at once.
   */
  lemma ArrivalFate(w: World, arrivals: seq<Arrival>, n: nat, policy: Policy)
    requires Inv(w) && Comes(arrivals, n)
    requires Allocates(policy)
    ensures var w' := AcceptAll(w, arrivals, policy);
            var c := |w.k.peers| + |set m: nat | m < n && Comes(arrivals, m)|;
            && c < |w'.k.peers| && w'.k.peers[c] == arrivals[n].peer
            && (From(w', 0, c) <==>
                  arrivals[n].ready && w.nfds + |set m: nat | m < n && ComesReady(arrivals, m)| < MAX_FDS)
            && (!From(w', 0, c) <==> c in w'.k.closed)
  {
    var w1, place := ArrivalStep(w, arrivals, n, policy);
    ArrivalKept(w1, arrivals[n + 1..], |w1.k.peers| - 1, place, policy);
  }

  /** In a pass connections are accepted exactly when poll reported on the listener. */
  lemma PassAccepts(w: World, p: Pass, policy: Policy)
    requires Inv(w) && p.Ready?
    requires Allocates(policy)
    ensures |DoPass(w, p, policy).k.peers| == |w.k.peers| +
              if p.report(0).input then |set n: nat | n < |p.arrivals| && Comes(p.arrivals, n)| else 0
  {
    PollReports(w, p.report, 0);
    assert PlaceOk(w, 0);
    ArrivalsCounted(Poll(w, p.report), p.arrivals, |p.arrivals|, policy);
    assert p.arrivals[..|p.arrivals|] == p.arrivals;
  }

  // ---------------------------------------------------------------------------------------------
  // Runs
  // ---------------------------------------------------------------------------------------------

  lemma {:induction false} ServeTogether(w: World, a: seq<Pass>, b: seq<Pass>, policy: Policy)
    requires Inv(w)
    requires Allocates(policy)
    requires forall m :: 0 <= m < |a| ==> !a[m].PollFailed?
    ensures Serve(w, a + b, policy) == Serve(Serve(w, a, policy), b, policy)
    decreases |a|
  {
    if a == [] {
      assert a + b == b;
    } else {
      assert (a + b)[1..] == a[1..] + b && (a + b)[0] == a[0];
      ServeTogether(DoPass(w, a[0], policy), a[1..], b, policy);
    }
  }

  lemma ServeOne(w: World, p: Pass, policy: Policy)
    requires Inv(w) && !p.PollFailed?
    requires Allocates(policy)
    ensures Serve(w, [p], policy) == DoPass(w, p, policy)
  {
    assert [p][1..] == [];
  }

  /** Every pass is made once and in order, until poll fails; from then on nothing happens. */
  lemma PassesInOrder(w: World, passes: seq<Pass>, k: nat, policy: Policy)
    requires Inv(w) && k < |passes|
    requires Allocates(policy)
    requires forall m :: 0 <= m < k ==> !passes[m].PollFailed?
    ensures Serve(w, [], policy) == w
    ensures if passes[k].PollFailed? then Serve(w, passes, policy) == Serve(w, passes[..k], policy)
            else Serve(w, passes[..k + 1], policy) == DoPass(Serve(w, passes[..k], policy), passes[k], policy)
  {
    if passes[k].PollFailed? {
      assert passes == passes[..k] + passes[k..];
      ServeTogether(w, passes[..k], passes[k..], policy);
    } else {
      assert passes[..k + 1] == passes[..k] + [passes[k]];
      ServeTogether(w, passes[..k], [passes[k]], policy);
      ServeOne(Serve(w, passes[..k], policy), passes[k], policy);
    }
  }
}
