/** The fork server's program: its accept loop and its handler, interrupted by children that exit at will. */
module ForkProgram {
  import opened ForkServer
  import Runs

  /** What happens in one pass of the accept loop. */
  datatype Pass = AcceptFails | Served(conn: nat, forkFails: bool)

  function Alive(children: seq<Child>): nat {
    if children == [] then 0 else (if children[0].status == Running then 1 else 0) + Alive(children[1..])
  }

  /** The connections that children were forked for, in the order of the forks. */
  function Conns(children: seq<Child>): seq<nat> {
    seq(|children|, i requires 0 <= i < |children| => children[i].conn)
  }

  /** The connections that the passes hand over to a child. */
  function HandedOver(passes: seq<Pass>): seq<nat> {
    if passes == [] then []
    else var p := passes[|passes| - 1];
         HandedOver(passes[..|passes| - 1]) + if p.Served? && !p.forkFails then [p.conn] else []
  }

  /** The passes before the k-th in which accept and fork succeed. */
  ghost function Successes(passes: seq<Pass>, k: nat): set<nat>
    requires k <= |passes|
  {
    set j: nat | j < k && passes[j].Served? && !passes[j].forkFails
  }

  lemma SuccessesNext(passes: seq<Pass>, k: nat)
    requires k < |passes|
    ensures |Successes(passes, k + 1)| ==
            |Successes(passes, k)| + if passes[k].Served? && !passes[k].forkFails then 1 else 0
  {
    var before := Successes(passes, k);
    assert Successes(passes, k + 1) == if passes[k].Served? && !passes[k].forkFails then before + {k} else before;
  }

  /** One connection for each pass in which accept and fork succeed, in the order of the passes. */
  lemma {:induction false} HandedOverInOrder(passes: seq<Pass>, n: nat)
    requires n <= |passes|
    ensures |HandedOver(passes[..n])| == |Successes(passes, n)|
    ensures forall i: nat :: i < n && passes[i].Served? && !passes[i].forkFails ==>
              |Successes(passes, i)| < |HandedOver(passes[..n])|
              && HandedOver(passes[..n])[|Successes(passes, i)|] == passes[i].conn
  {
    if n > 0 {
      HandedOverInOrder(passes, n - 1);
      SuccessesNext(passes, n - 1);
      assert passes[..n][..n - 1] == passes[..n - 1] && passes[..n][n - 1] == passes[n - 1];
    }
  }

  lemma {:induction false} AliveUpdate(children: seq<Child>, i: nat, c: Child)
    requires i < |children|
    ensures Alive(children[i := c]) ==
            Alive(children) - (if children[i].status == Running then 1 else 0) + (if c.status == Running then 1 else 0)
  {
    if i == 0 {
      assert children[0 := c][1..] == children[1..];
    } else {
      assert children[i := c][1..] == children[1..][i - 1 := c];
      AliveUpdate(children[1..], i - 1, c);
    }
  }

  lemma ChildrenOf(children: seq<Child>, before: seq<nat>, more: seq<nat>)
    requires Conns(children) == before + more
    ensures |children| == |before| + |more|
    ensures forall k :: 0 <= k < |more| ==> children[|before| + k].conn == more[k]
  {
    forall k | 0 <= k < |more| ensures children[|before| + k].conn == more[k] {
      assert Conns(children)[|before| + k] == more[k];
    }
  }

  /** The children that the passes add: one for each success, standing after those of the passes before. */
  lemma ChildrenInOrder(children: seq<Child>, before: seq<nat>, passes: seq<Pass>)
    requires Conns(children) == before + HandedOver(passes)
    ensures |children| == |before| + |Successes(passes, |passes|)|
    ensures forall i: nat :: i in Successes(passes, |passes|) ==>
              var child := |before| + |Successes(passes, i)|;
              child < |children| && children[child].conn == passes[i].conn
  {
    assert passes[..|passes|] == passes;
    HandedOverInOrder(passes, |passes|);
    ChildrenOf(children, before, HandedOver(passes));
  }

  /** The parent process, with the kernel's account of its children. */
  class Parent {
    var s: State

    ghost predicate Valid()
      reads this
    {
      Reachable(s)
    }

    constructor (listener: nat)
      ensures Valid() && s.parent == AtAccept && s.listener == listener && s.handler == Off
    {
      s := State(listener, {listener}, AtAccept, [], false, Off, []);
      new;
      Runs.ReachableInit(Initial, Next, s);
    }

    method Take(a: Action)
      requires Valid() && Can(s, a)
      modifies this
      ensures Valid() && s == Apply(old(s), a)
    {
      var t := Apply(s, a);
      Runs.ReachableStep(Initial, Next, s, t);
      s := t;
    }

    /** No child that had been reaped or had exited comes back, and the parent stands where it stood. */
    twostate predicate OnlyExits()
      reads this
    {
      && s.parent == old(s.parent) && s.fds == old(s.fds) && s.listener == old(s.listener)
      && s.handler == old(s.handler) && s.reaped == old(s.reaped)
      && Conns(s.children) == Conns(old(s.children)) && |s.children| == |old(s.children)|
      && forall i :: 0 <= i < |s.children| && old(s.children)[i].status != Running ==>
           s.children[i] == old(s.children)[i]
    }

    /** Some of the running children exit. */
    method ChildrenExit()
      requires Valid()
      modifies this
      ensures Valid() && OnlyExits()
      ensures Alive(s.children) <= Alive(old(s.children))
      ensures Alive(s.children) == Alive(old(s.children)) ==> s == old(s)
    {
      var goOn := *;
      while goOn && exists i :: 0 <= i < |s.children| && s.children[i].status == Running
        invariant Valid() && OnlyExits() && Alive(s.children) <= Alive(old(s.children))
        invariant Alive(s.children) == Alive(old(s.children)) ==> s == old(s)
        decreases Alive(s.children)
      {
        var i :| 0 <= i < |s.children| && s.children[i].status == Running;
        AliveUpdate(s.children, i, s.children[i].(status := Zombie, fds := {}));
        Take(ChildExits(i));
        goOn := *;
      }
    }

    /** waitpid with WNOHANG: takes in one zombie if there is one, and says whether it did. */
    method WaitPid() returns (found: bool, child: nat)
      requires Valid() && s.handler == Looping
      modifies this
      ensures Valid() && s.parent == old(s.parent) && s.fds == old(s.fds) && s.listener == old(s.listener)
      ensures Conns(s.children) == Conns(old(s.children)) && |s.children| == |old(s.children)|
      ensures forall i :: 0 <= i < |s.children| && old(s.children)[i].status == Zombie ==>
                s.children[i].status == if found && i == child then Reaped else Zombie
      ensures old(s.reaped) <= s.reaped
      ensures s.handler == if found then Looping else Returning
      ensures !found ==> forall i :: 0 <= i < |s.children| ==> s.children[i].status != Zombie
      ensures found ==> Alive(s.children) < Alive(old(s.children))
                        || (Alive(s.children) == Alive(old(s.children))
                            && Zombies(s.children) < Zombies(old(s.children)))
    {
      ChildrenExit();
      child := 0;
      if exists i :: 0 <= i < |s.children| && s.children[i].status == Zombie {
        child :| 0 <= child < |s.children| && s.children[child].status == Zombie;
        AliveUpdate(s.children, child, s.children[child].(status := Reaped));
        ZombiesUpdate(s.children, child, s.children[child].(status := Reaped));
        Take(Reap(child));
        found := true;
      } else {
        Take(NoMore);
        found := false;
      }
    }

    /** The handler: every child that was a zombie when the signal came is taken in, and the loop ends. */
    method SigchldHandler()
      requires Valid() && s.pending && s.handler == Off
      modifies this
      ensures Valid() && s.handler == Off
      ensures s.parent == old(s.parent) && s.fds == old(s.fds) && s.listener == old(s.listener)
      ensures Conns(s.children) == Conns(old(s.children))
      ensures forall i :: 0 <= i < |old(s.children)| && old(s.children)[i].status == Zombie ==> i in s.reaped
    {
      Take(Deliver);
      var found := true;
      while found
        invariant Valid() && s.handler == if found then Looping else Returning
        invariant s.parent == old(s.parent) && s.fds == old(s.fds) && s.listener == old(s.listener)
        invariant Conns(s.children) == Conns(old(s.children)) && |s.children| == |old(s.children)|
        invariant forall i :: 0 <= i < |s.children| && old(s.children)[i].status == Zombie ==>
                    s.children[i].status == Zombie || i in s.reaped
        invariant !found ==> forall i :: 0 <= i < |s.children| ==> s.children[i].status != Zombie
        decreases found, Alive(s.children), Zombies(s.children)
      {
        ghost var before := s;
        var child;
        found, child := WaitPid();
        ReachableInv(s);
        assert forall i :: i in before.reaped ==> i in s.reaped;
      }
      Take(Return);
    }

    /** Between two of its steps the parent may be interrupted, as often as signals come in. */
    method Interrupted()
      requires Valid() && s.handler == Off
      modifies this
      ensures Valid() && s.handler == Off
      ensures s.parent == old(s.parent) && s.fds == old(s.fds) && s.listener == old(s.listener)
      ensures Conns(s.children) == Conns(old(s.children))
    {
      ChildrenExit();
      if s.pending {
        SigchldHandler();
      }
    }

    /**
     One pass: accept, fork, and close what the child has taken over; the child's own steps are the kernel's.
     A child for the connection comes to be exactly when accept and fork both succeed.
     */
    method AcceptPass(p: Pass)
      requires Valid() && s.handler == Off && s.parent == AtAccept
      requires p.Served? ==> p.conn != s.listener
      modifies this
      ensures Valid() && s.handler == Off && s.parent == AtAccept && s.listener == old(s.listener)
      ensures s.fds == {s.listener}
      ensures Conns(s.children) ==
              Conns(old(s.children)) + if p.Served? && !p.forkFails then [p.conn] else []
    {
      ReachableInv(s);
      if p.Served? {
        Take(Accept(p.conn));
        Interrupted();
        if p.forkFails {
          Take(ForkFails);
        } else {
          Take(ForkSucceeds);
          Interrupted();
          Take(ParentCloses);
        }
      }
      Interrupted();
      ReachableInv(s);
    }

    /** The loop: back at its top the parent holds the listening descriptor alone. */
    method AcceptLoop(passes: seq<Pass>)
      requires Valid() && s.handler == Off && s.parent == AtAccept
      requires forall i :: 0 <= i < |passes| ==> passes[i].Served? ==> passes[i].conn != s.listener
      modifies this
      ensures Valid() && s.parent == AtAccept && s.handler == Off && s.listener == old(s.listener)
      ensures Conns(s.children) == Conns(old(s.children)) + HandedOver(passes)
    {
      for i := 0 to |passes|
        invariant Valid() && s.handler == Off && s.parent == AtAccept && s.listener == old(s.listener)
        invariant Conns(s.children) == Conns(old(s.children)) + HandedOver(passes[..i])
      {
        assert passes[..i + 1][..i] == passes[..i];
        AcceptPass(passes[i]);
      }
      assert passes[..|passes|] == passes;
    }

    /**
     The accept loop over any number of passes: every connection that could be handed over has got its child, in
     order.
     */
    method MainLoop(passes: seq<Pass>)
      requires Valid() && s.handler == Off && s.parent == AtAccept
      requires forall i :: 0 <= i < |passes| ==> passes[i].Served? ==> passes[i].conn != s.listener
      modifies this
      ensures Valid() && s.parent == AtAccept && s.fds == {s.listener} && s.listener == old(s.listener)
      ensures |s.children| == |old(s.children)| + |Successes(passes, |passes|)|
      ensures forall i: nat :: i in Successes(passes, |passes|) ==>
                var child := |old(s.children)| + |Successes(passes, i)|;
                child < |s.children| && s.children[child].conn == passes[i].conn
      ensures HasZombie(s) ==> s.pending
    {
      ghost var before := Conns(s.children);
      AcceptLoop(passes);
      ChildrenInOrder(s.children, before, passes);
      ReachableInv(s);
    }
  }
}
