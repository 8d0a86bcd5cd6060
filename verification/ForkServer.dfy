/**
 The fork server: a parent that accepts and forks, children that exit at any moment, and a SIGCHLD handler
 behind a single pending bit. The signal is blocked while its handler runs, and may interrupt the parent
 between any two of its steps.
 */
module ForkServer {
  import Runs

  datatype Status = Running | Zombie | Reaped
  datatype Child = Child(status: Status, conn: nat, fds: set<nat>)

  /** Where the parent is in its loop; the descriptor is the connection at hand. */
  datatype Parent = AtAccept | Accepted(conn: nat) | Forked(conn: nat)

  /** The handler is off, in its waitpid loop, or past the waitpid that found no zombie. */
  datatype Handler = Off | Looping | Returning

  datatype State = State(
    listener: nat, fds: set<nat>, parent: Parent, children: seq<Child>,
    pending: bool, handler: Handler, reaped: seq<nat>)

  datatype Action =
    | Accept(conn: nat)
    | ForkFails
    | ForkSucceeds
    | ParentCloses
    | ChildCloses(child: nat, fd: nat)
    | ChildExits(child: nat)
    | Deliver
    | Reap(child: nat)
    | NoMore
    | Return

  predicate Initial(s: State) {
    s == State(s.listener, {s.listener}, AtAccept, [], false, Off, [])
  }

  predicate Can(s: State, a: Action) {
    match a
    case Accept(conn) => s.handler == Off && s.parent == AtAccept && conn !in s.fds
    case ForkFails => s.handler == Off && s.parent.Accepted?
    case ForkSucceeds => s.handler == Off && s.parent.Accepted?
    case ParentCloses => s.handler == Off && s.parent.Forked?
    case ChildCloses(i, fd) =>
      i < |s.children| && s.children[i].status == Running && fd in {s.listener, s.children[i].conn}
    case ChildExits(i) => i < |s.children| && s.children[i].status == Running
    case Deliver => s.pending && s.handler == Off
    case Reap(i) => s.handler == Looping && i < |s.children| && s.children[i].status == Zombie
    case NoMore => s.handler == Looping && forall i :: 0 <= i < |s.children| ==> s.children[i].status != Zombie
    case Return => s.handler == Returning
  }

  function Apply(s: State, a: Action): State
    requires Can(s, a)
  {
    match a
    case Accept(conn) => s.(fds := s.fds + {conn}, parent := Accepted(conn))
    case ForkFails => s.(fds := s.fds - {s.parent.conn}, parent := AtAccept)
    case ForkSucceeds =>
      s.(children := s.children + [Child(Running, s.parent.conn, s.fds)], parent := Forked(s.parent.conn))
    case ParentCloses => s.(fds := s.fds - {s.parent.conn}, parent := AtAccept)
    case ChildCloses(i, fd) =>
      s.(children := s.children[i := s.children[i].(fds := s.children[i].fds - {fd})])
    case ChildExits(i) =>
      s.(children := s.children[i := s.children[i].(status := Zombie, fds := {})], pending := true)
    case Deliver => s.(pending := false, handler := Looping)
    case Reap(i) =>
      s.(children := s.children[i := s.children[i].(status := Reaped)], reaped := s.reaped + [i])
    case NoMore => s.(handler := Returning)
    case Return => s.(handler := Off)
  }

  ghost predicate Next(s: State, s': State) {
    exists a :: Can(s, a) && s' == Apply(s, a)
  }

  ghost predicate Reachable(s: State) {
    Runs.Reachable(Initial, Next, s)
  }

  predicate HasZombie(s: State) {
    exists i :: 0 <= i < |s.children| && s.children[i].status == Zombie
  }

  predicate Inv(s: State) {
    && (HasZombie(s) ==> s.pending || s.handler == Looping)
    && s.fds == (if s.parent == AtAccept then {s.listener} else {s.listener, s.parent.conn})
    && (s.parent != AtAccept ==> s.parent.conn != s.listener)
    && (forall i :: 0 <= i < |s.children| ==>
          s.children[i].conn != s.listener && s.children[i].fds <= {s.listener, s.children[i].conn})
    && (forall i :: 0 <= i < |s.children| ==> (s.children[i].status == Reaped <==> i in s.reaped))
    && (forall k :: 0 <= k < |s.reaped| ==> s.reaped[k] < |s.children|)
    && (forall j, k :: 0 <= j < k < |s.reaped| ==> s.reaped[j] != s.reaped[k])
  }

  lemma StepKeeps(s: State, a: Action)
    requires Inv(s) && Can(s, a)
    ensures Inv(Apply(s, a))
  {
    var s' := Apply(s, a);
    forall i | 0 <= i < |s'.children| && s'.children[i].status == Zombie
      ensures s'.pending || s'.handler == Looping
    {
      if i < |s.children| && s.children[i].status == Zombie {
        assert HasZombie(s);
      }
    }
    if a.Reap? {
      assert a.child !in s.reaped;
    }
  }

  lemma ReachableInv(s: State)
    requires Reachable(s)
    ensures Inv(s)
  {
    var init, next, inv := Initial, Next, (a: State) => Inv(a);
    forall a, b | inv(a) && next(a, b) ensures inv(b) {
      var act :| Can(a, act) && b == Apply(a, act);
      StepKeeps(a, act);
    }
    Runs.ReachableInvariant(init, next, inv, s);
  }

  // ---------------------------------------------------------------------------------------------
  // Main results
  // ---------------------------------------------------------------------------------------------

  /**
   A zombie never goes unnoticed, although exits that come while the bit is set are coalesced; each child is
   reaped at most once; and back at accept the parent holds the listening descriptor alone.
   */
  lemma NoLostZombies(s: State)
    requires Reachable(s)
    ensures HasZombie(s) ==> s.pending || s.handler == Looping
    ensures s.parent == AtAccept ==> s.fds == {s.listener}
    ensures forall j, k :: 0 <= j < k < |s.reaped| ==> s.reaped[j] != s.reaped[k]
    ensures !s.pending && s.handler == Off ==>
              forall i :: 0 <= i < |s.children| ==> s.children[i].status == Running || i in s.reaped
  {
    ReachableInv(s);
    forall i | 0 <= i < |s.children| && s.children[i].status == Zombie ensures HasZombie(s) {
    }
  }

  function Zombies(children: seq<Child>): nat {
    if children == [] then 0 else (if children[0].status == Zombie then 1 else 0) + Zombies(children[1..])
  }

  lemma {:induction false} ZombiesUpdate(children: seq<Child>, i: nat, c: Child)
    requires i < |children|
    ensures Zombies(children[i := c]) ==
            Zombies(children) - (if children[i].status == Zombie then 1 else 0) + (if c.status == Zombie then 1 else 0)
  {
    if i == 0 {
      assert children[0 := c][1..] == children[1..];
    } else {
      assert children[i := c][1..] == children[1..][i - 1 := c];
      ZombiesUpdate(children[1..], i - 1, c);
    }
  }

  lemma {:induction false} ZombiesCounted(children: seq<Child>)
    ensures Zombies(children) > 0 <==> exists i :: 0 <= i < |children| && children[i].status == Zombie
  {
    if children != [] {
      ZombiesCounted(children[1..]);
      if Zombies(children[1..]) > 0 {
        var i :| 0 <= i < |children[1..]| && children[1..][i].status == Zombie;
        assert children[i + 1].status == Zombie;
      } else if i :| 0 <= i < |children| && children[i].status == Zombie {
        assert i > 0 ==> children[1..][i - 1].status == Zombie;
      }
    }
  }

  predicate OfSignal(a: Action) {
    a.Deliver? || a.Reap? || a.NoMore? || a.Return?
  }

  /** The steps that signal handling still has before it. */
  function SignalWork(s: State): nat {
    Zombies(s.children) + (if s.pending then 3 else 0)
    + match s.handler case Off => 0 case Looping => 2 case Returning => 1
  }

  /**
   If no further child exits, signal handling is over after exactly `SignalWork` steps, and then no zombie is
   left: each of its steps takes one unit of the work, and one of them can be taken while any is left.
   */
  lemma ZombiesGo(s: State)
    requires Reachable(s)
    ensures forall a :: Can(s, a) && OfSignal(a) ==> SignalWork(Apply(s, a)) == SignalWork(s) - 1
    ensures SignalWork(s) > 0 <==> exists a :: Can(s, a) && OfSignal(a)
    ensures SignalWork(s) == 0 ==> !HasZombie(s)
  {
    ReachableInv(s);
    ZombiesCounted(s.children);
    forall a | Can(s, a) && OfSignal(a) ensures SignalWork(Apply(s, a)) == SignalWork(s) - 1 {
      if a.Reap? {
        ZombiesUpdate(s.children, a.child, s.children[a.child].(status := Reaped));
      }
    }
    if SignalWork(s) > 0 {
      if s.handler == Returning {
        assert Can(s, Return) && OfSignal(Return);
      } else if s.handler == Off {
        assert Can(s, Deliver) && OfSignal(Deliver);
      } else if HasZombie(s) {
        var i :| 0 <= i < |s.children| && s.children[i].status == Zombie;
        assert Can(s, Reap(i)) && OfSignal(Reap(i));
      } else {
        assert Can(s, NoMore) && OfSignal(NoMore);
      }
    }
  }
}
