/**
 Threads that pass through a section guarded by one mutex, each a fixed number of times. In the section a
 thread writes the counter's value to a file if it keeps a log, and then increments the counter by a load
 and a store. Any thread may move between any two of these steps.
 */
module LockedCounter {
  import Runs

  datatype Pc = Ready | Entered | Logged | Loaded(value: int) | Stored
  datatype Thread = Thread(pc: Pc, rounds: nat)
  datatype Holder = Free | Held(thread: nat)
  datatype State = State(counter: int, holder: Holder, file: seq<int>, threads: seq<Thread>)

  /** How many threads run, how often each enters, where the counter starts, and whether it is logged. */
  datatype Setup = Setup(threads: nat, rounds: nat, base: int, logging: bool)

  datatype Action = Lock | Log | Load | Store | Unlock

  predicate Initial(su: Setup, s: State) {
    && s.counter == su.base && s.holder == Free && s.file == []
    && s.threads == seq(su.threads, _ => Thread(Ready, 0))
  }

  predicate Can(su: Setup, s: State, t: nat, a: Action) {
    && t < |s.threads|
    && var th := s.threads[t];
       match a
       case Lock => th.pc == Ready && th.rounds < su.rounds && s.holder == Free
       case Log => th.pc == Entered
       case Load => th.pc == Logged
       case Store => th.pc.Loaded?
       case Unlock => th.pc == Stored
  }

  function Apply(su: Setup, s: State, t: nat, a: Action): State
    requires Can(su, s, t, a)
  {
    var th := s.threads[t];
    match a
    case Lock => s.(holder := Held(t), threads := s.threads[t := th.(pc := Entered)])
    case Log => s.(file := if su.logging then s.file + [s.counter] else s.file,
                   threads := s.threads[t := th.(pc := Logged)])
    case Load => s.(threads := s.threads[t := th.(pc := Loaded(s.counter))])
    case Store => s.(counter := th.pc.value + 1, threads := s.threads[t := th.(pc := Stored)])
    case Unlock => s.(holder := Free, threads := s.threads[t := Thread(Ready, th.rounds + 1)])
  }

  ghost predicate Next(su: Setup, s: State, s': State) {
    exists t, a :: Can(su, s, t, a) && s' == Apply(su, s, t, a)
  }

  ghost predicate Reachable(su: Setup, s: State) {
    Runs.Reachable((a: State) => Initial(su, a), (a: State, b: State) => Next(su, a, b), s)
  }

  function Completed(threads: seq<Thread>): nat {
    if threads == [] then 0 else threads[0].rounds + Completed(threads[1..])
  }

  lemma {:induction false} CompletedUpdate(threads: seq<Thread>, t: nat, th: Thread)
    requires t < |threads|
    ensures Completed(threads[t := th]) == Completed(threads) - threads[t].rounds + th.rounds
  {
    if t > 0 {
      assert threads[t := th][1..] == threads[1..][t - 1 := th];
      CompletedUpdate(threads[1..], t - 1, th);
    } else {
      assert threads[0 := th][1..] == threads[1..];
    }
  }

  lemma {:induction false} CompletedUniform(threads: seq<Thread>, k: nat)
    requires forall i :: 0 <= i < |threads| ==> threads[i].rounds == k
    ensures Completed(threads) == |threads| * k
  {
    if threads != [] {
      CompletedUniform(threads[1..], k);
    }
  }

  /** The numbers from `from` up to but not including `to`. */
  function Range(from: int, to: int): (r: seq<int>)
    ensures |r| == if from <= to then to - from else 0
    ensures forall i :: 0 <= i < |r| ==> r[i] == from + i
  {
    if from < to then seq(to - from, i => from + i) else []
  }

  /** Increments stored by the section that is being executed. */
  function Pending(s: State): nat {
    if s.holder.Held? && s.holder.thread < |s.threads| && s.threads[s.holder.thread].pc == Stored then 1 else 0
  }

  predicate Inv(su: Setup, s: State) {
    && |s.threads| == su.threads
    && (forall t :: 0 <= t < |s.threads| ==> s.threads[t].pc != Ready ==> s.holder == Held(t))
    && (s.holder.Held? ==> s.holder.thread < |s.threads| && s.threads[s.holder.thread].pc != Ready
                           && s.threads[s.holder.thread].rounds < su.rounds)
    && (forall t :: 0 <= t < |s.threads| ==> s.threads[t].rounds <= su.rounds)
    && s.counter == su.base + Completed(s.threads) + Pending(s)
    && (s.holder.Held? && s.threads[s.holder.thread].pc.Loaded? ==> s.threads[s.holder.thread].pc.value == s.counter)
    && s.file == if !su.logging then []
                 else Range(su.base, s.counter)
                      + if s.holder.Held? && (s.threads[s.holder.thread].pc == Logged
                                              || s.threads[s.holder.thread].pc.Loaded?)
                        then [s.counter] else []
  }

  lemma StepKeeps(su: Setup, s: State, t: nat, a: Action)
    requires Inv(su, s) && Can(su, s, t, a)
    ensures Inv(su, Apply(su, s, t, a))
  {
    var s' := Apply(su, s, t, a);
    CompletedUpdate(s.threads, t, s'.threads[t]);
    assert Range(su.base, s.counter + 1) == Range(su.base, s.counter) + [s.counter];
  }

  lemma {:induction false} InitialInv(su: Setup, s: State)
    requires Initial(su, s)
    ensures Inv(su, s)
  {
    CompletedUniform(s.threads, 0);
  }

  lemma ReachableInv(su: Setup, s: State)
    requires Reachable(su, s)
    ensures Inv(su, s)
  {
    var init, next, inv :=
      (a: State) => Initial(su, a), (a: State, b: State) => Next(su, a, b), (a: State) => Inv(su, a);
    forall a | init(a) ensures inv(a) {
      InitialInv(su, a);
    }
    forall a, b | inv(a) && next(a, b) ensures inv(b) {
      var t, act :| Can(su, a, t, act) && b == Apply(su, a, t, act);
      StepKeeps(su, a, t, act);
    }
    Runs.ReachableInvariant(init, next, inv, s);
  }

  // ---------------------------------------------------------------------------------------------
  // Main results
  // ---------------------------------------------------------------------------------------------

  /** At most one thread is inside the section, and no increment is ever lost. */
  lemma MutualExclusion(su: Setup, s: State, t: nat, u: nat)
    requires Reachable(su, s) && t < |s.threads| && u < |s.threads|
    ensures s.threads[t].pc != Ready && s.threads[u].pc != Ready ==> t == u
    ensures s.holder == Free ==> s.counter == su.base + Completed(s.threads)
    ensures s.holder == Free && su.logging ==> s.file == Range(su.base, s.counter)
  {
    ReachableInv(su, s);
  }

  predicate AllDone(su: Setup, s: State) {
    forall t :: 0 <= t < |s.threads| ==> s.threads[t] == Thread(Ready, su.rounds)
  }

  /** When the threads have been joined, every increment has counted and the file numbers the entries in order. */
  lemma FinalCounter(su: Setup, s: State)
    requires Reachable(su, s) && AllDone(su, s)
    ensures s.counter == su.base + su.threads * su.rounds
    ensures su.logging ==> s.file == Range(su.base, su.base + su.threads * su.rounds)
  {
    ReachableInv(su, s);
    CompletedUniform(s.threads, su.rounds);
  }

  /** Until all threads are done, one of them can go on. */
  lemma NoDeadlock(su: Setup, s: State)
    requires Reachable(su, s)
    ensures AllDone(su, s) <==> forall t, a :: !Can(su, s, t, a)
  {
    ReachableInv(su, s);
    if !AllDone(su, s) {
      var t :| 0 <= t < |s.threads| && s.threads[t] != Thread(Ready, su.rounds);
      var u := if s.holder.Held? then s.holder.thread else t;
      var a := match s.threads[u].pc
        case Ready => Lock
        case Entered => Log
        case Logged => Load
        case Loaded(_) => Store
        case Stored => Unlock;
      assert Can(su, s, u, a);
    }
  }

  /** The two programs: two threads of a thousand increments, and three threads that each log one line from 1. */
  lemma Programs(s: State, r: State)
    requires Reachable(Setup(2, 1000, 0, false), s) && AllDone(Setup(2, 1000, 0, false), s)
    requires Reachable(Setup(3, 1, 1, true), r) && AllDone(Setup(3, 1, 1, true), r)
    ensures s.counter == 2000 && r.file == [1, 2, 3]
  {
    FinalCounter(Setup(2, 1000, 0, false), s);
    FinalCounter(Setup(3, 1, 1, true), r);
  }

  // ---------------------------------------------------------------------------------------------
  // Every schedule ends
  // ---------------------------------------------------------------------------------------------

  /** The steps that a thread has taken: five a round. */
  function StepsOf(th: Thread): nat {
    5 * th.rounds + match th.pc case Ready => 0 case Entered => 1 case Logged => 2 case Loaded(_) => 3 case Stored => 4
  }

  function Steps(threads: seq<Thread>): nat {
    if threads == [] then 0 else StepsOf(threads[0]) + Steps(threads[1..])
  }

  lemma {:induction false} StepsUpdate(threads: seq<Thread>, t: nat, th: Thread)
    requires t < |threads|
    ensures Steps(threads[t := th]) == Steps(threads) - StepsOf(threads[t]) + StepsOf(th)
  {
    if t > 0 {
      assert threads[t := th][1..] == threads[1..][t - 1 := th];
      StepsUpdate(threads[1..], t - 1, th);
    } else {
      assert threads[0 := th][1..] == threads[1..];
    }
  }

  lemma {:induction false} StepsBound(threads: seq<Thread>, most: nat)
    requires forall i :: 0 <= i < |threads| ==> StepsOf(threads[i]) <= most
    ensures Steps(threads) <= |threads| * most
    ensures Steps(threads) == |threads| * most ==> forall i :: 0 <= i < |threads| ==> StepsOf(threads[i]) == most
  {
    if threads != [] {
      var rest := threads[1..];
      StepsBound(rest, most);
      assert |threads| * most == most + |rest| * most;
      if Steps(threads) == |threads| * most {
        forall i | 0 <= i < |threads| ensures StepsOf(threads[i]) == most {
          assert i > 0 ==> threads[i] == rest[i - 1];
        }
      }
    }
  }

  lemma {:induction false} StepsUniform(threads: seq<Thread>, n: nat)
    requires forall i :: 0 <= i < |threads| ==> StepsOf(threads[i]) == n
    ensures Steps(threads) == |threads| * n
  {
    if threads != [] {
      StepsUniform(threads[1..], n);
      assert |threads| * n == n + |threads[1..]| * n;
    }
  }

  lemma OneStep(su: Setup, s: State, t: nat, a: Action)
    requires Can(su, s, t, a)
    ensures Steps(Apply(su, s, t, a).threads) == Steps(s.threads) + 1
  {
    StepsUpdate(s.threads, t, Apply(su, s, t, a).threads[t]);
  }

  function AllSteps(su: Setup): nat {
    su.threads * (5 * su.rounds)
  }

  lemma StepsTotal(su: Setup, s: State)
    requires Inv(su, s)
    ensures Steps(s.threads) <= AllSteps(su)
    ensures AllDone(su, s) <==> Steps(s.threads) == AllSteps(su)
  {
    StepsBound(s.threads, 5 * su.rounds);
    if AllDone(su, s) {
      StepsUniform(s.threads, 5 * su.rounds);
    }
  }

  /** A run takes as many steps as its threads have taken. */
  lemma {:induction false} RunSteps(su: Setup, run: seq<State>)
    requires Runs.IsRun((a: State) => Initial(su, a), (a: State, b: State) => Next(su, a, b), run)
    ensures |run| - 1 == Steps(run[|run| - 1].threads)
  {
    var next := (a: State, b: State) => Next(su, a, b);
    if |run| == 1 {
      StepsUniform(run[0].threads, 0);
    } else {
      RunSteps(su, run[..|run| - 1]);
      var s, last := run[|run| - 2], run[|run| - 1];
      assert next(s, last);
      var t, a :| Can(su, s, t, a) && last == Apply(su, s, t, a);
      OneStep(su, s, t, a);
    }
  }

  /** No run is longer than five steps a round, and all threads are done exactly when it is that long. */
  lemma RunLength(su: Setup, run: seq<State>)
    requires Runs.IsRun((a: State) => Initial(su, a), (a: State, b: State) => Next(su, a, b), run)
    ensures |run| - 1 <= AllSteps(su)
    ensures AllDone(su, run[|run| - 1]) <==> |run| - 1 == AllSteps(su)
  {
    var last := run[|run| - 1];
    assert Reachable(su, last);
    ReachableInv(su, last);
    RunSteps(su, run);
    StepsTotal(su, last);
  }

  /** An action that can be taken, as long as some thread is not done. */
  function Schedule(su: Setup, s: State, t: nat): (r: (nat, Action))
    requires t < |s.threads|
  {
    var u := if s.holder.Held? && s.holder.thread < |s.threads| then s.holder.thread else t;
    (u, match s.threads[u].pc
        case Ready => Lock
        case Entered => Log
        case Logged => Load
        case Loaded(_) => Store
        case Stored => Unlock)
  }

  /**
   The main program: it creates the threads and waits until all are done, while they run in any order that
   the lock permits. Its run ends in a state with all threads done, and then every increment has counted.
   */
  method Run(su: Setup) returns (counter: int, file: seq<int>, ghost end: State)
    ensures Reachable(su, end) && AllDone(su, end) && counter == end.counter && file == end.file
    ensures counter == su.base + su.threads * su.rounds
    ensures file == if su.logging then Range(su.base, counter) else []
  {
    var s := State(su.base, Free, [], seq(su.threads, _ => Thread(Ready, 0)));
    ghost var init, next := (a: State) => Initial(su, a), (a: State, b: State) => Next(su, a, b);
    InitialInv(su, s);
    StepsTotal(su, s);
    Runs.ReachableInit(init, next, s);
    while exists t :: 0 <= t < |s.threads| && s.threads[t] != Thread(Ready, su.rounds)
      invariant Reachable(su, s) && Inv(su, s) && Steps(s.threads) <= AllSteps(su)
      decreases AllSteps(su) - Steps(s.threads)
    {
      var t :| 0 <= t < |s.threads| && s.threads[t] != Thread(Ready, su.rounds);
      var (u, a) := Schedule(su, s, t);
      OneStep(su, s, u, a);
      StepKeeps(su, s, u, a);
      Runs.ReachableStep(init, next, s, Apply(su, s, u, a));
      s := Apply(su, s, u, a);
      StepsTotal(su, s);
    }
    end := s;
    CompletedUniform(s.threads, su.rounds);
    counter, file := s.counter, s.file;
  }
}
