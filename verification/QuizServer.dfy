/** The quiz server: the shuffle that follows the right answer, and the score of a quiz. */
module QuizServer {

  function Swap<T>(s: seq<T>, i: nat, j: nat): (r: seq<T>)
    requires i < |s| && j < |s|
    ensures |r| == |s| && multiset(r) == multiset(s)
  {
    s[i := s[j]][j := s[i]]
  }

  /** The draws for n options: one number up to `i` for each `i` from n - 1 down to 1. */
  predicate Draws(d: seq<nat>, n: nat) {
    |d| + 1 == n && forall k :: 0 <= k < |d| ==> d[k] < n - k
  }

  /** The order that a sequence of draws makes of `s`. */
  function Shuffle<T>(s: seq<T>, d: seq<nat>): (r: seq<T>)
    requires Draws(d, |s|)
    ensures |r| == |s|
    decreases |s|
  {
    if d == [] then s
    else
      var last := |s| - 1;
      var t := Swap(s, last, d[0]);
      Shuffle(t[..last], d[1..]) + [t[last]]
  }

  lemma DrawsTail(d: seq<nat>, n: nat)
    requires Draws(d, n) && d != []
    ensures Draws(d[1..], n - 1)
  {
    forall k | 0 <= k < |d[1..]| ensures d[1..][k] < n - 1 - k {
      assert d[1..][k] == d[k + 1];
    }
  }

  lemma LastSplit<T>(s: seq<T>)
    requires s != []
    ensures s == s[..|s| - 1] + [s[|s| - 1]]
    ensures multiset(s) == multiset(s[..|s| - 1]) + multiset{s[|s| - 1]}
  {
    assert s == s[..|s| - 1] + [s[|s| - 1]];
  }

  /** Shuffling loses and invents nothing. */
  lemma {:induction false} ShufflePermutes<T>(s: seq<T>, d: seq<nat>)
    requires Draws(d, |s|)
    ensures multiset(Shuffle(s, d)) == multiset(s)
    decreases |s|
  {
    if d != [] {
      var last := |s| - 1;
      var t := Swap(s, last, d[0]);
      DrawsTail(d, |s|);
      ShufflePermutes(t[..last], d[1..]);
      LastSplit(t);
      var r := Shuffle(t[..last], d[1..]);
      assert multiset(r + [t[last]]) == multiset(r) + multiset{t[last]};
    }
  }

  predicate Distinct<T(==)>(s: seq<T>) {
    forall i, j :: 0 <= i < j < |s| ==> s[i] != s[j]
  }

  lemma SwapDistinct<T>(s: seq<T>, i: nat, j: nat)
    requires Distinct(s) && i < |s| && j < |s|
    ensures Distinct(Swap(s, i, j))
  {
  }

  /** Different draws make different orders of distinct options. */
  lemma {:induction false} ShuffleInjective<T>(s: seq<T>, d: seq<nat>, e: seq<nat>)
    requires Distinct(s) && Draws(d, |s|) && Draws(e, |s|)
    requires Shuffle(s, d) == Shuffle(s, e)
    ensures d == e
    decreases |s|
  {
    if d != [] {
      var last := |s| - 1;
      var t, u := Swap(s, last, d[0]), Swap(s, last, e[0]);
      DrawsTail(d, |s|);
      DrawsTail(e, |s|);
      var a, b := Shuffle(t[..last], d[1..]), Shuffle(u[..last], e[1..]);
      assert (a + [t[last]])[last] == (b + [u[last]])[last];
      assert s[d[0]] == s[e[0]];
      assert d[0] == e[0];
      assert a == (a + [t[last]])[..last] == (b + [u[last]])[..last] == b;
      SwapDistinct(s, last, d[0]);
      ShuffleInjective(t[..last], d[1..], e[1..]);
    }
  }

  /** The option that the order `p` puts last. */
  lemma LastChoice<T>(s: seq<T>, p: seq<T>) returns (j: nat)
    requires s != [] && multiset(p) == multiset(s)
    ensures |p| == |s| && j < |s| && s[j] == p[|s| - 1]
  {
    assert |p| == |multiset(p)| == |multiset(s)| == |s|;
    assert p[|s| - 1] in multiset(p);
    j :| 0 <= j < |s| && s[j] == p[|s| - 1];
  }

  lemma LastRemoved<T>(s: seq<T>)
    requires s != []
    ensures multiset(s[..|s| - 1]) == multiset(s) - multiset{s[|s| - 1]}
  {
    LastSplit(s);
  }

  /** What remains to be ordered once the last place has its option. */
  lemma RestMatches<T>(s: seq<T>, p: seq<T>, t: seq<T>)
    requires s != [] && |p| == |s| == |t| && multiset(p) == multiset(s) == multiset(t)
    requires t[|s| - 1] == p[|s| - 1]
    ensures multiset(t[..|s| - 1]) == multiset(p[..|s| - 1])
  {
    LastRemoved(t);
    LastRemoved(p);
  }

  lemma FirstDraw(j: nat, rest: seq<nat>, n: nat)
    requires j < n && Draws(rest, n - 1)
    ensures Draws([j] + rest, n) && ([j] + rest)[1..] == rest
  {
    forall k | 0 <= k < |[j] + rest| ensures ([j] + rest)[k] < n - k {
      assert k > 0 ==> ([j] + rest)[k] == rest[k - 1];
    }
  }

  /** Every order of the options is made by some draws. */
  lemma {:induction false} ShuffleSurjective<T>(s: seq<T>, p: seq<T>) returns (d: seq<nat>)
    requires s != [] && multiset(p) == multiset(s)
    ensures Draws(d, |s|) && Shuffle(s, d) == p
    decreases |s|
  {
    var last := |s| - 1;
    var j := LastChoice(s, p);
    if last == 0 {
      d := [];
    } else {
      RestMatches(s, p, Swap(s, last, j));
      var front := Swap(s, last, j)[..last];
      var rest := ShuffleSurjective(front, p[..last]);
      d := [j] + rest;
      FirstDraw(j, rest, |s|);
      LastSplit(p);
    }
  }

  /**
   With fair draws the shuffle is fair: among the draw sequences, all equally likely, exactly one makes any
   given order of distinct options.
   */
  lemma ShuffleUniform<T>(s: seq<T>, p: seq<T>)
    requires s != [] && Distinct(s) && multiset(p) == multiset(s)
    ensures exists d :: Draws(d, |s|) && Shuffle(s, d) == p
                        && forall e :: Draws(e, |s|) && Shuffle(s, e) == p ==> e == d
  {
    var d := ShuffleSurjective(s, p);
    forall e | Draws(e, |s|) && Shuffle(s, e) == p ensures e == d {
      ShuffleInjective(s, d, e);
    }
  }

  // ---------------------------------------------------------------------------------------------
  // The program
  // ---------------------------------------------------------------------------------------------

  /** The final order, seen from the middle of the loop: places above `i` are settled, `left` is still to be used. */
  function Outcome<T>(now: seq<T>, i: nat, left: seq<nat>): seq<T>
    requires i < |now| && Draws(left, i + 1)
  {
    Shuffle(now[..i + 1], left) + now[i + 1..]
  }

  lemma OutcomeStep<T>(a: seq<T>, i: nat, d: seq<nat>)
    requires 0 < i < |a| && Draws(d, i + 1)
    ensures d[0] <= i && Draws(d[1..], i)
    ensures Outcome(Swap(a, i, d[0]), i - 1, d[1..]) == Outcome(a, i, d)
  {
    DrawsTail(d, i + 1);
    var b, t := Swap(a, i, d[0]), Swap(a[..i + 1], i, d[0]);
    assert t[..i] == b[..i] && b[i..] == [t[i]] + a[i + 1..];
    var rest := Shuffle(t[..i], d[1..]);
    assert rest + [t[i]] + a[i + 1..] == rest + ([t[i]] + a[i + 1..]);
  }

  lemma OutcomeEnds<T>(s: seq<T>, d: seq<nat>)
    requires s != []
    ensures Draws(d, |s|) ==> Outcome(s, |s| - 1, d) == Shuffle(s, d)
    ensures Outcome(s, 0, []) == s
  {
    assert s[..|s|] == s && s[..1] + s[1..] == s;
  }

  /** The body of the shuffle's loop: two options change places, and the index of the right one follows. */
  method Exchange<T>(options: array<T>, i: nat, j: nat, index: nat) returns (index': nat)
    requires i < options.Length && j < options.Length && index < options.Length
    modifies options
    ensures options[..] == Swap(old(options[..]), i, j)
    ensures index' < options.Length && options[index'] == old(options[index])
  {
    var temp := options[i];
    options[i] := options[j];
    options[j] := temp;
    index' := if index == i then j else if index == j then i else index;
  }

  lemma DrawAt(draws: seq<nat>, i: nat)
    requires 0 < i <= |draws|
    ensures draws[|draws| - i..][0] == draws[|draws| - i]
    ensures draws[|draws| - i..][1..] == draws[|draws| - (i - 1)..]
  {
  }

  /** One turn of the loop: place `i` is settled by the draw `j`, and the order in the end stays the same. */
  method Settle<T>(options: array<T>, i: nat, j: nat, index: nat, ghost left: seq<nat>) returns (index': nat)
    requires 0 < i < options.Length && index < options.Length
    requires Draws(left, i + 1) && j == left[0]
    modifies options
    ensures Draws(left[1..], i) && Outcome(options[..], i - 1, left[1..]) == Outcome(old(options[..]), i, left)
    ensures index' < options.Length && options[index'] == old(options[index])
  {
    OutcomeStep(options[..], i, left);
    index' := Exchange(options, i, j, index);
  }

  /** shuffle_options for any number of options: in place, with the index of the right answer kept up to date. */
  method ShuffleOptions<T>(options: array<T>, correct: nat, draws: seq<nat>) returns (index: nat)
    requires correct < options.Length && Draws(draws, options.Length)
    modifies options
    ensures options[..] == Shuffle(old(options[..]), draws)
    ensures index < options.Length && options[index] == old(options[correct])
  {
    ghost var whole, left := Shuffle(options[..], draws), draws;
    ghost var text := options[correct];
    index := correct;
    var i := options.Length - 1;
    OutcomeEnds(options[..], draws);
    while i > 0
      invariant 0 <= i < options.Length
      invariant index < options.Length && options[index] == text
      invariant left == draws[|draws| - i..] && Draws(left, i + 1)
      invariant Outcome(options[..], i, left) == whole
    {
      DrawAt(draws, i);
      index := Settle(options, i, draws[|draws| - i], index, left);
      i, left := i - 1, draws[|draws| - (i - 1)..];
    }
    OutcomeEnds(options[..], []);
  }

  datatype Question = Question(options: seq<string>, correct: nat)

  /** What comes back for a question: the first byte of the reply, or the end of the connection. */
  datatype Reply = Letter(c: char) | Disconnected

  /** One round: the draws for its shuffle, and the reply. */
  datatype Round = Round(draws: seq<nat>, reply: Reply)

  predicate WellFormed(q: Question) {
    |q.options| == 4 && q.correct < 4 && Distinct(q.options)
  }

  function ToUpper(c: char): char {
    if 'a' <= c <= 'z' then c - 'a' + 'A' else c
  }

  function Choice(c: char): int {
    var ans := ToUpper(c);
    if ans == 'A' then 0 else if ans == 'B' then 1 else if ans == 'C' then 2 else if ans == 'D' then 3 else -1
  }

  /** The player's letter stands beside the right text in the question as it was shown. */
  predicate Right(q: Question, r: Round)
    requires WellFormed(q) && Draws(r.draws, 4)
  {
    && r.reply.Letter?
    && var shown := Shuffle(q.options, r.draws);
       || (r.reply.c in {'A', 'a'} && shown[0] == q.options[q.correct])
       || (r.reply.c in {'B', 'b'} && shown[1] == q.options[q.correct])
       || (r.reply.c in {'C', 'c'} && shown[2] == q.options[q.correct])
       || (r.reply.c in {'D', 'd'} && shown[3] == q.options[q.correct])
  }

  predicate Playable(quiz: seq<Question>, rounds: seq<Round>) {
    && |rounds| == |quiz|
    && (forall i :: 0 <= i < |quiz| ==> WellFormed(quiz[i]))
    && (forall i :: 0 <= i < |rounds| ==> Draws(rounds[i].draws, 4))
  }

  /** The letter that is the k-th of the alphabet, in either case, selects the k-th option shown. */
  lemma RightMeaning(q: Question, r: Round)
    requires WellFormed(q) && Draws(r.draws, 4)
    ensures Right(q, r) <==>
            r.reply.Letter? && exists k :: 0 <= k < 4 && r.reply.c in {"ABCD"[k], "abcd"[k]}
                                 && Shuffle(q.options, r.draws)[k] == q.options[q.correct]
  {
    var shown := Shuffle(q.options, r.draws);
    assert "ABCD"[0] == 'A' && "ABCD"[1] == 'B' && "ABCD"[2] == 'C' && "ABCD"[3] == 'D';
    assert "abcd"[0] == 'a' && "abcd"[1] == 'b' && "abcd"[2] == 'c' && "abcd"[3] == 'd';
  }

  ghost function Below(p: nat -> bool, k: nat): set<nat> {
    set i: nat | i < k && p(i)
  }

  lemma BelowNext(p: nat -> bool, k: nat)
    ensures |Below(p, k + 1)| == |Below(p, k)| + if p(k) then 1 else 0
  {
    assert Below(p, k + 1) == if p(k) then Below(p, k) + {k} else Below(p, k);
  }

  /** Whether the i-th question was answered, and rightly, before the player left. */
  ghost function Scores(quiz: seq<Question>, rounds: seq<Round>): nat -> bool
    requires Playable(quiz, rounds)
  {
    (i: nat) => i < |quiz| && (forall j :: 0 <= j <= i ==> rounds[j].reply.Letter?) && Right(quiz[i], rounds[i])
  }

  /** The questions before the k-th that were answered rightly, all of them before the player left. */
  ghost function RightUpTo(quiz: seq<Question>, rounds: seq<Round>, k: nat): set<nat>
    requires Playable(quiz, rounds)
  {
    Below(Scores(quiz, rounds), k)
  }

  lemma OneMore(quiz: seq<Question>, rounds: seq<Round>, i: nat)
    requires Playable(quiz, rounds) && i < |quiz| && forall j :: 0 <= j <= i ==> rounds[j].reply.Letter?
    ensures |RightUpTo(quiz, rounds, i + 1)| ==
            |RightUpTo(quiz, rounds, i)| + if Right(quiz[i], rounds[i]) then 1 else 0
  {
    BelowNext(Scores(quiz, rounds), i);
  }

  lemma RightUpToEnd(quiz: seq<Question>, rounds: seq<Round>)
    requires Playable(quiz, rounds)
    ensures RightUpTo(quiz, rounds, |quiz|) ==
            set i: nat | i < |quiz| && (forall j :: 0 <= j <= i ==> rounds[j].reply.Letter?) && Right(quiz[i], rounds[i])
  {
  }

  lemma NoneAfter(quiz: seq<Question>, rounds: seq<Round>, i: nat)
    requires Playable(quiz, rounds) && i < |quiz| && rounds[i].reply.Disconnected?
    ensures RightUpTo(quiz, rounds, |quiz|) == RightUpTo(quiz, rounds, i)
  {
    assert !rounds[i].reply.Letter?;
  }

  lemma {:induction false} ShuffleDistinct<T>(s: seq<T>, d: seq<nat>)
    requires Distinct(s) && Draws(d, |s|)
    ensures Distinct(Shuffle(s, d))
    decreases |s|
  {
    if d != [] {
      var last := |s| - 1;
      var t := Swap(s, last, d[0]);
      DrawsTail(d, |s|);
      SwapDistinct(s, last, d[0]);
      ShuffleDistinct(t[..last], d[1..]);
      ShufflePermutes(t[..last], d[1..]);
      var front := Shuffle(t[..last], d[1..]);
      forall i | 0 <= i < |front| ensures front[i] != t[last] {
        assert front[i] in multiset(front);
        assert front[i] in multiset(t[..last]);
      }
    }
  }

  /** Since the options differ, the tracked index is where the right text stands, and nowhere else. */
  lemma TrackedIndex(q: Question, r: Round, index: nat)
    requires WellFormed(q) && Draws(r.draws, 4) && r.reply.Letter?
    requires index < 4 && Shuffle(q.options, r.draws)[index] == q.options[q.correct]
    ensures Choice(r.reply.c) == index <==> Right(q, r)
  {
    ShuffleDistinct(q.options, r.draws);
  }

  method AskQuestion(q: Question, r: Round) returns (right: bool)
    requires WellFormed(q) && Draws(r.draws, 4) && r.reply.Letter?
    ensures right <==> Right(q, r)
  {
    var options := new string[4](i requires 0 <= i < 4 => q.options[i]);
    assert options[..] == q.options;
    var correct := ShuffleOptions(options, q.correct, r.draws);
    TrackedIndex(q, r, correct);
    right := Choice(r.reply.c) == correct;
  }

  /**
   handle_client: the score sent at the end is the number of questions that were answered rightly before the player
   left, whatever was drawn.
   */
  method HandleClient(quiz: seq<Question>, rounds: seq<Round>) returns (score: nat)
    requires Playable(quiz, rounds)
    ensures score == |set i: nat | i < |quiz| && (forall j :: 0 <= j <= i ==> rounds[j].reply.Letter?)
                                   && Right(quiz[i], rounds[i])|
  {
    score := 0;
    var i := 0;
    RightUpToEnd(quiz, rounds);
    while i < |quiz|
      invariant 0 <= i <= |quiz| && score == |RightUpTo(quiz, rounds, i)|
      invariant forall j :: 0 <= j < i ==> rounds[j].reply.Letter?
    {
      if rounds[i].reply.Disconnected? {
        NoneAfter(quiz, rounds, i);
        return;
      }
      var right := AskQuestion(quiz[i], rounds[i]);
      OneMore(quiz, rounds, i);
      if right {
        score := score + 1;
      }
      i := i + 1;
    }
  }
}
