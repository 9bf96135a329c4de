/**
 The interval limiter with calls of several windows in flight: exactly when it keeps its limit
 whatever the scheduling.
 */
module RateLimitWindows {
  import opened RateLimit

  // ----- Counting calls -----

  function Count(threads: seq<Thread>, p: Thread -> bool): (n: nat)
    ensures n <= |threads|
  {
    if threads == [] then 0 else (if p(threads[0]) then 1 else 0) + Count(threads[1..], p)
  }

  /** The calls that computed a window. */
  function Of(window: Half): Thread -> bool { (c: Thread) => c.window == window }

  /** Those of them that passed. */
  function Passed(window: Half): Thread -> bool { (c: Thread) => Won(c) && c.window == window }

  /** Those of them that have not begun. */
  function Waiting(window: Half): Thread -> bool { (c: Thread) => c.Ready? && c.window == window }

  function Unstarted(): Thread -> bool { (c: Thread) => c.Ready? }

  lemma {:induction false} CountUpdate(threads: seq<Thread>, t: nat, c: Thread, p: Thread -> bool)
    requires t < |threads|
    ensures Count(threads[t := c], p)
            == Count(threads, p) - (if p(threads[t]) then 1 else 0) + if p(c) then 1 else 0
  {
    if t == 0 {
      assert threads[t := c][1..] == threads[1..];
    } else {
      assert threads[t := c][1..] == threads[1..][t - 1 := c];
      CountUpdate(threads[1..], t - 1, c, p);
    }
  }

  lemma {:induction false} CountFinds(threads: seq<Thread>, p: Thread -> bool)
    ensures Count(threads, p) > 0 <==> exists t :: 0 <= t < |threads| && p(threads[t])
  {
    if threads != [] {
      CountFinds(threads[1..], p);
      assert forall t :: 0 < t < |threads| ==> threads[t] == threads[1..][t - 1];
      assert forall t :: 0 <= t < |threads[1..]| ==> threads[1..][t] == threads[t + 1];
    }
  }

  lemma {:induction false} CountBelow(a: seq<Thread>, b: seq<Thread>, p: Thread -> bool, q: Thread -> bool)
    requires |a| == |b| && forall t :: 0 <= t < |a| ==> p(a[t]) ==> q(b[t])
    ensures Count(a, p) <= Count(b, q)
  {
    if a != [] {
      CountBelow(a[1..], b[1..], p, q);
    }
  }

  lemma {:induction false} AllPassedCount(threads: seq<Thread>, window: Half)
    requires forall t :: 0 <= t < |threads| ==> threads[t].window == window
    ensures Count(threads, Passed(window)) == Successes(threads)
  {
    if threads != [] {
      AllPassedCount(threads[1..], window);
    }
  }

  // ----- Scheduling one call after the other -----

  /** No call is in the middle of its loop. */
  predicate Resting(s: State)
  {
    s.history != [] && forall t :: 0 <= t < |s.threads| ==> !s.threads[t].Looping?
  }

  /** The state after a call has run from its beginning to its end undisturbed. */
  function Served(s: State, t: nat, max: Half): State
    requires s.history != [] && t < |s.threads| && s.threads[t].Ready?
  {
    var c := s.threads[t];
    var (x, ok) := AtomicCheck(Now(s), c.window, max);
    State(if ok then s.history + [x] else s.history, s.threads[t := Done(c.window, ok, |s.history| - 1)])
  }

  lemma ServeRuns(s: State, t: nat, max: Half)
    requires s.history != [] && t < |s.threads| && s.threads[t].Ready?
    ensures Run(s, [Load(t), Turn(t, false)], max) && After(s, [Load(t), Turn(t, false)], max) == Served(s, t, max)
  {
    var c := s.threads[t];
    var loaded := Step(s, Load(t), max);
    var turned := Step(loaded, Turn(t, false), max);
    assert Enabled(s, Load(t)) && Enabled(loaded, Turn(t, false));
    assert loaded.threads[t := turned.threads[t]] == s.threads[t := turned.threads[t]];
    assert turned == Served(s, t, max);
    var rest := [Turn(t, false)];
    assert [Load(t), Turn(t, false)][1..] == rest && rest[1..] == [];
    assert Run(turned, [], max) && Run(loaded, rest, max) && After(loaded, rest, max) == turned;
  }

  lemma {:induction false} RunConcat(s: State, a: seq<Event>, b: seq<Event>, max: Half)
    requires s.history != [] && Run(s, a, max) && Run(After(s, a, max), b, max)
    ensures Run(s, a + b, max) && After(s, a + b, max) == After(After(s, a, max), b, max)
    decreases |a|
  {
    if a == [] {
      assert a + b == b;
    } else {
      assert (a + b)[0] == a[0] && (a + b)[1..] == a[1..] + b;
      RunConcat(Step(s, a[0], max), a[1..], b, max);
    }
  }

  /** What serving one waiting call does to the counts. */
  lemma ServeCounts(s: State, t: nat, max: Half, window: Half)
    requires Resting(s) && t < |s.threads| && s.threads[t].Ready?
    ensures
      var s', c := Served(s, t, max), s.threads[t];
      && Resting(s')
      && Count(s'.threads, Unstarted()) == Count(s.threads, Unstarted()) - 1
      && Count(s'.threads, Waiting(window)) == Count(s.threads, Waiting(window)) - (if c.window == window then 1 else 0)
      && Count(s'.threads, Passed(window)) == Count(s.threads, Passed(window))
           + if c.window == window && AtomicCheck(Now(s), window, max).1 then 1 else 0
  {
    var c' := Served(s, t, max).threads[t];
    CountUpdate(s.threads, t, c', Unstarted());
    CountUpdate(s.threads, t, c', Waiting(window));
    CountUpdate(s.threads, t, c', Passed(window));
  }

  /** What a run that leads on from a state has changed, as far as calls of other windows go. */
  predicate SameElsewhere(s: State, s': State, window: Half)
  {
    && |s'.threads| == |s.threads|
    && forall t :: 0 <= t < |s.threads| && s.threads[t].window != window ==> s'.threads[t] == s.threads[t]
  }

  /** As many calls of a window as the word has room for can pass one after the other. */
  lemma {:induction false} Fill(s: State, max: Half, window: Half, k: nat) returns (es: seq<Event>)
    requires Resting(s) && k <= Count(s.threads, Waiting(window)) && k <= Budget(Now(s), window, max)
    ensures Run(s, es, max) && Resting(After(s, es, max)) && SameElsewhere(s, After(s, es, max), window)
    ensures Count(After(s, es, max).threads, Passed(window)) == Count(s.threads, Passed(window)) + k
    ensures Count(After(s, es, max).threads, Waiting(window)) == Count(s.threads, Waiting(window)) - k
    ensures if k == 0 then After(s, es, max) == s else WindowOf(Now(After(s, es, max))) == window
    decreases k
  {
    if k == 0 {
      return [];
    }
    CountFinds(s.threads, Waiting(window));
    var t :| 0 <= t < |s.threads| && Waiting(window)(s.threads[t]);
    var s1 := Served(s, t, max);
    ServeRuns(s, t, max);
    ServeCounts(s, t, max, window);
    var more := Fill(s1, max, window, k - 1);
    es := [Load(t), Turn(t, false)] + more;
    RunConcat(s, [Load(t), Turn(t, false)], more, max);
  }

  /** One more call passes when the word holds another window, or a call of another window can be let in before it. */
  lemma OneMore(s: State, max: Half, window: Half) returns (es: seq<Event>)
    requires Resting(s) && Count(s.threads, Waiting(window)) > 0
    requires WindowOf(Now(s)) != window
             || exists o :: 0 <= o < |s.threads| && s.threads[o].Ready? && s.threads[o].window != window
    ensures Run(s, es, max) && Resting(After(s, es, max))
    ensures Count(After(s, es, max).threads, Passed(window)) == Count(s.threads, Passed(window)) + 1
  {
    CountFinds(s.threads, Waiting(window));
    var t :| 0 <= t < |s.threads| && Waiting(window)(s.threads[t]);
    if WindowOf(Now(s)) != window {
      ServeRuns(s, t, max);
      ServeCounts(s, t, max, window);
      return [Load(t), Turn(t, false)];
    }
    var o :| 0 <= o < |s.threads| && s.threads[o].Ready? && s.threads[o].window != window;
    var s1 := Served(s, o, max);
    ServeRuns(s, o, max);
    ServeCounts(s, o, max, window);
    ServeRuns(s1, t, max);
    ServeCounts(s1, t, max, window);
    es := [Load(o), Turn(o, false)] + [Load(t), Turn(t, false)];
    RunConcat(s, [Load(o), Turn(o, false)], [Load(t), Turn(t, false)], max);
  }

  /** The calls that are left can all be served. */
  lemma {:induction false} Complete(s: State, max: Half, window: Half) returns (es: seq<Event>)
    requires Resting(s)
    ensures Run(s, es, max) && AllDone(After(s, es, max))
    ensures Count(After(s, es, max).threads, Passed(window)) >= Count(s.threads, Passed(window))
    decreases Count(s.threads, Unstarted())
  {
    CountFinds(s.threads, Unstarted());
    if t :| 0 <= t < |s.threads| && Unstarted()(s.threads[t]) {
      ServeRuns(s, t, max);
      ServeCounts(s, t, max, window);
      var more := Complete(Served(s, t, max), max, window);
      es := [Load(t), Turn(t, false)] + more;
      RunConcat(s, [Load(t), Turn(t, false)], more, max);
    } else {
      es := [];
    }
  }

  // ----- The limit -----

  /** How many more calls of a window the promise allows. */
  function Room(x: Word, window: Half, max: Half): nat
  {
    if CountIn(x, window) < max then max - CountIn(x, window) else 0
  }

  /**
   No more calls of the window than there is room for, or no calls of other windows to put it back,
   and then either a maximum of at least one or the window already open.
   */
  predicate Bounded(s: State, window: Half, max: Half)
    requires s.history != []
  {
    || Count(s.threads, Of(window)) <= Room(s.history[0], window, max)
    || (Count(s.threads, Of(window)) == |s.threads| && (max > 0 || WindowOf(s.history[0]) == window))
  }

  lemma {:induction false} AllOfIt(threads: seq<Thread>, window: Half)
    ensures Count(threads, Of(window)) == |threads| <==> forall t :: 0 <= t < |threads| ==> threads[t].window == window
  {
    if threads != [] {
      AllOfIt(threads[1..], window);
      assert forall t :: 0 < t < |threads| ==> threads[t] == threads[1..][t - 1];
      assert forall t :: 0 <= t < |threads[1..]| ==> threads[1..][t] == threads[t + 1];
    }
  }

  lemma LimitIsKept(s: State, es: seq<Event>, max: Half, window: Half)
    requires Fresh(s) && Run(s, es, max) && AllDone(After(s, es, max)) && Bounded(s, window, max)
    ensures Count(After(s, es, max).threads, Passed(window)) <= Room(s.history[0], window, max)
  {
    var s' := After(s, es, max);
    assert Linearizable(s, max);
    RunKeeps(s, es, max);
    if Count(s.threads, Of(window)) <= Room(s.history[0], window, max) {
      CountBelow(s'.threads, s.threads, Passed(window), Of(window));
    } else {
      AllOfIt(s.threads, window);
      AllPassedCount(s'.threads, window);
      ExactlyTheBudget(s, es, max, window);
    }
  }

  lemma LimitIsPassed(s: State, max: Half, window: Half) returns (es: seq<Event>)
    requires Fresh(s) && !Bounded(s, window, max)
    ensures Run(s, es, max) && AllDone(After(s, es, max))
    ensures Count(After(s, es, max).threads, Passed(window)) > Room(s.history[0], window, max)
  {
    var room := Room(s.history[0], window, max);
    CountBelow(s.threads, s.threads, Of(window), Waiting(window));
    var a := Fill(s, max, window, room);
    var s1 := After(s, a, max);
    AllOfIt(s.threads, window);
    if WindowOf(Now(s1)) == window {
      var o :| 0 <= o < |s.threads| && s.threads[o].window != window;
      assert s1.threads[o] == s.threads[o];
    }
    var b := OneMore(s1, max, window);
    var s2 := After(s1, b, max);
    var c := Complete(s2, max, window);
    RunConcat(s1, b, c, max);
    RunConcat(s, a, b + c, max);
    es := a + (b + c);
  }

  /**
   For every set of calls, starting word and maximum: every complete run keeps the calls of a window
   within what the promise allows if and only if there are no more of them than that, or there are no
   calls of other windows (and then the maximum is not zero or the window is already open).
   */
  lemma LimitAcrossWindows(s: State, max: Half, window: Half)
    requires Fresh(s)
    ensures (forall es :: Run(s, es, max) && AllDone(After(s, es, max)) ==>
                            Count(After(s, es, max).threads, Passed(window)) <= Room(s.history[0], window, max))
            <==> Bounded(s, window, max)
  {
    if Bounded(s, window, max) {
      forall es | Run(s, es, max) && AllDone(After(s, es, max))
        ensures Count(After(s, es, max).threads, Passed(window)) <= Room(s.history[0], window, max)
      {
        LimitIsKept(s, es, max, window);
      }
    } else {
      var es := LimitIsPassed(s, max, window);
      assert Run(s, es, max) && AllDone(After(s, es, max));
    }
  }
}
