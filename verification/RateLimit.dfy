/**
 The lock-free interval limiter: one 64-bit word holding a window number and a count, and a
 compare-and-swap loop that many threads run on it at once.
 */
module RateLimit {
  const HALF: nat := 0x1_0000_0000

  type Word = x: nat | x < 0x1_0000_0000_0000_0000
  type Half = x: nat | x < 0x1_0000_0000

  function WindowOf(x: Word): Half { x / HALF }

  function CountOf(x: Word): Half { x % HALF }

  function Pack(window: Half, count: Half): (x: Word)
    ensures WindowOf(x) == window && CountOf(x) == count
  {
    window * HALF + count
  }

  /** One check taken as a single indivisible step. */
  function AtomicCheck(x: Word, window: Half, max: Half): (Word, bool)
  {
    if WindowOf(x) != window then (Pack(window, 1), true)
    else if CountOf(x) >= max then (x, false)
    else (Pack(window, CountOf(x) + 1), true)
  }

  /** How many more checks of one window a word admits. */
  function Budget(x: Word, window: Half, max: Half): nat
  {
    if WindowOf(x) != window then if max == 0 then 1 else max
    else if CountOf(x) >= max then 0
    else max - CountOf(x)
  }

  // ----- One object, one thread -----

  class IntervalRateLimiter {
    const max: Half
    const interval: nat
    var state: Word

    constructor (max: Half, interval: nat)
      requires interval > 0
      ensures this.max == max && this.interval == interval && state == 0
    {
      this.max, this.interval, state := max, interval, 0;
    }

    /** compare_exchange_weak: it may fail although the values agree. */
    method CompareExchangeWeak(expected: Word, desired: Word, spurious: bool) returns (ok: bool, seen: Word)
      modifies this
      ensures ok <==> old(state) == expected && !spurious
      ensures state == if ok then desired else old(state)
      ensures seen == if ok then expected else old(state)
    {
      ok := state == expected && !spurious;
      seen := if ok then expected else state;
      if ok {
        state := desired;
      }
    }

    /** A check that nobody disturbs, however often its exchanges fail for no reason. */
    method Check(now: nat, failures: nat) returns (allowed: bool)
      requires interval > 0
      modifies this
      ensures (state, allowed) == AtomicCheck(old(state), (now / interval) % HALF, max)
    {
      var window: Half := (now / interval) % HALF;
      var expected := state;
      var left := failures;
      while true
        invariant state == old(state) == expected
        decreases left
      {
        var ok;
        if WindowOf(expected) != window {
          ok, expected := CompareExchangeWeak(expected, Pack(window, 1), left > 0);
        } else {
          if CountOf(expected) >= max {
            return false;
          }
          ok, expected := CompareExchangeWeak(expected, Pack(window, CountOf(expected) + 1), left > 0);
        }
        if ok {
          return true;
        }
        left := left - 1;
      }
    }
  }

  // ----- Many threads -----

  /**
   One call of check.  `at` indexes the history of the word: where a looping call last read it,
   or where a finished call took effect.
   */
  datatype Thread =
    | Ready(window: Half)
    | Looping(window: Half, expected: Word, at: nat)
    | Done(window: Half, ok: bool, at: nat)

  /** All values that the word has had, and the calls under way. */
  datatype State = State(history: seq<Word>, threads: seq<Thread>)

  datatype Event = Load(t: nat) | Turn(t: nat, spurious: bool)

  function Now(s: State): Word
    requires s.history != []
  {
    s.history[|s.history| - 1]
  }

  predicate Enabled(s: State, e: Event)
  {
    && s.history != [] && e.t < |s.threads|
    && match e
       case Load(t) => s.threads[t].Ready?
       case Turn(t, _) => s.threads[t].Looping?
  }

  /** The exchange of one turn of the loop: it writes only over the value it expected. */
  function Exchange(s: State, t: nat, desired: Word, spurious: bool): State
    requires s.history != [] && t < |s.threads| && s.threads[t].Looping?
  {
    var c := s.threads[t];
    var last := |s.history| - 1;
    if Now(s) == c.expected && !spurious then
      State(s.history + [desired], s.threads[t := Done(c.window, true, last)])
    else
      s.(threads := s.threads[t := Looping(c.window, Now(s), last)])
  }

  function Step(s: State, e: Event, max: Half): (s': State)
    requires Enabled(s, e)
    ensures s'.history != [] && |s'.threads| == |s.threads|
  {
    match e
    case Load(t) => s.(threads := s.threads[t := Looping(s.threads[t].window, Now(s), |s.history| - 1)])
    case Turn(t, spurious) =>
      var c := s.threads[t];
      if WindowOf(c.expected) != c.window then Exchange(s, t, Pack(c.window, 1), spurious)
      else if CountOf(c.expected) >= max then s.(threads := s.threads[t := Done(c.window, false, c.at)])
      else Exchange(s, t, Pack(c.window, CountOf(c.expected) + 1), spurious)
  }

  ghost predicate Run(s: State, es: seq<Event>, max: Half)
    decreases |es|
  {
    es == [] || (Enabled(s, es[0]) && Run(Step(s, es[0], max), es[1..], max))
  }

  function After(s: State, es: seq<Event>, max: Half): (s': State)
    requires s.history != [] && Run(s, es, max)
    ensures s'.history != [] && |s'.threads| == |s.threads|
    decreases |es|
  {
    if es == [] then s else After(Step(s, es[0], max), es[1..], max)
  }

  /** A finished call took effect as one indivisible check of the value at its moment. */
  predicate TookEffect(history: seq<Word>, c: Thread, max: Half)
  {
    match c
    case Ready(_) => true
    case Looping(_, e, k) => k < |history| && history[k] == e
    case Done(w, true, k) => k + 1 < |history| && AtomicCheck(history[k], w, max) == (history[k + 1], true)
    case Done(w, false, k) => k < |history| && AtomicCheck(history[k], w, max) == (history[k], false)
  }

  predicate Won(c: Thread) { c.Done? && c.ok }

  /** Some call succeeded at this moment. */
  ghost predicate HasCause(threads: seq<Thread>, k: nat)
  {
    exists t :: 0 <= t < |threads| && Won(threads[t]) && threads[t].at == k
  }

  /** Every call looks like one atomic check, and every change of the word is one successful call. */
  ghost predicate Linearizable(s: State, max: Half)
  {
    && s.history != []
    && (forall t :: 0 <= t < |s.threads| ==> TookEffect(s.history, s.threads[t], max))
    && (forall k :: 0 <= k < |s.history| - 1 ==> HasCause(s.threads, k))
    && (forall t, u :: 0 <= t < u < |s.threads| && Won(s.threads[t]) && Won(s.threads[u]) ==>
                         s.threads[t].at != s.threads[u].at)
  }

  function Successes(threads: seq<Thread>): (n: nat)
    ensures n <= |threads|
  {
    if threads == [] then 0
    else (if Won(threads[0]) then 1 else 0) + Successes(threads[1..])
  }

  lemma {:induction false} SuccessesUpdate(threads: seq<Thread>, t: nat, c: Thread)
    requires t < |threads| && !Won(threads[t])
    ensures Successes(threads[t := c]) == Successes(threads) + if Won(c) then 1 else 0
  {
    if t == 0 {
      assert threads[t := c][1..] == threads[1..];
    } else {
      assert threads[t := c][1..] == threads[1..][t - 1 := c];
      SuccessesUpdate(threads[1..], t - 1, c);
    }
  }

  lemma TookEffectStays(history: seq<Word>, x: Word, c: Thread, max: Half)
    requires TookEffect(history, c, max)
    ensures TookEffect(history + [x], c, max)
  {
  }

  lemma ExchangeKeeps(s: State, t: nat, spurious: bool, max: Half)
    requires Linearizable(s, max) && t < |s.threads| && s.threads[t].Looping?
    requires AtomicCheck(s.threads[t].expected, s.threads[t].window, max).1
    ensures
      var s' := Exchange(s, t, AtomicCheck(s.threads[t].expected, s.threads[t].window, max).0, spurious);
      Linearizable(s', max) && Successes(s'.threads) - Successes(s.threads) == |s'.history| - |s.history|
  {
    var c := s.threads[t];
    var desired := AtomicCheck(c.expected, c.window, max).0;
    var s' := Exchange(s, t, desired, spurious);
    var last := |s.history| - 1;
    SuccessesUpdate(s.threads, t, s'.threads[t]);
    if Now(s) == c.expected && !spurious {
      forall u | 0 <= u < |s.threads| ensures TookEffect(s'.history, s'.threads[u], max) {
        TookEffectStays(s.history, desired, s.threads[u], max);
      }
      forall k | 0 <= k < |s'.history| - 1 ensures HasCause(s'.threads, k) {
        if k == last {
          assert Won(s'.threads[t]);
        } else {
          CauseStays(s.threads, t, s'.threads[t], k);
        }
      }
    } else {
      SameSuccesses(s, s', t, max);
    }
  }

  /** A step that finishes no call successfully and writes nothing. */
  lemma SameSuccesses(s: State, s': State, t: nat, max: Half)
    requires Linearizable(s, max) && t < |s.threads| && !Won(s.threads[t])
    requires s'.history == s.history && |s'.threads| == |s.threads| && s'.threads == s.threads[t := s'.threads[t]]
    requires !Won(s'.threads[t]) && TookEffect(s.history, s'.threads[t], max)
    ensures Linearizable(s', max)
  {
    forall k | 0 <= k < |s'.history| - 1 ensures HasCause(s'.threads, k) {
      CauseStays(s.threads, t, s'.threads[t], k);
    }
  }

  lemma CauseStays(threads: seq<Thread>, t: nat, c: Thread, k: nat)
    requires HasCause(threads, k) && t < |threads| && !Won(threads[t])
    ensures HasCause(threads[t := c], k)
  {
    var u :| 0 <= u < |threads| && Won(threads[u]) && threads[u].at == k;
    assert threads[t := c][u] == threads[u];
  }

  lemma StepKeeps(s: State, e: Event, max: Half)
    requires Linearizable(s, max) && Enabled(s, e)
    ensures
      var s' := Step(s, e, max);
      && Linearizable(s', max)
      && Successes(s'.threads) - Successes(s.threads) == |s'.history| - |s.history|
      && s.history <= s'.history && |s'.threads| == |s.threads|
      && forall t :: 0 <= t < |s.threads| ==> s'.threads[t].window == s.threads[t].window
  {
    var s' := Step(s, e, max);
    var c := s.threads[e.t];
    if e.Turn? && AtomicCheck(c.expected, c.window, max).1 {
      ExchangeKeeps(s, e.t, e.spurious, max);
    } else {
      assert TookEffect(s.history, c, max);
      SameSuccesses(s, s', e.t, max);
      SuccessesUpdate(s.threads, e.t, s'.threads[e.t]);
    }
  }

  predicate AllDone(s: State) { forall t :: 0 <= t < |s.threads| ==> s.threads[t].Done? }

  predicate AllWon(s: State) { forall t :: 0 <= t < |s.threads| ==> Won(s.threads[t]) }

  ghost predicate Fresh(s: State)
  {
    |s.history| == 1 && forall t :: 0 <= t < |s.threads| ==> s.threads[t].Ready?
  }

  lemma {:induction false} NoneYet(threads: seq<Thread>)
    requires forall t :: 0 <= t < |threads| ==> threads[t].Ready?
    ensures Successes(threads) == 0
  {
    if threads != [] {
      NoneYet(threads[1..]);
    }
  }

  lemma {:induction false} RunKeeps(s: State, es: seq<Event>, max: Half)
    requires Linearizable(s, max) && Run(s, es, max)
    ensures
      var s' := After(s, es, max);
      && Linearizable(s', max)
      && Successes(s'.threads) - Successes(s.threads) == |s'.history| - |s.history|
      && s.history <= s'.history && |s'.threads| == |s.threads|
      && forall t :: 0 <= t < |s.threads| ==> s'.threads[t].window == s.threads[t].window
    decreases |es|
  {
    if es != [] {
      StepKeeps(s, es[0], max);
      RunKeeps(Step(s, es[0], max), es[1..], max);
    }
  }

  /**
   Whatever the interleaving, the windows of the calls and the spurious failures: the loop
   behaves as indivisible checks, one per call, and the word changes only by them.
   */
  lemma LoopIsAtomic(s: State, es: seq<Event>, max: Half)
    requires Fresh(s) && Run(s, es, max)
    ensures Linearizable(After(s, es, max), max)
    ensures |After(s, es, max).history| == 1 + Successes(After(s, es, max).threads)
    ensures After(s, es, max).history[0] == s.history[0]
  {
    NoneYet(s.threads);
    assert Linearizable(s, max);
    RunKeeps(s, es, max);
  }

  // ----- Calls of one window -----

  ghost predicate OneWindow(s: State, window: Half)
  {
    forall t :: 0 <= t < |s.threads| ==> s.threads[t].window == window
  }

  /** In one window the history counts up from the first value, one at a time. */
  lemma {:induction false} HistoryCounts(s: State, window: Half, max: Half, k: nat)
    requires Linearizable(s, max) && OneWindow(s, window) && k < |s.history|
    ensures Budget(s.history[k], window, max) + k == Budget(s.history[0], window, max)
    ensures k > 0 ==> WindowOf(s.history[k]) == window
    ensures k > 0 && max > 0 ==> CountOf(s.history[k]) <= max
    decreases k
  {
    if k > 0 {
      HistoryCounts(s, window, max, k - 1);
      assert HasCause(s.threads, k - 1);
      var t :| 0 <= t < |s.threads| && Won(s.threads[t]) && s.threads[t].at == k - 1;
      assert TookEffect(s.history, s.threads[t], max);
    }
  }

  /**
   Whatever the windows of the calls: no value that the word ever has counts more than the maximum, so
   the count never carries into the window half, which is that of the start or of some call.
   */
  lemma CountStaysBelowMax(s: State, es: seq<Event>, max: Half, k: nat)
    requires Fresh(s) && Run(s, es, max) && max > 0 && CountOf(s.history[0]) <= max
    requires k < |After(s, es, max).history|
    ensures CountOf(After(s, es, max).history[k]) <= max
    ensures k > 0 ==> exists t :: 0 <= t < |s.threads| && s.threads[t].window == WindowOf(After(s, es, max).history[k])
  {
    LoopIsAtomic(s, es, max);
    RunKeeps(s, es, max);
    CountsAreBounded(After(s, es, max), max, k);
  }

  lemma {:induction false} CountsAreBounded(s: State, max: Half, k: nat)
    requires Linearizable(s, max) && max > 0 && CountOf(s.history[0]) <= max && k < |s.history|
    ensures CountOf(s.history[k]) <= max
    ensures k > 0 ==> exists t :: 0 <= t < |s.threads| && s.threads[t].window == WindowOf(s.history[k])
  {
    if k > 0 {
      CountsAreBounded(s, max, k - 1);
      assert HasCause(s.threads, k - 1);
      var t :| 0 <= t < |s.threads| && Won(s.threads[t]) && s.threads[t].at == k - 1;
      assert TookEffect(s.history, s.threads[t], max);
    }
  }

  lemma WindowStays(s: State, es: seq<Event>, max: Half, window: Half)
    requires Fresh(s) && Run(s, es, max) && OneWindow(s, window)
    ensures OneWindow(After(s, es, max), window) && |After(s, es, max).threads| == |s.threads|
  {
    assert Linearizable(s, max);
    RunKeeps(s, es, max);
  }

  lemma {:induction false} AllSucceeded(threads: seq<Thread>)
    requires forall t :: 0 <= t < |threads| ==> Won(threads[t])
    ensures Successes(threads) == |threads|
  {
    if threads != [] {
      AllSucceeded(threads[1..]);
    }
  }

  lemma {:induction false} SomeFailed(threads: seq<Thread>, t: nat)
    requires t < |threads| && !Won(threads[t])
    ensures Successes(threads) < |threads|
  {
    if t > 0 {
      SomeFailed(threads[1..], t - 1);
    }
  }

  /** Once all calls of one window are through, exactly as many were admitted as the word had room for. */
  lemma ExactlyTheBudget(s: State, es: seq<Event>, max: Half, window: Half)
    requires Fresh(s) && Run(s, es, max) && OneWindow(s, window)
    requires AllDone(After(s, es, max))
    ensures
      var n, room := |s.threads|, Budget(s.history[0], window, max);
      Successes(After(s, es, max).threads) == if n < room then n else room
  {
    var s' := After(s, es, max);
    LoopIsAtomic(s, es, max);
    WindowStays(s, es, max, window);
    HistoryCounts(s', window, max, |s'.history| - 1);
    if t :| 0 <= t < |s'.threads| && !Won(s'.threads[t]) {
      SomeFailed(s'.threads, t);
      assert TookEffect(s'.history, s'.threads[t], max);
      HistoryCounts(s', window, max, s'.threads[t].at);
    } else {
      AllSucceeded(s'.threads);
    }
  }

  /** The count that a word holds for a window. */
  function CountIn(x: Word, window: Half): nat
  {
    if WindowOf(x) == window then CountOf(x) else 0
  }

  /**
   The limit as promised, at most max per window, is kept by n calls of one window exactly
   unless the maximum is zero, the word holds another window and there is a call at all: the
   call that opens a window is never counted against the maximum.
   */
  lemma LimitHolds(s: State, es: seq<Event>, max: Half, window: Half)
    requires Fresh(s) && Run(s, es, max) && OneWindow(s, window)
    requires AllDone(After(s, es, max))
    requires CountIn(s.history[0], window) <= max
    ensures
      var n, room := |s.threads|, max - CountIn(s.history[0], window);
      Successes(After(s, es, max).threads) == (if n < room then n else room)
      <==> !(max == 0 && n > 0 && WindowOf(s.history[0]) != window)
  {
    ExactlyTheBudget(s, es, max, window);
  }

  /**
   With calls of different windows in flight the limit can be passed: a call that computed its
   window early and runs late puts the old window back.  Here two of window 1 pass a limit of 1.
   */
  lemma LateCallsReopenTheirWindow()
    ensures exists s, es ::
              && Fresh(s) && Run(s, es, 1) && s.threads == [Ready(1), Ready(2), Ready(1)]
              && AllWon(After(s, es, 1))
  {
    var s := State([0], [Ready(1), Ready(2), Ready(1)]);
    var s1 := Step(s, Load(0), 1);
    var s2 := Step(s1, Turn(0, false), 1);
    var s3 := Step(s2, Load(1), 1);
    var s4 := Step(s3, Turn(1, false), 1);
    var s5 := Step(s4, Load(2), 1);
    var s6 := Step(s5, Turn(2, false), 1);
    var e5 := [Turn(2, false)];
    var e4 := [Load(2)] + e5;
    var e3 := [Turn(1, false)] + e4;
    var e2 := [Load(1)] + e3;
    var e1 := [Turn(0, false)] + e2;
    var e0 := [Load(0)] + e1;
    assert e0[1..] == e1 && e1[1..] == e2 && e2[1..] == e3 && e3[1..] == e4 && e4[1..] == e5 && e5[1..] == [];
    assert Run(s6, [], 1);
    assert Run(s5, e5, 1) && After(s5, e5, 1) == s6;
    assert Run(s4, e4, 1) && After(s4, e4, 1) == s6;
    assert Run(s3, e3, 1) && After(s3, e3, 1) == s6;
    assert Run(s2, e2, 1) && After(s2, e2, 1) == s6;
    assert Run(s1, e1, 1) && After(s1, e1, 1) == s6;
    assert Run(s, e0, 1) && After(s, e0, 1) == s6;
    assert Fresh(s);
  }
}
