/**
 The keyed limiter: one interval limiter per key in a table whose idle entries are dropped
 now and then.  Calls are serialized by its mutex.
 */
module KeyedRateLimit {
  import opened RateLimit

  const PRUNE_EVERY: nat := 256

  datatype Entry = Entry(word: Word, lastAccess: nat, wasLimited: bool)

  datatype CheckResult = Allowed | Limited | StillLimited | Recovered

  /** One call: its key, the time read outside the mutex and the time read by the inner limiter. */
  datatype Call = Call(key: int, outer: nat, inner: nat)

  datatype Settings = Settings(max: Half, interval: nat)

  datatype Table = Table(limiters: map<int, Entry>, checks: nat)

  function Window(time: nat, interval: nat): Half
    requires interval > 0
  {
    (time / interval) % HALF
  }

  function PruneSpec(t: Table, now: nat, interval: nat): Table
  {
    if t.checks + 1 < PRUNE_EVERY then t.(checks := t.checks + 1)
    else Table(map k | k in t.limiters && now <= t.limiters[k].lastAccess + interval * 4 :: t.limiters[k], 0)
  }

  function Verdict(allowed: bool, wasLimited: bool): CheckResult
  {
    if allowed then if wasLimited then Recovered else Allowed
    else if wasLimited then StillLimited else Limited
  }

  predicate Passes(r: CheckResult) { r == Allowed || r == Recovered }

  function CheckSpec(t: Table, c: Call, s: Settings): (Table, CheckResult)
    requires s.interval > 0
  {
    var pruned := PruneSpec(t, c.outer, s.interval);
    var e := if c.key in pruned.limiters then pruned.limiters[c.key] else Entry(0, c.outer, false);
    var (word, allowed) := AtomicCheck(e.word, Window(c.inner, s.interval), s.max);
    (pruned.(limiters := pruned.limiters[c.key := Entry(word, c.outer, !allowed)]), Verdict(allowed, e.wasLimited))
  }

  class KeyedIntervalRateLimiter {
    const s: Settings
    var limiters: map<int, Entry>
    var checksSincePrune: nat

    function State(): Table
      reads this
    {
      Table(limiters, checksSincePrune)
    }

    constructor (max: Half, interval: nat)
      ensures s == Settings(max, interval) && State() == Table(map[], 0)
    {
      s, limiters, checksSincePrune := Settings(max, interval), map[], 0;
    }

    method PruneIfNeeded(now: nat)
      modifies this
      ensures State() == PruneSpec(old(State()), now, s.interval)
    {
      checksSincePrune := checksSincePrune + 1;
      if checksSincePrune < PRUNE_EVERY {
        return;
      }
      checksSincePrune := 0;
      var ttl := s.interval * 4;
      limiters := map k | k in limiters && !(now > limiters[k].lastAccess + ttl) :: limiters[k];
    }

    method CheckWithStatus(key: int, now: nat, inner: nat) returns (r: CheckResult)
      requires s.interval > 0
      modifies this
      ensures (State(), r) == CheckSpec(old(State()), Call(key, now, inner), s)
    {
      PruneIfNeeded(now);
      ghost var pruned := limiters;
      if key !in limiters {
        limiters := limiters[key := Entry(0, now, false)];
      }
      limiters := limiters[key := limiters[key].(lastAccess := now)];
      var (word, allowed) := AtomicCheck(limiters[key].word, Window(inner, s.interval), s.max);
      limiters := limiters[key := limiters[key].(word := word)];
      assert limiters == pruned[key := limiters[key]];
      var wasLimited := limiters[key].wasLimited;
      if !allowed {
        if wasLimited {
          return StillLimited;
        }
        limiters := limiters[key := limiters[key].(wasLimited := true)];
        assert limiters == pruned[key := limiters[key]];
        return Limited;
      }
      limiters := limiters[key := limiters[key].(wasLimited := false)];
      assert limiters == pruned[key := limiters[key]];
      return if wasLimited then Recovered else Allowed;
    }

    method Check(key: int, now: nat, inner: nat) returns (ok: bool)
      requires s.interval > 0
      modifies this
      ensures State() == CheckSpec(old(State()), Call(key, now, inner), s).0
      ensures ok == Passes(CheckSpec(old(State()), Call(key, now, inner), s).1)
    {
      var r := CheckWithStatus(key, now, inner);
      return r == Allowed || r == Recovered;
    }
  }

  // ----- Runs -----

  /** The table after a run of calls on a new limiter. */
  function After(calls: seq<Call>, s: Settings): Table
    requires s.interval > 0
  {
    if calls == [] then Table(map[], 0)
    else CheckSpec(After(calls[..|calls| - 1], s), calls[|calls| - 1], s).0
  }

  /** The answer to the next call after a run. */
  function Answer(calls: seq<Call>, c: Call, s: Settings): CheckResult
    requires s.interval > 0
  {
    CheckSpec(After(calls, s), c, s).1
  }

  /** What a key's own calls, and nothing else, lead to. */
  datatype Lone = Never | Seen(word: Word, outer: nat, inner: nat, denied: bool)

  function WordOf(l: Lone): Word { if l.Never? then 0 else l.word }

  predicate Denied(l: Lone) { l.Seen? && l.denied }

  /** A limiter of the key's own, to which only the key's calls are given and which is never dropped. */
  function Alone(calls: seq<Call>, key: int, s: Settings): Lone
    requires s.interval > 0
  {
    if calls == [] then Never
    else
      var before := calls[..|calls| - 1];
      var c := calls[|calls| - 1];
      if c.key != key then Alone(before, key, s)
      else
        var (word, allowed) := AtomicCheck(WordOf(Alone(before, key, s)), Window(c.inner, s.interval), s.max);
        Seen(word, c.outer, c.inner, !allowed)
  }

  /** Would a limiter of the key's own admit the call? */
  predicate AloneAdmits(calls: seq<Call>, c: Call, s: Settings)
    requires s.interval > 0
  {
    AtomicCheck(WordOf(Alone(calls, c.key, s)), Window(c.inner, s.interval), s.max).1
  }

  /**
   Serialized calls under a clock that does not run backwards, whose two clock reads are at
   most three intervals and a tick apart.
   */
  predicate Serialized(calls: seq<Call>, interval: nat)
  {
    && (forall i :: 0 <= i < |calls| ==> calls[i].outer <= calls[i].inner <= calls[i].outer + 3 * interval + 1)
    && (forall i :: 0 < i < |calls| ==> calls[i - 1].inner <= calls[i].outer)
  }

  /** The window number has not run through its 32 bits yet. */
  predicate BeforeWrap(calls: seq<Call>, interval: nat)
    requires interval > 0
  {
    forall i :: 0 <= i < |calls| ==> calls[i].inner / interval < HALF
  }

  predicate Timely(calls: seq<Call>, interval: nat)
    requires interval > 0
  {
    Serialized(calls, interval) && BeforeWrap(calls, interval)
  }

  function Horizon(calls: seq<Call>): nat
  {
    if calls == [] then 0 else calls[|calls| - 1].outer
  }

  /** The entry of a key agrees with its own limiter, or it was dropped long after the key's last call. */
  predicate Agrees(t: Table, l: Lone, key: int, horizon: nat, interval: nat)
  {
    if key in t.limiters then
      l.Seen? && t.limiters[key] == Entry(l.word, l.outer, l.denied)
    else
      l.Never? || l.outer + 4 * interval < horizon
  }

  lemma QuotientBounds(time: nat, interval: nat)
    requires interval > 0
    ensures interval * (time / interval) <= time < interval * (time / interval) + interval
  {
  }

  lemma TimesMonotone(a: int, b: int, interval: nat)
    requires a <= b
    ensures interval * a <= interval * b
  {
  }

  lemma Later(time: nat, later: nat, interval: nat)
    requires interval > 0 && time + interval <= later
    ensures time / interval < later / interval
  {
    QuotientBounds(time, interval);
    QuotientBounds(later, interval);
    if later / interval <= time / interval {
      TimesMonotone(later / interval, time / interval, interval);
      assert false;
    }
  }

  /** The window of a key's own limiter is the window of its last call. */
  lemma {:induction false} AloneWindow(calls: seq<Call>, key: int, s: Settings)
    requires s.interval > 0
    ensures
      var l := Alone(calls, key, s);
      l.Seen? ==> WindowOf(l.word) == Window(l.inner, s.interval)
                  && exists i :: 0 <= i < |calls| && calls[i] == Call(key, l.outer, l.inner)
  {
    if calls != [] {
      var n := |calls| - 1;
      AloneWindow(calls[..n], key, s);
      if calls[n].key != key {
        var l := Alone(calls, key, s);
        if l.Seen? {
          var i :| 0 <= i < n && calls[..n][i] == Call(key, l.outer, l.inner);
          assert calls[i] == Call(key, l.outer, l.inner);
        }
      } else {
        assert calls[n] == Call(key, calls[n].outer, calls[n].inner);
      }
    }
  }

  /**
   A call on a dropped key: its own limiter, had it been kept, would be in an earlier window,
   so both the kept and the new one start the window afresh.
   */
  lemma DroppedIsExpired(calls: seq<Call>, c: Call, s: Settings)
    requires s.interval > 0 && Timely(calls + [c], s.interval)
    requires
      var l := Alone(calls, c.key, s);
      l.Seen? && l.outer + 4 * s.interval < c.outer
    ensures
      var w := Window(c.inner, s.interval);
      && AtomicCheck(WordOf(Alone(calls, c.key, s)), w, s.max) == (Pack(w, 1), true)
      && AtomicCheck(0, w, s.max) == (Pack(w, 1), true)
  {
    var l := Alone(calls, c.key, s);
    LastCallIsTimely(calls, c, s);
    AloneWindow(calls, c.key, s);
    Later(l.inner, c.inner, s.interval);
    Later(0, c.inner, s.interval);
    InRange(l.inner, s.interval);
    InRange(c.inner, s.interval);
  }

  lemma InRange(time: nat, interval: nat)
    requires interval > 0 && time / interval < HALF
    ensures Window(time, interval) == time / interval
  {
  }

  lemma LastCallIsTimely(calls: seq<Call>, c: Call, s: Settings)
    requires s.interval > 0 && Timely(calls + [c], s.interval)
    ensures c.outer <= c.inner && c.inner / s.interval < HALF
    ensures
      var l := Alone(calls, c.key, s);
      l.Seen? ==> l.inner <= l.outer + 3 * s.interval + 1 && l.inner / s.interval < HALF
  {
    var l := Alone(calls, c.key, s);
    var all := calls + [c];
    assert all[|calls|] == c;
    AloneWindow(calls, c.key, s);
    if l.Seen? {
      var i :| 0 <= i < |calls| && calls[i] == Call(c.key, l.outer, l.inner);
      assert all[i] == calls[i];
    }
  }

  lemma TimelyPrefix(calls: seq<Call>, n: nat, interval: nat)
    requires interval > 0 && Timely(calls, interval) && n <= |calls|
    ensures Timely(calls[..n], interval)
  {
  }

  /** The table agrees with every key's own limiter, at every point of every run. */
  lemma {:induction false} TableAgrees(calls: seq<Call>, key: int, s: Settings)
    requires s.interval > 0 && Timely(calls, s.interval)
    ensures Agrees(After(calls, s), Alone(calls, key, s), key, Horizon(calls), s.interval)
  {
    if calls != [] {
      var n := |calls| - 1;
      var before, c := calls[..n], calls[n];
      assert calls == before + [c];
      TimelyPrefix(calls, n, s.interval);
      TableAgrees(before, key, s);
      var l := Alone(before, key, s);
      if c.key == key && l.Seen? && l.outer + 4 * s.interval < c.outer {
        DroppedIsExpired(before, c, s);
      }
      assert Horizon(before) <= c.outer;
    }
  }

  /**
   Pruning is invisible and keys are independent: in every timely run, whether a call passes is
   what a limiter of the key's own would say, one that is never dropped and that sees no other key.
   */
  lemma PruningIsInvisible(calls: seq<Call>, c: Call, s: Settings)
    requires s.interval > 0 && Timely(calls + [c], s.interval)
    ensures Passes(Answer(calls, c, s)) <==> AloneAdmits(calls, c, s)
  {
    var all := calls + [c];
    assert all[..|calls|] == calls;
    TimelyPrefix(all, |calls|, s.interval);
    TableAgrees(calls, c.key, s);
    var l := Alone(calls, c.key, s);
    if l.Seen? && l.outer + 4 * s.interval < c.outer {
      DroppedIsExpired(calls, c, s);
    }
    if calls != [] {
      assert all[|calls| - 1] == calls[|calls| - 1] && all[|calls|] == c;
    }
  }

  /** The key's entry is dropped by this call or was dropped before it. */
  predicate Dropped(calls: seq<Call>, c: Call, s: Settings)
    requires s.interval > 0
  {
    c.key !in PruneSpec(After(calls, s), c.outer, s.interval).limiters
  }

  /**
   The status, on the other hand, shows pruning, in one way only: it is the verdict on the key's
   own history unless the key was limited when it was dropped, and then the first call afterwards
   reads Allowed where it would have read Recovered.
   */
  lemma StatusShowsPruning(calls: seq<Call>, c: Call, s: Settings)
    requires s.interval > 0 && Timely(calls + [c], s.interval)
    ensures
      var own := Verdict(AloneAdmits(calls, c, s), Denied(Alone(calls, c.key, s)));
      && (Answer(calls, c, s) == own <==> !(Denied(Alone(calls, c.key, s)) && Dropped(calls, c, s)))
      && (Answer(calls, c, s) != own ==> own == Recovered && Answer(calls, c, s) == Allowed)
  {
    var all := calls + [c];
    assert all[..|calls|] == calls;
    TimelyPrefix(all, |calls|, s.interval);
    TableAgrees(calls, c.key, s);
    var l := Alone(calls, c.key, s);
    if l.Seen? && l.outer + 4 * s.interval < c.outer {
      DroppedIsExpired(calls, c, s);
    }
    if calls != [] {
      assert all[|calls| - 1] == calls[|calls| - 1] && all[|calls|] == c;
    }
  }

  // ----- Streaks -----

  /** The last call of a key in a run, or -1. */
  function LastOf(calls: seq<Call>, key: int): (i: int)
    ensures -1 <= i < |calls|
    ensures i >= 0 ==> calls[i].key == key
    ensures forall j :: i < j < |calls| ==> calls[j].key != key
  {
    if calls == [] then -1
    else if calls[|calls| - 1].key == key then |calls| - 1
    else LastOf(calls[..|calls| - 1], key)
  }

  lemma {:induction false} DeniedIsTheLastAnswer(calls: seq<Call>, key: int, s: Settings)
    requires s.interval > 0 && Timely(calls, s.interval)
    ensures
      var i := LastOf(calls, key);
      Denied(Alone(calls, key, s)) <==> i >= 0 && !Passes(Answer(calls[..i], calls[i], s))
  {
    if calls != [] {
      var n := |calls| - 1;
      TimelyPrefix(calls, n, s.interval);
      if calls[n].key == key {
        assert calls == calls[..n] + [calls[n]];
        PruningIsInvisible(calls[..n], calls[n], s);
      } else {
        DeniedIsTheLastAnswer(calls[..n], key, s);
        var i := LastOf(calls, key);
        if i >= 0 {
          assert calls[..n][..i] == calls[..i];
        }
      }
    }
  }

  /**
   A denial reads Limited exactly when the key's previous call, if any, passed, so once in a
   streak of denials; a passing call reads Recovered exactly when the key's previous call was
   denied and its entry has not been dropped meanwhile.
   */
  lemma OncePerStreak(calls: seq<Call>, c: Call, s: Settings)
    requires s.interval > 0 && Timely(calls + [c], s.interval)
    ensures
      var i := LastOf(calls, c.key);
      var streak := i >= 0 && !Passes(Answer(calls[..i], calls[i], s));
      && (Answer(calls, c, s) == Limited <==> !Passes(Answer(calls, c, s)) && !streak)
      && (Answer(calls, c, s) == StillLimited <==> !Passes(Answer(calls, c, s)) && streak)
      && (Answer(calls, c, s) == Recovered <==> Passes(Answer(calls, c, s)) && streak && !Dropped(calls, c, s))
  {
    assert (calls + [c])[..|calls|] == calls;
    TimelyPrefix(calls + [c], |calls|, s.interval);
    DeniedIsTheLastAnswer(calls, c.key, s);
    PruningIsInvisible(calls, c, s);
    StatusShowsPruning(calls, c, s);
  }

  // ----- Which keys the table holds -----

  /** The call at this place is one that prunes. */
  predicate Prunes(i: nat) { (i + 1) % 256 == 0 }

  lemma {:induction false} ChecksAreCounted(calls: seq<Call>, s: Settings)
    requires s.interval > 0
    ensures After(calls, s).checks == |calls| % 256
  {
    if calls != [] {
      ChecksAreCounted(calls[..|calls| - 1], s);
    }
  }

  /** No pruning call since the key's last one came more than four intervals after it. */
  ghost predicate NeverLongIdle(calls: seq<Call>, last: int, interval: nat)
    requires 0 <= last < |calls|
  {
    forall i :: last < i < |calls| && Prunes(i) ==> calls[i].outer <= calls[last].outer + 4 * interval
  }

  lemma HeldAfterCall(t: Table, c: Call, key: int, s: Settings)
    requires s.interval > 0
    ensures
      var after := CheckSpec(t, c, s).0.limiters;
      && (key in after <==> key == c.key || (key in t.limiters
                            && (t.checks + 1 >= 256 ==> c.outer <= t.limiters[key].lastAccess + 4 * s.interval)))
      && (key in after ==> after[key].lastAccess == if key == c.key then c.outer else t.limiters[key].lastAccess)
  {
    hide AtomicCheck, Window;
  }

  /**
   Over every run, whatever the times, the table holds exactly the keys that were seen and that no 256th
   call has found idle for more than four intervals since; each entry has the time of its key's last call.
   */
  lemma {:induction false} TableHoldsIff(calls: seq<Call>, key: int, s: Settings)
    requires s.interval > 0
    ensures
      var t, last := After(calls, s), LastOf(calls, key);
      && (key in t.limiters <==> last >= 0 && NeverLongIdle(calls, last, s.interval))
      && (key in t.limiters ==> t.limiters[key].lastAccess == calls[last].outer)
  {
    if calls != [] {
      hide CheckSpec, Prunes, NeverLongIdle;
      var n := |calls| - 1;
      var before, c := calls[..n], calls[n];
      TableHoldsIff(before, key, s);
      ChecksAreCounted(before, s);
      PrunesWhenFull(n);
      HeldAfterCall(After(before, s), c, key, s);
      var last := LastOf(calls, key);
      if c.key == key {
        NothingSince(calls, s.interval);
      } else if last >= 0 {
        assert last == LastOf(before, key);
        OneCallMore(calls, last, s.interval);
      }
    }
  }

  lemma PrunesWhenFull(i: nat)
    ensures Prunes(i) <==> i % 256 + 1 >= 256
  {
  }

  lemma NothingSince(calls: seq<Call>, interval: nat)
    requires calls != []
    ensures NeverLongIdle(calls, |calls| - 1, interval)
  {
  }

  lemma OneCallMore(calls: seq<Call>, last: int, interval: nat)
    requires 0 <= last < |calls| - 1
    ensures
      var n := |calls| - 1;
      NeverLongIdle(calls, last, interval)
      <==> NeverLongIdle(calls[..n], last, interval) && (Prunes(n) ==> calls[n].outer <= calls[last].outer + 4 * interval)
  {
    hide Prunes;
    var before := calls[..|calls| - 1];
    assert forall i :: 0 <= i < |before| ==> before[i] == calls[i];
  }

  /** So after each 256th call no key is held that has been idle for more than four intervals. */
  lemma NoIdleKeyAfterPruning(calls: seq<Call>, key: int, s: Settings)
    requires s.interval > 0 && calls != [] && |calls| % 256 == 0 && key in After(calls, s).limiters
    ensures
      var last := LastOf(calls, key);
      last >= 0 && calls[|calls| - 1].outer <= calls[last].outer + 4 * s.interval
  {
    TableHoldsIff(calls, key, s);
    assert Prunes(|calls| - 1);
  }

  // ----- On every run -----

  /** The word that the table holds for the key when the call is checked; a new limiter's is zero. */
  function EntryWord(calls: seq<Call>, c: Call, s: Settings): Word
    requires s.interval > 0
  {
    var pruned := PruneSpec(After(calls, s), c.outer, s.interval);
    if c.key in pruned.limiters then pruned.limiters[c.key].word else 0
  }

  /** An entry is in the window of the key's own limiter, and has counted no more. */
  predicate Behind(t: Table, l: Lone, key: int, max: Half)
  {
    key in t.limiters ==>
      && l.Seen? && WindowOf(t.limiters[key].word) == WindowOf(l.word)
      && (max > 0 ==> CountOf(t.limiters[key].word) <= CountOf(l.word))
  }

  /** At every point of every run, whatever the times, no entry is ahead of the key's own limiter. */
  lemma {:induction false} TableIsBehind(calls: seq<Call>, key: int, s: Settings)
    requires s.interval > 0
    ensures Behind(After(calls, s), Alone(calls, key, s), key, s.max)
  {
    if calls != [] {
      TableIsBehind(calls[..|calls| - 1], key, s);
    }
  }

  /**
   Pruning on every run, whatever the times: the answer to a call differs from that of a limiter of the
   key's own exactly if that limiter has used up its window, the call is in a window of the same number,
   and the table's entry has been dropped since and has not counted that far again.  With a maximum of
   zero it differs exactly for dropped keys, when just one of window zero and the last call's window is
   the call's.
   */
  lemma PruningShowsIff(calls: seq<Call>, c: Call, s: Settings)
    requires s.interval > 0
    ensures
      var l, w := Alone(calls, c.key, s), Window(c.inner, s.interval);
      var same := l.Seen? && Window(l.inner, s.interval) == w;
      Passes(Answer(calls, c, s)) != AloneAdmits(calls, c, s)
      <==> if s.max > 0 then same && CountOf(l.word) >= s.max > CountIn(EntryWord(calls, c, s), w)
           else Dropped(calls, c, s) && l.Seen? && (same != (w == 0))
    ensures s.max > 0 && AloneAdmits(calls, c, s) ==> Passes(Answer(calls, c, s))
  {
    TableIsBehind(calls, c.key, s);
    AloneWindow(calls, c.key, s);
  }

  /** For a dropped key that is: the same window number as its last call's, and the limit reached in it. */
  lemma DroppedShowsIff(calls: seq<Call>, c: Call, s: Settings)
    requires s.interval > 0 && s.max > 0 && Dropped(calls, c, s) && Alone(calls, c.key, s).Seen?
    ensures
      var l := Alone(calls, c.key, s);
      Passes(Answer(calls, c, s)) != AloneAdmits(calls, c, s)
      <==> Window(l.inner, s.interval) == Window(c.inner, s.interval) && CountOf(l.word) >= s.max
  {
    PruningShowsIff(calls, c, s);
  }

  // ----- A run past the wrap -----

  /** One call of key 7, and then n calls of key 8, all at one time. */
  function WrapRun(n: nat): (calls: seq<Call>)
    ensures |calls| == n + 1
  {
    if n == 0 then [Call(7, 5, 5)] else WrapRun(n - 1) + [Call(8, 5, 5)]
  }

  lemma WrapRunFront(n: nat)
    requires n > 0
    ensures WrapRun(n)[..n] == WrapRun(n - 1) && WrapRun(n)[n] == Call(8, 5, 5)
  {
  }

  lemma OtherKeysCall(t: Table, c: Call, key: int, s: Settings)
    requires s.interval > 0 && t.checks + 1 < PRUNE_EVERY && c.key != key && key in t.limiters
    ensures
      var t' := CheckSpec(t, c, s).0;
      t'.checks == t.checks + 1 && key in t'.limiters && t'.limiters[key] == t.limiters[key]
  {
  }

  lemma FirstCall(c: Call, s: Settings)
    requires s.interval > 0 && s.max > 0 && Window(c.inner, s.interval) > 0
    ensures
      var t := CheckSpec(Table(map[], 0), c, s).0;
      t.checks == 1 && c.key in t.limiters
      && t.limiters[c.key] == Entry(Pack(Window(c.inner, s.interval), 1), c.outer, false)
  {
  }

  lemma {:induction false} WrapRunTable(n: nat)
    requires n + 1 < PRUNE_EVERY
    ensures
      var t := After(WrapRun(n), Settings(1, 1));
      t.checks == n + 1 && 7 in t.limiters && t.limiters[7] == Entry(Pack(5, 1), 5, false)
  {
    var s := Settings(1, 1);
    hide CheckSpec;
    if n == 0 {
      assert WrapRun(0)[..0] == [];
      FirstCall(Call(7, 5, 5), s);
    } else {
      WrapRunTable(n - 1);
      WrapRunFront(n);
      OtherKeysCall(After(WrapRun(n - 1), s), Call(8, 5, 5), 7, s);
    }
  }

  lemma {:induction false} WrapRunAlone(n: nat)
    ensures Alone(WrapRun(n), 7, Settings(1, 1)) == Seen(Pack(5, 1), 5, 5, false)
  {
    if n == 0 {
      assert WrapRun(0)[..0] == [];
    } else {
      WrapRunAlone(n - 1);
      WrapRunFront(n);
    }
  }

  lemma {:induction false} WrapRunTimes(n: nat, i: nat)
    requires i <= n
    ensures WrapRun(n)[i].outer == WrapRun(n)[i].inner == 5
  {
    if i < n {
      WrapRunTimes(n - 1, i);
      WrapRunFront(n);
    }
  }

  lemma WrapRunIsSerialized(n: nat, c: Call)
    requires c.outer == c.inner && c.inner >= 5
    ensures Serialized(WrapRun(n) + [c], 1) && BeforeWrap(WrapRun(n), 1)
  {
    var calls := WrapRun(n);
    forall i | 0 <= i < |calls| ensures calls[i].outer == calls[i].inner == 5 {
      WrapRunTimes(n, i);
    }
    assert forall i :: 0 <= i < |calls| ==> (calls + [c])[i] == calls[i];
  }

  /**
   Once the window number wraps, pruning shows in a run from a new limiter: 255 calls at one time,
   one of them of key 7, and then, as the 256th, a call of key 7 exactly 2^32 windows later.  Its
   entry is dropped and it passes, where a limiter of its own would deny it.
   */
  lemma WrapShowsPruning() returns (calls: seq<Call>, c: Call)
    ensures |calls| + 1 == PRUNE_EVERY
    ensures Serialized(calls + [c], 1) && BeforeWrap(calls, 1)
    ensures Dropped(calls, c, Settings(1, 1)) && Passes(Answer(calls, c, Settings(1, 1)))
    ensures !AloneAdmits(calls, c, Settings(1, 1))
  {
    calls, c := WrapRun(254), Call(7, 5 + HALF, 5 + HALF);
    WrapRunIsSerialized(254, c);
    WrapRunTable(254);
    WrapRunAlone(254);
    hide Serialized;
    hide BeforeWrap;
    hide After;
    hide Alone;
    hide WrapRun;
    assert Window(5, 1) == 5 && Window(5 + HALF, 1) == 5;
    DroppedShowsIff(calls, c, Settings(1, 1));
  }
}
