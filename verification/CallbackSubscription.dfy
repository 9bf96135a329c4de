/**
 Cancelling a callback subscription while threads run the callback, possibly from inside it and
 nested: each thread keeps a stack of the invocations it is in. The subscription's token holds the
 state until the first call on it takes the state out; later calls find the token empty.
 */
module CallbackSubscription {
  type SubId = nat      // a subscription
  type ThreadId = nat

  /** The fields of one subscription's state. */
  datatype Sub = Sub(stored: bool, active: nat, cancelled: bool)

  datatype Doing =
    | Free
    | Releasing(sub: SubId)                       // the frame is popped, the count not yet lowered
    | Taken(sub: SubId)                           // the token is emptied, nothing is cancelled yet
    | Draining(sub: SubId, allowance: nat)        // inside the wait of cancelAndDrain

  datatype Thread = Thread(frames: seq<SubId>, doing: Doing)

  /** `full` are the subscriptions whose token still holds the state. */
  datatype State = State(subs: map<SubId, Sub>, full: set<SubId>, threads: seq<Thread>)

  function AcquireSpec(c: Sub): (Sub, bool)
  {
    if c.cancelled || !c.stored then (c, false) else (c.(active := c.active + 1), true)
  }

  function ReleaseSpec(c: Sub): Sub
  {
    if c.active == 0 then c else c.(active := c.active - 1)
  }

  class CancellableCallbackState {
    var stored: bool
    var active: nat
    var cancelled: bool

    function Now(): Sub
      reads this
    {
      Sub(stored, active, cancelled)
    }

    constructor ()
      ensures Now() == Sub(true, 0, false)
    {
      stored, active, cancelled := true, 0, false;
    }

    /** Building the invocation may fail, and then the count is taken back. */
    method Acquire(fails: bool) returns (ok: bool)
      modifies this
      ensures if fails then !ok && Now() == old(Now()) else (Now(), ok) == AcquireSpec(old(Now()))
    {
      if cancelled || !stored {
        return false;
      }
      active := active + 1;
      if fails {
        active := active - 1;
        return false;
      }
      return true;
    }

    method Release()
      modifies this
      ensures Now() == ReleaseSpec(old(Now()))
    {
      if active == 0 {
        return;
      }
      active := active - 1;
    }

    /** The part of cancelAndDrain before the wait: how many of the caller's own frames are ours. */
    method BeginCancel(frames: seq<SubId>, me: SubId) returns (allowance: nat)
      modifies this
      ensures Now() == old(Now()).(cancelled := true)
      ensures allowance == Count(frames, me)
    {
      cancelled := true;
      allowance := 0;
      var i := |frames|;
      assert frames[..i] == frames;
      while i > 0
        invariant 0 <= i <= |frames| && Now() == old(Now()).(cancelled := true)
        invariant allowance + Count(frames[..i], me) == Count(frames, me)
      {
        assert frames[..i] == frames[..i - 1] + [frames[i - 1]];
        CountAppend(frames[..i - 1], frames[i - 1], me);
        i := i - 1;
        if frames[i] == me {
          allowance := allowance + 1;
        }
      }
    }

    /** The part after the wait. */
    method EndCancel(allowance: nat)
      requires active <= allowance
      modifies this
      ensures Now() == old(Now()).(stored := false)
    {
      stored := false;
    }
  }

  /** The token: its one reference to the state goes to the first call, and later calls get none. */
  class HostCallbackSubscription {
    var state: CancellableCallbackState?

    constructor (state: CancellableCallbackState)
      ensures this.state == state
    {
      this.state := state;
    }

    method TakeState() returns (taken: CancellableCallbackState?)
      modifies this
      ensures taken == old(state) && state == null
    {
      taken := state;
      state := null;
    }
  }

  function Count(frames: seq<SubId>, sub: SubId): (n: nat)
    ensures n <= |frames|
  {
    if frames == [] then 0 else One(frames[0] == sub) + Count(frames[1..], sub)
  }

  function One(b: bool): nat { if b then 1 else 0 }

  lemma CountOfOne(f: SubId, sub: SubId)
    ensures Count([f], sub) == One(f == sub)
  {
    assert [f][1..] == [];
  }

  lemma {:induction false} CountAppend(frames: seq<SubId>, f: SubId, sub: SubId)
    ensures Count(frames + [f], sub) == Count(frames, sub) + One(f == sub)
  {
    if frames == [] {
      assert frames + [f] == [f];
    } else {
      CountAppend(frames[1..], f, sub);
      assert (frames + [f])[1..] == frames[1..] + [f];
    }
  }

  // ----- Steps -----

  datatype Event =
    | Spawn                              // one more thread
    | Acquire(t: ThreadId, sub: SubId, fails: bool)
    | Leave(t: ThreadId)                 // the invocation's destructor pops its frame
    | Release(t: ThreadId)
    | Take(t: ThreadId, sub: SubId)      // a call on the token, or its destructor, takes the state out
    | BeginCancel(t: ThreadId)
    | EndCancel(t: ThreadId)             // the call that took the state returns
    | ReturnAtOnce(t: ThreadId, sub: SubId) // a call on an emptied token

  predicate Enabled(s: State, e: Event)
  {
    e.Spawn? ||
    (&& e.t < |s.threads|
     && var th := s.threads[e.t];
        match e
        case Spawn => true
        case Acquire(_, sub, _) => th.doing == Free && sub in s.subs
        case Leave(_) => th.doing == Free && th.frames != []
        case Release(_) => th.doing.Releasing? && th.doing.sub in s.subs
        case Take(_, sub) => th.doing == Free && sub in s.subs && sub in s.full
        case BeginCancel(_) => th.doing.Taken? && th.doing.sub in s.subs
        case EndCancel(_) =>
          th.doing.Draining? && th.doing.sub in s.subs && s.subs[th.doing.sub].active <= th.doing.allowance
        case ReturnAtOnce(_, sub) => th.doing == Free && sub in s.subs && sub !in s.full)
  }

  function Step(s: State, e: Event): State
    requires Enabled(s, e)
  {
    match e
    case Spawn => s.(threads := s.threads + [Thread([], Free)])
    case Acquire(t, sub, fails) =>
      var (c, ok) := AcquireSpec(s.subs[sub]);
      if fails || !ok then s
      else s.(subs := s.subs[sub := c], threads := s.threads[t := Entered(s.threads[t], sub)])
    case Leave(t) =>
      var th := s.threads[t];
      var last := |th.frames| - 1;
      s.(threads := s.threads[t := Thread(th.frames[..last], Releasing(th.frames[last]))])
    case Release(t) =>
      var sub := s.threads[t].doing.sub;
      s.(subs := s.subs[sub := ReleaseSpec(s.subs[sub])], threads := s.threads[t := s.threads[t].(doing := Free)])
    case Take(t, sub) =>
      s.(full := s.full - {sub}, threads := s.threads[t := s.threads[t].(doing := Taken(sub))])
    case BeginCancel(t) =>
      var sub := s.threads[t].doing.sub;
      s.(subs := s.subs[sub := s.subs[sub].(cancelled := true)],
         threads := s.threads[t := s.threads[t].(doing := Draining(sub, Count(s.threads[t].frames, sub)))])
    case EndCancel(t) =>
      var sub := s.threads[t].doing.sub;
      s.(subs := s.subs[sub := s.subs[sub].(stored := false)], threads := s.threads[t := s.threads[t].(doing := Free)])
    case ReturnAtOnce(_, _) => s
  }

  function Entered(th: Thread, sub: SubId): Thread { th.(frames := th.frames + [sub]) }

  ghost predicate Run(s: State, es: seq<Event>)
    decreases |es|
  {
    es == [] || (Enabled(s, es[0]) && Run(Step(s, es[0]), es[1..]))
  }

  function After(s: State, es: seq<Event>): State
    requires Run(s, es)
    decreases |es|
  {
    if es == [] then s else After(Step(s, es[0]), es[1..])
  }

  /** A run goes on by one event. */
  lemma {:induction false} RunOn(s: State, es: seq<Event>, k: nat)
    requires k < |es| && Run(s, es[..k]) && Enabled(After(s, es[..k]), es[k])
    ensures Run(s, es[..k + 1]) && After(s, es[..k + 1]) == Step(After(s, es[..k]), es[k])
    decreases k
  {
    if k == 0 {
      assert es[..1][1..] == [] && Run(Step(s, es[0]), []);
    } else {
      var rest := es[1..];
      assert es[..k][1..] == rest[..k - 1] && es[..k + 1][1..] == rest[..k] && rest[k - 1] == es[k];
      RunOn(Step(s, es[0]), rest, k - 1);
    }
  }

  // ----- The count and the token -----

  /** The live invocations of a subscription on one thread. */
  function Live(th: Thread, sub: SubId): nat
  {
    Count(th.frames, sub) + One(th.doing == Releasing(sub))
  }

  /** A call that took the state out of the token and has not returned. */
  predicate Committed(th: Thread, sub: SubId)
  {
    (th.doing.Taken? || th.doing.Draining?) && th.doing.sub == sub
  }

  function LiveOf(sub: SubId): Thread -> nat { (th: Thread) => Live(th, sub) }

  function CommittedTo(sub: SubId): Thread -> nat { (th: Thread) => One(Committed(th, sub)) }

  function Total(threads: seq<Thread>, f: Thread -> nat): nat
  {
    if threads == [] then 0 else f(threads[0]) + Total(threads[1..], f)
  }

  lemma {:induction false} TotalUpdate(threads: seq<Thread>, t: nat, th: Thread, f: Thread -> nat)
    requires t < |threads|
    ensures Total(threads[t := th], f) == Total(threads, f) - f(threads[t]) + f(th)
  {
    if t == 0 {
      assert threads[t := th][1..] == threads[1..];
    } else {
      assert threads[t := th][1..] == threads[1..][t - 1 := th];
      TotalUpdate(threads[1..], t - 1, th, f);
    }
  }

  lemma {:induction false} TotalAppend(threads: seq<Thread>, th: Thread, f: Thread -> nat)
    ensures Total(threads + [th], f) == Total(threads, f) + f(th)
  {
    if threads == [] {
      assert threads + [th] == [th];
    } else {
      assert (threads + [th])[1..] == threads[1..] + [th];
      TotalAppend(threads[1..], th, f);
    }
  }

  /** One thread's share is all of the total exactly when every other thread has none. */
  lemma {:induction false} OthersAreCounted(threads: seq<Thread>, t: nat, f: Thread -> nat)
    requires t < |threads|
    ensures f(threads[t]) <= Total(threads, f)
    ensures Total(threads, f) <= f(threads[t]) <==>
            forall u :: 0 <= u < |threads| && u != t ==> f(threads[u]) == 0
  {
    assert forall u :: 0 < u < |threads| ==> threads[u] == threads[1..][u - 1];
    assert forall u :: 0 <= u < |threads[1..]| ==> threads[1..][u] == threads[u + 1];
    if t == 0 {
      NoneCounted(threads[1..], f);
    } else {
      OthersAreCounted(threads[1..], t - 1, f);
    }
  }

  lemma {:induction false} NoneCounted(threads: seq<Thread>, f: Thread -> nat)
    ensures Total(threads, f) == 0 <==> forall u :: 0 <= u < |threads| ==> f(threads[u]) == 0
  {
    if threads != [] {
      NoneCounted(threads[1..], f);
      assert forall u :: 0 < u < |threads| ==> threads[u] == threads[1..][u - 1];
      assert forall u :: 0 <= u < |threads[1..]| ==> threads[1..][u] == threads[u + 1];
    }
  }

  /** A thread inside the wait still has the frames it counted. */
  predicate AllowanceIsOwn(th: Thread)
  {
    th.doing.Draining? ==> th.doing.allowance == Count(th.frames, th.doing.sub)
  }

  predicate Known(s: State, th: Thread)
  {
    && (forall f :: f in th.frames ==> f in s.subs)
    && (!th.doing.Free? ==> th.doing.sub in s.subs)
  }

  /** Cancellation is published between the taking of the state and the wait. */
  predicate Published(s: State, th: Thread)
  {
    && (th.doing.Taken? && th.doing.sub in s.subs ==> !s.subs[th.doing.sub].cancelled)
    && (th.doing.Draining? && th.doing.sub in s.subs ==> s.subs[th.doing.sub].cancelled)
  }

  /** The state is in one place: in the token, with the one call that took it, or drained. */
  predicate InOnePlace(s: State, sub: SubId)
    requires sub in s.subs
  {
    && One(sub in s.full) + Total(s.threads, CommittedTo(sub)) + One(!s.subs[sub].stored) == 1
    && (sub in s.full ==> !s.subs[sub].cancelled)
    && (!s.subs[sub].stored ==> s.subs[sub].cancelled)
  }

  ghost predicate Inv(s: State)
  {
    && (forall sub :: sub in s.subs ==> s.subs[sub].active == Total(s.threads, LiveOf(sub)))
    && (forall sub :: sub in s.subs ==> InOnePlace(s, sub))
    && (forall t :: 0 <= t < |s.threads| ==> AllowanceIsOwn(s.threads[t]))
    && (forall t :: 0 <= t < |s.threads| ==> Known(s, s.threads[t]))
    && (forall t :: 0 <= t < |s.threads| ==> Published(s, s.threads[t]))
  }

  /** A step changes the count as it changes the live invocations of the thread that takes it. */
  lemma LiveChanges(s: State, e: Event, sub: SubId)
    requires Enabled(s, e) && !e.Spawn? && sub in s.subs
    requires e.Release? && s.threads[e.t].doing.sub == sub ==> s.subs[sub].active > 0
    ensures Step(s, e).subs[sub].active - s.subs[sub].active
            == Live(Step(s, e).threads[e.t], sub) - Live(s.threads[e.t], sub)
  {
    var th := s.threads[e.t];
    if e.Acquire? {
      CountAppend(th.frames, e.sub, sub);
    } else if e.Leave? {
      var last := |th.frames| - 1;
      assert th.frames == th.frames[..last] + [th.frames[last]];
      CountAppend(th.frames[..last], th.frames[last], sub);
    }
  }

  lemma StepCounts(s: State, e: Event, sub: SubId)
    requires Inv(s) && Enabled(s, e) && sub in s.subs
    ensures sub in Step(s, e).subs && Step(s, e).subs[sub].active == Total(Step(s, e).threads, LiveOf(sub))
  {
    var f := LiveOf(sub);
    assert s.subs[sub].active == Total(s.threads, f);
    hide Inv;
    if e.Spawn? {
      TotalAppend(s.threads, Thread([], Free), f);
    } else {
      var th' := Step(s, e).threads[e.t];
      OthersAreCounted(s.threads, e.t, f);
      LiveChanges(s, e, sub);
      TotalUpdate(s.threads, e.t, th', f);
      assert Step(s, e).threads == s.threads[e.t := th'];
    }
  }

  /** No two calls are committed to one subscription. */
  lemma OneCommitted(s: State, t: ThreadId, u: ThreadId, sub: SubId)
    requires Inv(s) && t < |s.threads| && u < |s.threads| && sub in s.subs
    requires Committed(s.threads[t], sub) && Committed(s.threads[u], sub)
    ensures t == u && sub !in s.full && s.subs[sub].stored
  {
    OthersAreCounted(s.threads, t, CommittedTo(sub));
    assert CommittedTo(sub)(s.threads[u]) == 1;
  }

  /** A step hands the state on between the token, the thread that takes the step and the drained state. */
  lemma PlaceChanges(s: State, e: Event, sub: SubId)
    requires Enabled(s, e) && !e.Spawn? && sub in s.subs && Published(s, s.threads[e.t])
    requires s.threads[e.t].doing.Draining? ==> s.subs[s.threads[e.t].doing.sub].stored
    requires (sub in s.full ==> !s.subs[sub].cancelled) && (!s.subs[sub].stored ==> s.subs[sub].cancelled)
    requires sub in s.full ==> !Committed(s.threads[e.t], sub)
    ensures
      var s' := Step(s, e);
      && One(sub in s'.full) + One(Committed(s'.threads[e.t], sub)) + One(!s'.subs[sub].stored)
         == One(sub in s.full) + One(Committed(s.threads[e.t], sub)) + One(!s.subs[sub].stored)
      && (sub in s'.full ==> !s'.subs[sub].cancelled) && (!s'.subs[sub].stored ==> s'.subs[sub].cancelled)
  {
  }

  lemma PlacedAt(s: State, t: ThreadId, sub: SubId)
    requires Inv(s) && t < |s.threads| && sub in s.subs
    ensures InOnePlace(s, sub) && Published(s, s.threads[t]) && Known(s, s.threads[t])
    ensures s.threads[t].doing.Draining? ==> s.subs[s.threads[t].doing.sub].stored
    ensures sub in s.full ==> !Committed(s.threads[t], sub)
  {
    assert Known(s, s.threads[t]);
    if s.threads[t].doing.Draining? {
      OneCommitted(s, t, t, s.threads[t].doing.sub);
    }
    if Committed(s.threads[t], sub) {
      OneCommitted(s, t, t, sub);
    }
  }

  lemma StepPlaces(s: State, e: Event, sub: SubId)
    requires Inv(s) && Enabled(s, e) && sub in s.subs
    ensures InOnePlace(Step(s, e), sub)
  {
    var f := CommittedTo(sub);
    if e.Spawn? {
      assert InOnePlace(s, sub);
      TotalAppend(s.threads, Thread([], Free), f);
    } else {
      PlacedAt(s, e.t, sub);
      hide Inv;
      PlaceChanges(s, e, sub);
      var th' := Step(s, e).threads[e.t];
      assert Step(s, e).threads == s.threads[e.t := th'];
      TotalUpdate(s.threads, e.t, th', f);
    }
  }

  lemma StepPublishes(s: State, e: Event, u: ThreadId)
    requires Inv(s) && Enabled(s, e) && u < |Step(s, e).threads|
    ensures Published(Step(s, e), Step(s, e).threads[u])
    ensures AllowanceIsOwn(Step(s, e).threads[u]) && Known(Step(s, e), Step(s, e).threads[u])
  {
    if e.BeginCancel? && u != e.t && s.threads[u].doing.Taken? && s.threads[u].doing.sub == s.threads[e.t].doing.sub {
      OneCommitted(s, e.t, u, s.threads[u].doing.sub);
    }
  }

  lemma StepKeeps(s: State, e: Event)
    requires Inv(s) && Enabled(s, e)
    ensures Inv(Step(s, e))
  {
    forall sub | sub in Step(s, e).subs
      ensures Step(s, e).subs[sub].active == Total(Step(s, e).threads, LiveOf(sub)) && InOnePlace(Step(s, e), sub)
    {
      StepCounts(s, e, sub);
      StepPlaces(s, e, sub);
    }
    forall u | 0 <= u < |Step(s, e).threads|
      ensures Published(Step(s, e), Step(s, e).threads[u])
      ensures AllowanceIsOwn(Step(s, e).threads[u]) && Known(Step(s, e), Step(s, e).threads[u])
    {
      StepPublishes(s, e, u);
    }
  }

  /** Over every run the count of a subscription is the number of its live invocations. */
  lemma {:induction false} CountIsExact(s: State, es: seq<Event>)
    requires Inv(s) && Run(s, es)
    ensures Inv(After(s, es))
    decreases |es|
  {
    if es != [] {
      StepKeeps(s, es[0]);
      CountIsExact(Step(s, es[0]), es[1..]);
    }
  }

  lemma {:induction false} FreshIsInv(s: State)
    requires forall sub :: sub in s.subs ==> s.subs[sub] == Sub(true, 0, false) && sub in s.full
    requires forall t :: 0 <= t < |s.threads| ==> s.threads[t] == Thread([], Free)
    ensures Inv(s)
  {
    forall sub | sub in s.subs
      ensures Total(s.threads, LiveOf(sub)) == 0 && Total(s.threads, CommittedTo(sub)) == 0
    {
      NoneCounted(s.threads, LiveOf(sub));
      NoneCounted(s.threads, CommittedTo(sub));
    }
  }

  /** The count never runs under: whenever a thread releases, its own invocation is still counted. */
  lemma NoUnderflow(s: State, t: ThreadId)
    requires Inv(s) && Enabled(s, Release(t))
    ensures s.subs[s.threads[t].doing.sub].active > 0
  {
    OthersAreCounted(s.threads, t, LiveOf(s.threads[t].doing.sub));
  }

  function Takes(es: seq<Event>, sub: SubId): nat
  {
    if es == [] then 0 else One(es[0].Take? && es[0].sub == sub) + Takes(es[1..], sub)
  }

  /** One call drains: over a whole run the state is taken at most once, and never put back. */
  lemma {:induction false} OneCallerDrains(s: State, es: seq<Event>, sub: SubId)
    requires Inv(s) && Run(s, es) && sub in s.subs
    ensures Takes(es, sub) + One(sub in After(s, es).full) == One(sub in s.full)
    ensures forall t, u ::
              var end := After(s, es).threads;
              0 <= t < |end| && 0 <= u < |end| && Committed(end[t], sub) && Committed(end[u], sub) ==> t == u
    decreases |es|
  {
    if es != [] {
      StepKeeps(s, es[0]);
      OneCallerDrains(Step(s, es[0]), es[1..], sub);
    } else {
      forall t, u | 0 <= t < |s.threads| && 0 <= u < |s.threads|
                    && Committed(s.threads[t], sub) && Committed(s.threads[u], sub)
        ensures t == u
      {
        OneCommitted(s, t, u, sub);
      }
    }
  }

  // ----- Cancellation -----

  /** The live invocations of a subscription on a thread, none on a thread that is not there yet. */
  function LiveAt(s: State, u: ThreadId, sub: SubId): nat
  {
    if u < |s.threads| then Live(s.threads[u], sub) else 0
  }

  /** The invocations on a thread that still hold their copy of the user's closure. */
  function HeldAt(s: State, u: ThreadId, sub: SubId): nat
  {
    if u < |s.threads| then Count(s.threads[u].frames, sub) else 0
  }

  /** The wait passes exactly when no other thread has a live invocation: a caller never waits for itself. */
  lemma WaitIsForTheOthers(s: State, t: ThreadId)
    requires Inv(s) && t < |s.threads| && s.threads[t].doing.Draining?
    ensures Enabled(s, EndCancel(t)) <==>
            forall u :: 0 <= u < |s.threads| && u != t ==> Live(s.threads[u], s.threads[t].doing.sub) == 0
  {
    var sub := s.threads[t].doing.sub;
    OthersAreCounted(s.threads, t, LiveOf(sub));
    assert forall u :: 0 <= u < |s.threads| ==> LiveOf(sub)(s.threads[u]) == Live(s.threads[u], sub);
    assert Known(s, s.threads[t]) && AllowanceIsOwn(s.threads[t]);
  }

  /** After cancellation nothing of the subscription starts: no thread's live invocations grow. */
  lemma {:induction false} NothingStarts(s: State, es: seq<Event>, sub: SubId, u: ThreadId)
    requires Run(s, es) && sub in s.subs && s.subs[sub].cancelled
    ensures
      var s' := After(s, es);
      && sub in s'.subs && s'.subs[sub].cancelled && LiveAt(s', u, sub) <= LiveAt(s, u, sub)
      && HeldAt(s', u, sub) <= HeldAt(s, u, sub)
    decreases |es|
  {
    if es != [] {
      NothingStartsStep(s, es[0], sub, u);
      NothingStarts(Step(s, es[0]), es[1..], sub, u);
    }
  }

  lemma NothingStartsStep(s: State, e: Event, sub: SubId, u: ThreadId)
    requires Enabled(s, e) && sub in s.subs && s.subs[sub].cancelled
    ensures
      var s' := Step(s, e);
      && sub in s'.subs && s'.subs[sub].cancelled && LiveAt(s', u, sub) <= LiveAt(s, u, sub)
      && HeldAt(s', u, sub) <= HeldAt(s, u, sub)
  {
    if !e.Spawn? && e.t == u {
      var th := s.threads[u];
      if e.Acquire? {
        CountAppend(th.frames, e.sub, sub);
      } else if e.Leave? {
        var last := |th.frames| - 1;
        assert th.frames == th.frames[..last] + [th.frames[last]];
        CountAppend(th.frames[..last], th.frames[last], sub);
      }
    }
  }

  /**
   Cancellation is a barrier for the call that took the state: once its wait has passed, and for ever
   after, no other thread is in the callback, and the caller is in it only through frames it was in.
   */
  lemma CancellationIsABarrier(s: State, t: ThreadId, es: seq<Event>, u: ThreadId)
    requires Inv(s) && Enabled(s, EndCancel(t)) && Run(Step(s, EndCancel(t)), es)
    ensures
      var sub := s.threads[t].doing.sub;
      var end := After(Step(s, EndCancel(t)), es);
      && (u != t ==> LiveAt(end, u, sub) == 0)
      && (u == t ==> LiveAt(end, u, sub) <= Count(s.threads[t].frames, sub))
  {
    var sub := s.threads[t].doing.sub;
    WaitIsForTheOthers(s, t);
    NothingStarts(Step(s, EndCancel(t)), es, sub, u);
  }

  /** From here on no thread but `t` is ever in the callback. */
  ghost predicate Barrier(s: State, t: ThreadId, sub: SubId)
  {
    forall es, u :: Run(s, es) && u != t ==> LiveAt(After(s, es), u, sub) == 0
  }

  /** A call returns: it is at the end of its wait, or it found the token empty. */
  predicate Returns(s: State, e: Event, sub: SubId)
  {
    && Enabled(s, e)
    && ((e.EndCancel? && s.threads[e.t].doing.sub == sub) || (e.ReturnAtOnce? && e.sub == sub))
  }

  /** From here on no thread but `t` ever holds a copy of the closure. */
  ghost predicate Released(s: State, t: ThreadId, sub: SubId)
  {
    forall es, u :: Run(s, es) && u != t ==> HeldAt(After(s, es), u, sub) == 0
  }

  /**
   The token promises that after a call on it no invocation is in progress. A call that returned kept
   that promise exactly if it took the state itself, or if at its entry the cancellation was published
   and no other thread had a live invocation; the same for the copies of the closure.
   */
  lemma ReturnedCallIsABarrierIff(s: State, e: Event, sub: SubId)
    requires Inv(s) && Returns(s, e, sub)
    ensures Barrier(Step(s, e), e.t, sub) <==>
            e.EndCancel? || (s.subs[sub].cancelled && forall u :: u != e.t ==> LiveAt(s, u, sub) == 0)
    ensures Released(Step(s, e), e.t, sub) <==>
            e.EndCancel? || (s.subs[sub].cancelled && forall u :: u != e.t ==> HeldAt(s, u, sub) == 0)
  {
    var s' := Step(s, e);
    assert Run(s', []) && After(s', []) == s';
    if e.EndCancel? {
      forall es, u | Run(s', es) && u != e.t
        ensures LiveAt(After(s', es), u, sub) == 0 && HeldAt(After(s', es), u, sub) == 0
      {
        CancellationIsABarrier(s, e.t, es, u);
      }
    } else if s.subs[sub].cancelled {
      PublishedReturn(s, e.t, sub);
    } else {
      assert InOnePlace(s, sub);
      OneMoreEnters(s, sub);
      assert Run(s', [Spawn, Acquire(|s.threads|, sub, false)]);
    }
  }

  lemma PublishedReturn(s: State, t: ThreadId, sub: SubId)
    requires sub in s.subs && s.subs[sub].cancelled
    ensures Barrier(s, t, sub) <==> forall u :: u != t ==> LiveAt(s, u, sub) == 0
    ensures Released(s, t, sub) <==> forall u :: u != t ==> HeldAt(s, u, sub) == 0
  {
    assert Run(s, []) && After(s, []) == s;
    assert Barrier(s, t, sub) ==> forall u :: u != t ==> LiveAt(After(s, []), u, sub) == 0;
    assert Released(s, t, sub) ==> forall u :: u != t ==> HeldAt(After(s, []), u, sub) == 0;
    if forall u :: u != t ==> LiveAt(s, u, sub) == 0 {
      forall es, u | Run(s, es) && u != t ensures LiveAt(After(s, es), u, sub) == 0 {
        NothingStarts(s, es, sub, u);
        assert LiveAt(s, u, sub) == 0;
      }
    }
    if forall u :: u != t ==> HeldAt(s, u, sub) == 0 {
      forall es, u | Run(s, es) && u != t ensures HeldAt(After(s, es), u, sub) == 0 {
        NothingStarts(s, es, sub, u);
        assert HeldAt(s, u, sub) == 0;
      }
    }
  }

  /** Before the cancellation is published, a new thread can enter the callback. */
  lemma OneMoreEnters(s: State, sub: SubId)
    requires sub in s.subs && !s.subs[sub].cancelled && s.subs[sub].stored
    ensures
      var es := [Spawn, Acquire(|s.threads|, sub, false)];
      Run(s, es) && LiveAt(After(s, es), |s.threads|, sub) == HeldAt(After(s, es), |s.threads|, sub) == 1
  {
    var n := |s.threads|;
    var es := [Spawn, Acquire(n, sub, false)];
    assert Run(s, es[..0]);
    RunOn(s, es, 0);
    var s1 := After(s, es[..1]);
    RunOn(s, es, 1);
    assert es[..2] == es;
    var s2 := After(s, es);
    assert s2.threads[n] == Entered(s1.threads[n], sub) && s1.threads[n] == Thread([], Free);
    assert Entered(Thread([], Free), sub).frames == [sub];
    CountOfOne(sub, sub);
  }

  const TwoThreads := State(map[0 := Sub(true, 0, false)], {0}, [Thread([], Free), Thread([], Free)])

  const CancelsItself := [Acquire(0, 0, false), Take(0, 0), BeginCancel(0), EndCancel(0)]

  lemma CancelsItselfTakes()
    ensures Run(TwoThreads, CancelsItself[..2])
    ensures After(TwoThreads, CancelsItself[..2])
         == State(map[0 := Sub(true, 1, false)], {}, [Thread([0], Taken(0)), Thread([], Free)])
  {
    var a := CancelsItself;
    assert Run(TwoThreads, a[..0]) && After(TwoThreads, a[..0]) == TwoThreads;
    hide Run, After, Count;
    RunOn(TwoThreads, a, 0);
    assert Entered(Thread([], Free), 0) == Thread([0], Free);
    assert After(TwoThreads, a[..1])
        == State(map[0 := Sub(true, 1, false)], {0}, [Thread([0], Free), Thread([], Free)]);
    RunOn(TwoThreads, a, 1);
  }

  lemma CancelsItselfStays()
    ensures Run(TwoThreads, CancelsItself)
    ensures After(TwoThreads, CancelsItself)
         == State(map[0 := Sub(false, 1, true)], {}, [Thread([0], Free), Thread([], Free)])
  {
    hide Run, After, Count;
    var a := CancelsItself;
    CancelsItselfTakes();
    CountOfOne(0, 0);
    RunOn(TwoThreads, a, 2);
    assert After(TwoThreads, a[..3])
        == State(map[0 := Sub(true, 1, true)], {}, [Thread([0], Draining(0, 1)), Thread([], Free)]);
    RunOn(TwoThreads, a, 3);
    assert a[..4] == a;
  }

  /**
   A callback cancels its own token and stays inside; another thread's call on the token then returns
   while the first thread is still in the callback.
   */
  lemma LaterCallIsNoBarrier()
    ensures Inv(TwoThreads) && Run(TwoThreads, CancelsItself)
    ensures
      var s := After(TwoThreads, CancelsItself);
      Returns(s, ReturnAtOnce(1, 0), 0) && HeldAt(Step(s, ReturnAtOnce(1, 0)), 0, 0) == 1
  {
    FreshIsInv(TwoThreads);
    hide Inv, Run, After, Count;
    CancelsItselfStays();
    CountOfOne(0, 0);
  }

  /** A call between the taking of the state and the publication returns, and the callback is still entered. */
  lemma EarlyCallIsNoBarrier()
    ensures Inv(TwoThreads) && Run(TwoThreads, [Take(0, 0)])
    ensures
      var s := After(TwoThreads, [Take(0, 0)]);
      Returns(s, ReturnAtOnce(1, 0), 0) && !Released(Step(s, ReturnAtOnce(1, 0)), 1, 0)
  {
    FreshIsInv(TwoThreads);
    hide Inv, Barrier, Released;
    var taken := Step(TwoThreads, Take(0, 0));
    assert Run(taken, []) && [Take(0, 0)][1..] == [] && After(TwoThreads, [Take(0, 0)]) == taken;
    StepKeeps(TwoThreads, Take(0, 0));
    ReturnedCallIsABarrierIff(taken, ReturnAtOnce(1, 0), 0);
  }

  // ----- Calls that wait for each other -----

  /** Every thread of `w` is committed to draining a callback that another thread of `w` is inside. */
  ghost predicate Stuck(s: State, w: set<ThreadId>)
  {
    forall t {:trigger WaitsFor(s, t, w)} :: t in w ==> WaitsFor(s, t, w)
  }

  ghost predicate WaitsFor(s: State, t: ThreadId, w: set<ThreadId>)
  {
    && t < |s.threads|
    && (s.threads[t].doing.Taken? || s.threads[t].doing.Draining?)
    && exists u :: u in w && u != t && LiveAt(s, u, s.threads[t].doing.sub) > 0
  }

  /** In some continuation the thread is done with what it is doing: its call has returned. */
  ghost predicate CanReturn(s: State, t: ThreadId)
  {
    exists es :: Run(s, es) && t < |After(s, es).threads| && After(s, es).threads[t].doing == Free
  }

  /** All that a thread waited for by another's live invocation can do is to enter its wait. */
  lemma BlockedIsSilent(s: State, e: Event, t: ThreadId, u: ThreadId)
    requires Inv(s) && Enabled(s, e) && t < |s.threads| && u != t
    requires s.threads[t].doing.Taken? || s.threads[t].doing.Draining?
    requires LiveAt(s, u, s.threads[t].doing.sub) > 0
    ensures t < |Step(s, e).threads|
    ensures Step(s, e).threads[t].frames == s.threads[t].frames
    ensures Step(s, e).threads[t].doing.Taken? || Step(s, e).threads[t].doing.Draining?
    ensures Step(s, e).threads[t].doing.sub == s.threads[t].doing.sub
  {
    hide Inv;
    if s.threads[t].doing.Draining? {
      WaitIsForTheOthers(s, t);
      assert Live(s.threads[u], s.threads[t].doing.sub) > 0;
    }
  }

  /** A step takes no thread out of a stuck set. */
  lemma StuckStep(s: State, e: Event, w: set<ThreadId>)
    requires Inv(s) && Enabled(s, e) && Stuck(s, w)
    ensures Stuck(Step(s, e), w)
  {
    hide Inv;
    var s' := Step(s, e);
    forall t | t in w ensures WaitsFor(s', t, w) {
      hide Step, Enabled;
      assert WaitsFor(s, t, w);
      var u :| u in w && u != t && LiveAt(s, u, s.threads[t].doing.sub) > 0;
      BlockedIsSilent(s, e, t, u);
      assert WaitsFor(s, u, w);
      var v :| v in w && v != u && LiveAt(s, v, s.threads[u].doing.sub) > 0;
      BlockedIsSilent(s, e, u, v);
      assert LiveAt(s', u, s'.threads[t].doing.sub) > 0;
    }
  }

  lemma {:induction false} StuckForEver(s: State, es: seq<Event>, w: set<ThreadId>)
    requires Inv(s) && Run(s, es) && Stuck(s, w)
    ensures Stuck(After(s, es), w)
    decreases |es|
  {
    if es != [] {
      StepKeeps(s, es[0]);
      StuckStep(s, es[0], w);
      StuckForEver(Step(s, es[0]), es[1..], w);
    }
  }

  /** What the threads have still to do, entering nothing more. */
  function Work(th: Thread): nat
  {
    2 * |th.frames| + if th.doing.Taken? then 2 else if th.doing.Free? then 0 else 1
  }

  /** The step by which a thread goes on without entering anything. */
  function Onward(s: State, t: ThreadId): Event
    requires t < |s.threads|
  {
    match s.threads[t].doing
    case Free => Leave(t)
    case Releasing(_) => Release(t)
    case Taken(_) => BeginCancel(t)
    case Draining(_, _) => EndCancel(t)
  }

  lemma OnwardWorks(s: State, t: ThreadId)
    requires Inv(s) && t < |s.threads| && Enabled(s, Onward(s, t))
    ensures
      var s' := Step(s, Onward(s, t));
      Inv(s') && |s'.threads| == |s.threads| && Total(s'.threads, Work) < Total(s.threads, Work)
  {
    var e := Onward(s, t);
    StepKeeps(s, e);
    TotalUpdate(s.threads, t, Step(s, e).threads[t], Work);
    assert Step(s, e).threads == s.threads[t := Step(s, e).threads[t]];
  }

  /** Going on makes no thread stuck that was not stuck before. */
  lemma OnwardSticksNone(s: State, v: ThreadId, w: set<ThreadId>)
    requires Inv(s) && v < |s.threads| && Enabled(s, Onward(s, v)) && Stuck(Step(s, Onward(s, v)), w)
    ensures Stuck(s, w)
  {
    hide Inv;
    var s' := Step(s, Onward(s, v));
    forall t | t in w ensures WaitsFor(s, t, w) {
      assert WaitsFor(s', t, w);
      OnwardCommitsNone(s, v, t);
      var sub := s'.threads[t].doing.sub;
      var u :| u in w && u != t && LiveAt(s', u, sub) > 0;
      assert WaitsFor(s', u, w);
      OnwardCommitsNone(s, v, u);
      assert LiveAt(s, u, sub) == LiveAt(s', u, sub);
    }
  }

  lemma OnwardCommitsNone(s: State, v: ThreadId, t: ThreadId)
    requires v < |s.threads| && Enabled(s, Onward(s, v)) && t < |Step(s, Onward(s, v)).threads|
    requires
      var after := Step(s, Onward(s, v)).threads[t].doing;
      after.Taken? || after.Draining?
    ensures
      var after := Step(s, Onward(s, v)).threads[t];
      t < |s.threads| && s.threads[t].frames == after.frames && Committed(s.threads[t], after.doing.sub)
  {
  }

  /** When no thread can go on, those that are inside a call wait for each other. */
  lemma NoneOnwardIsStuck(s: State, w: set<ThreadId>)
    requires Inv(s)
    requires forall v :: 0 <= v < |s.threads| ==> !Enabled(s, Onward(s, v))
    requires forall t :: t in w <==> 0 <= t < |s.threads| && !s.threads[t].doing.Free?
    ensures Stuck(s, w)
  {
    forall t | t in w ensures WaitsFor(s, t, w) {
      assert Known(s, s.threads[t]) && !Enabled(s, Onward(s, t));
      assert s.threads[t].doing.Draining?;
      WaitIsForTheOthers(s, t);
      var u :| 0 <= u < |s.threads| && u != t && Live(s.threads[u], s.threads[t].doing.sub) != 0;
      assert !Enabled(s, Onward(s, u));
      assert u in w;
      assert LiveAt(s, u, s.threads[t].doing.sub) > 0;
    }
  }

  /** A call in no stuck set can return: the threads leave one after another until it does. */
  lemma {:induction false} UnstuckCanReturn(s: State, t: ThreadId)
    requires Inv(s) && t < |s.threads|
    requires forall w :: Stuck(s, w) ==> t !in w
    ensures CanReturn(s, t)
    decreases Total(s.threads, Work)
  {
    hide Inv;
    if s.threads[t].doing.Free? {
      assert Run(s, []) && After(s, []) == s;
    } else if v :| 0 <= v < |s.threads| && Enabled(s, Onward(s, v)) {
      var e := Onward(s, v);
      var s' := Step(s, e);
      OnwardWorks(s, v);
      forall w | Stuck(s', w) ensures t !in w {
        OnwardSticksNone(s, v, w);
      }
      UnstuckCanReturn(s', t);
      var es :| Run(s', es) && t < |After(s', es).threads| && After(s', es).threads[t].doing == Free;
      assert ([e] + es)[1..] == es;
      assert Run(s, [e] + es) && After(s, [e] + es) == After(s', es);
    } else {
      var w := set v | 0 <= v < |s.threads| && !s.threads[v].doing.Free?;
      NoneOnwardIsStuck(s, w);
    }
  }

  /**
   A call that took the state can still return exactly if it is in no set of calls each of which drains
   a callback that another one of the set is inside.
   */
  lemma CallCanReturnIff(s: State, t: ThreadId)
    requires Inv(s) && t < |s.threads|
    ensures CanReturn(s, t) <==> forall w :: Stuck(s, w) ==> t !in w
  {
    if w :| Stuck(s, w) && t in w {
      forall es | Run(s, es)
        ensures t < |After(s, es).threads| && After(s, es).threads[t].doing != Free
      {
        StuckForEver(s, es, w);
        assert WaitsFor(After(s, es), t, w);
      }
    } else {
      UnstuckCanReturn(s, t);
    }
  }

  const TwoCallbacks := State(map[0 := Sub(true, 0, false), 1 := Sub(true, 0, false)], {0, 1},
                              [Thread([], Free), Thread([], Free)])

  const EachDrainsTheOther := [Acquire(0, 0, false), Acquire(1, 1, false),
                               Take(0, 1), BeginCancel(0), Take(1, 0), BeginCancel(1)]

  const BothInside := map[0 := Sub(true, 1, false), 1 := Sub(true, 1, false)]

  lemma EachInsideItsOwn()
    ensures Run(TwoCallbacks, EachDrainsTheOther[..2])
    ensures After(TwoCallbacks, EachDrainsTheOther[..2])
         == State(BothInside, {0, 1}, [Thread([0], Free), Thread([1], Free)])
  {
    var a := EachDrainsTheOther;
    assert Run(TwoCallbacks, a[..0]) && After(TwoCallbacks, a[..0]) == TwoCallbacks;
    hide Run, After, Count;
    RunOn(TwoCallbacks, a, 0);
    RunOn(TwoCallbacks, a, 1);
    assert Entered(Thread([], Free), 0) == Thread([0], Free) && Entered(Thread([], Free), 1) == Thread([1], Free);
  }

  lemma OneDrainsTheOther()
    ensures Run(TwoCallbacks, EachDrainsTheOther[..4])
    ensures After(TwoCallbacks, EachDrainsTheOther[..4])
         == State(BothInside[1 := Sub(true, 1, true)], {0}, [Thread([0], Draining(1, 0)), Thread([1], Free)])
  {
    hide Run, After, Count;
    var a := EachDrainsTheOther;
    EachInsideItsOwn();
    RunOn(TwoCallbacks, a, 2);
    assert After(TwoCallbacks, a[..3]) == State(BothInside, {0}, [Thread([0], Taken(1)), Thread([1], Free)]);
    CountOfOne(0, 1);
    RunOn(TwoCallbacks, a, 3);
  }

  lemma EachDrainsTheOtherRuns()
    ensures Run(TwoCallbacks, EachDrainsTheOther)
    ensures After(TwoCallbacks, EachDrainsTheOther).threads
         == [Thread([0], Draining(1, 0)), Thread([1], Draining(0, 0))]
  {
    hide Run, After, Count;
    var a := EachDrainsTheOther;
    OneDrainsTheOther();
    RunOn(TwoCallbacks, a, 4);
    CountOfOne(1, 0);
    RunOn(TwoCallbacks, a, 5);
    assert a[..6] == a;
  }

  lemma EachWaitsForTheOther(s: State)
    requires s.threads == [Thread([0], Draining(1, 0)), Thread([1], Draining(0, 0))]
    ensures Stuck(s, {0, 1})
  {
    CountOfOne(0, 0);
    CountOfOne(1, 1);
    assert LiveAt(s, 1, 1) == 1 && LiveAt(s, 0, 0) == 1;
    assert 0 in {0, 1} && 1 in {0, 1};
    assert WaitsFor(s, 0, {0, 1}) && WaitsFor(s, 1, {0, 1});
  }

  /** Two callbacks, each cancelling the other one from inside itself, wait for each other for ever. */
  lemma EachDrainsTheOtherIsStuck()
    ensures Inv(TwoCallbacks) && Run(TwoCallbacks, EachDrainsTheOther)
    ensures
      var s := After(TwoCallbacks, EachDrainsTheOther);
      Stuck(s, {0, 1}) && !CanReturn(s, 0) && !CanReturn(s, 1)
  {
    FreshIsInv(TwoCallbacks);
    hide Inv, CanReturn, Run, After;
    EachDrainsTheOtherRuns();
    var s := After(TwoCallbacks, EachDrainsTheOther);
    EachWaitsForTheOther(s);
    CountIsExact(TwoCallbacks, EachDrainsTheOther);
    assert 0 in {0, 1} && 1 in {0, 1};
    hide Stuck;
    CallCanReturnIff(s, 0);
    CallCanReturnIff(s, 1);
  }
}
