/**
 Leases outlive execution.  A worker puts its entry back in line before it gives up its lease,
 so two workers can hold leases on one entry.  Whether a removal can still find, and wait
 for, every leased entry therefore depends on what a retiring worker erases.
 */
module DispatcherLeases {
  import opened Sequences
  import opened DispatcherCore
  import opened DispatcherInvariant
  import opened DispatcherProtocol
  import opened DispatcherSteps
  import opened DispatcherTheorems

  /** Every leased entry, not only every executing one, can still be found and waited for. */
  ghost predicate LeasesFindable(s: State)
  {
    forall id :: id in s.core.entries && s.core.entries[id].leases > 0 ==> Findable(s, id)
  }

  /** A retiring worker takes out of the registry an entry on which somebody else still holds a lease. */
  predicate ErasesLeased(s: State, e: Event)
    requires Enabled(s, e)
  {
    e.Erase? && var id := s.workers[e.w].id;
      id in s.core.callbacks && id in s.core.entries && s.core.entries[id].leases > 0
  }

  lemma FindableStep(s: State, e: Event, id: EntryId)
    requires CoreInv(s.core) && Enabled(s, e) && Findable(s, id) && !e.Erase?
    ensures Findable(Step(s, e), id)
         || (e.DrainNext? && id in s.core.entries && s.core.entries[id].leases == 0)
  {
    if !RemovalEvent(e) {
      RegistryStays(s, e, id);
      SameFinders(s, Step(s, e), id);
    } else if e.Detach? {
      FindableDetach(s, e.r, id);
    } else if e.DrainNext? {
      FindableDrain(s, e.r, id);
    } else if e.Reopen? {
      FindableReopen(s, e.r, id);
    } else if e.Publish? {
      SameFinders(s, PublishState(s, e.r, e.command, e.caller), id);
    } else {
      SameFinders(s, s.(removals := s.removals - {e.r}), id);
    }
  }

  lemma FindableReopen(s: State, r: RemovalId, id: EntryId)
    requires Findable(s, id) && r in s.removals && s.removals[r].Detached? && s.core.cancellationRequests > 0
    ensures Findable(ReopenState(s, r), id)
  {
    assert s.removals[r].removed[0..] == s.removals[r].removed;
    SameFinders(s, ReopenState(s, r), id);
  }

  lemma FindableDrain(s: State, r: RemovalId, id: EntryId)
    requires Findable(s, id) && Enabled(s, DrainNext(r))
    ensures Findable(DrainNextState(s, r), id) || (id in s.core.entries && s.core.entries[id].leases == 0)
  {
    var p := s.removals[r];
    assert p.removed[p.next..] == [p.removed[p.next]] + p.removed[p.next + 1..];
    if id != p.removed[p.next] { SameFinders(s, DrainNextState(s, r), id); }
  }

  lemma FindableDetach(s: State, r: RemovalId, id: EntryId)
    requires CoreInv(s.core) && Findable(s, id) && r in s.removals && s.removals[r].Published?
    ensures Findable(DetachState(s, r), id)
  {
    var t := DetachState(s, r);
    DetachFacts(s.core, s.removals[r].command, Own(s, s.removals[r]));
    if id in s.core.callbacks {
      assert id in t.core.callbacks || Undrained(t.removals[r], id);
    } else if !s.core.stopping {
      var q :| q in s.removals && Undrained(s.removals[q], id);
      assert q in t.removals && Undrained(t.removals[q], id);
    }
  }

  lemma RegistryStays(s: State, e: Event, id: EntryId)
    requires Enabled(s, e) && !e.Erase? && !RemovalEvent(e)
    ensures Step(s, e).removals == s.removals
    ensures id in s.core.callbacks ==> id in Step(s, e).core.callbacks || Step(s, e).core.stopping
    ensures s.core.stopping ==> Step(s, e).core.stopping
  {
  }

  lemma SameFinders(s: State, t: State, id: EntryId)
    requires Findable(s, id)
    requires id in s.core.callbacks ==> id in t.core.callbacks || t.core.stopping
    requires s.core.stopping ==> t.core.stopping
    requires forall r :: r in s.removals && Undrained(s.removals[r], id) ==> r in t.removals && Undrained(t.removals[r], id)
    ensures Findable(t, id)
  {
  }

  /** Leases appear only by pick-up, and only on registered entries. */
  lemma LeaseStep(s: State, e: Event, id: EntryId)
    requires CoreInv(s.core) && Serial(s) && Leases(s) && Enabled(s, e)
    requires id in Step(s, e).core.entries && Step(s, e).core.entries[id].leases > 0
    ensures (id in s.core.entries && s.core.entries[id].leases > 0) || id in Step(s, e).core.callbacks
  {
    match e
    case PickUp(w) => PickUpFacts(s, w);
    case Complete(w) => LeaseSections(s.core, s.workers[w].id, "", {}, s.workers[w].deregister, id);
    case Release(w) => LeaseSections(s.core, s.workers[w].id, "", {}, false, id);
    case Erase(w) => LeaseSections(s.core, s.workers[w].id, "", {}, false, id);
    case Register(owner) => LeaseSections(s.core, 0, owner, {}, false, id);
    case Detach(r) => LeaseSections(s.core, 0, s.removals[r].command, Own(s, s.removals[r]), false, id);
    case Enqueue(message) => EnqueueEffect(s.core, message);
    case _ => LeaseSections(s.core, 0, "", {}, false, id);
  }

  ghost predicate NoNewLease(c: Core, c': Core, id: EntryId)
  {
    id in c'.entries && c'.entries[id].leases > 0 ==> id in c.entries && c.entries[id].leases > 0
  }

  lemma LeaseSections(c: Core, x: EntryId, owner: string, self: set<EntryId>, deregister: bool, id: EntryId)
    ensures NoNewLease(c, RegisterSpec(c, owner).0, id)
    ensures NoNewLease(c, CompleteSpec(c, x, deregister).0, id)
    ensures NoNewLease(c, ReleaseSpec(c, x), id)
    ensures NoNewLease(c, EraseSpec(c, x), id)
    ensures NoNewLease(c, DetachSpec(c, owner, self).0, id)
    ensures NoNewLease(c, StopSpec(c), id)
  {
  }

  /** The one way a leased entry gets out of everybody's sight is a retiring worker erasing it while another holds a lease. */
  lemma LeaseEscapesOnlyByErase(s: State, e: Event)
    requires Inv(s) && LeasesFindable(s) && Enabled(s, e)
    ensures LeasesFindable(Step(s, e)) <==> !ErasesLeased(s, e)
  {
    var t := Step(s, e);
    if e.Erase? {
      EraseLease(s, e.w);
    } else {
      forall id | id in t.core.entries && t.core.entries[id].leases > 0 ensures Findable(t, id) {
        LeaseStep(s, e, id);
        if id !in t.core.callbacks { FindableStep(s, e, id); }
        if e.DrainNext? { assert t.core == s.core; }
      }
    }
  }

  lemma EraseLease(s: State, w: WorkerId)
    requires Inv(s) && LeasesFindable(s) && Enabled(s, Erase(w))
    ensures LeasesFindable(EraseState(s, w)) <==> !ErasesLeased(s, Erase(w))
  {
    var id, t := s.workers[w].id, EraseState(s, w);
    assert Retires(s.workers[w]);
    forall x | Findable(s, x) && (x != id || id !in s.core.callbacks) ensures Findable(t, x) { SameFinders(s, t, x); }
    if id in s.core.callbacks {
      forall r | r in t.removals ensures !Undrained(t.removals[r], id) {
        assert RemovalOk(s, s.removals[r]);
      }
      assert !Findable(t, id);
    }
  }

  /** No step of the run erases a leased entry. */
  ghost predicate ErasesNoLease(s: State, events: seq<Event>)
  {
    forall n :: 0 <= n < |events| && Enabled(After(s, events[..n]), events[n]) ==>
      !ErasesLeased(After(s, events[..n]), events[n])
  }

  /** Without such an erase, every removal that returns leaves no lease behind that nobody waits for. */
  lemma {:induction false} LeasesFindableInRun(s: State, events: seq<Event>)
    requires Inv(s) && LeasesFindable(s) && Run(s, events) && ErasesNoLease(s, events)
    ensures LeasesFindable(After(s, events))
  {
    if events != [] {
      var front := Front(events);
      forall n | 0 <= n < |front| ensures front[..n] == events[..n] && front[n] == events[n] {}
      LeasesFindableInRun(s, front);
      ReachableInv(s, front);
      LeaseEscapesOnlyByErase(After(s, front), Last(events));
    }
  }

  /**
   A whole removal, in a run in which no leased entry is erased: when it returns, an entry of its owner
   that was there when it took the registry and is still leased is the one it was called from inside of,
   or another removal has yet to wait for it, or the dispatcher is stopping.
   */
  lemma ReturnedRemovalLeavesNoLease(s: State, r: RemovalId, events: seq<Event>, id: EntryId)
    requires Inv(s) && LeasesFindable(s) && Enabled(s, Detach(r)) && Run(Step(s, Detach(r)), events)
    requires ErasesNoLease(Step(s, Detach(r)), events) && Enabled(After(Step(s, Detach(r)), events), Finish(r))
    requires id in s.core.entries && s.core.entries[id].owner == s.removals[r].command
    ensures var t := Step(After(Step(s, Detach(r)), events), Finish(r));
      id in t.core.entries && t.core.entries[id].leases > 0 ==>
        || id in Own(s, s.removals[r]) || t.core.stopping
        || exists q :: q != r && q in t.removals && Undrained(t.removals[q], id)
  {
    var s0 := Step(s, Detach(r));
    var m := After(s0, events);
    var t := Step(m, Finish(r));
    InvStep(s, Detach(r));
    LeaseEscapesOnlyByErase(s, Detach(r));
    LeasesFindableInRun(s0, events);
    ReachableInv(s0, events);
    LeaseEscapesOnlyByErase(m, Finish(r));
    if id in t.core.entries && t.core.entries[id].leases > 0 && id !in Own(s, s.removals[r]) {
      RemovalTakesTheOwner(s, r, events, id);
      assert Findable(t, id);
    }
  }

  // ----- who can be missed -----

  predicate SameRetirement(s: State, v: WorkerId, w: WorkerId)
    requires v in s.workers && w in s.workers
  {
    && Retires(s.workers[v]) && Retires(s.workers[w])
    && s.workers[v].id == s.workers[w].id && s.workers[v].id in s.core.callbacks
  }

  /** A registered entry has at most one worker on its way to erase it. */
  ghost predicate SoleRetirer(s: State)
  {
    forall v, w :: v in s.workers && w in s.workers && SameRetirement(s, v, w) ==> v == w
  }

  /** A worker that retires did so before, or has just completed. */
  lemma RetiresBefore(s: State, e: Event, w: WorkerId)
    requires Enabled(s, e) && w in Step(s, e).workers && Retires(Step(s, e).workers[w])
    ensures w in s.workers
    ensures
      var p := Step(s, e).workers[w];
      (Retires(s.workers[w]) && s.workers[w].id == p.id) || (e == Complete(w) && Executes(s.workers[w], p.id))
  {
  }

  lemma SoleRetirerStep(s: State, e: Event)
    requires Inv(s) && SoleRetirer(s) && Enabled(s, e)
    ensures SoleRetirer(Step(s, e))
  {
    var t := Step(s, e);
    forall v, w | v in t.workers && w in t.workers && SameRetirement(t, v, w) ensures v == w {
      var id := t.workers[v].id;
      RetiresBefore(s, e, v);
      RetiresBefore(s, e, w);
      assert id in s.core.entries;
      if id !in s.core.callbacks {
        OutStaysOut(s, e, id);
      }
      hide Step;
      assert Retiring(s);
      assert SameRetirement(s, v, w) || v == w;
    }
  }

  lemma {:induction false} SoleRetirerInRun(s: State, events: seq<Event>)
    requires Inv(s) && SoleRetirer(s) && Run(s, events)
    ensures SoleRetirer(After(s, events))
  {
    if events != [] {
      SoleRetirerInRun(s, Front(events));
      ReachableInv(s, Front(events));
      SoleRetirerStep(After(s, Front(events)), Last(events));
    }
  }

  /** A worker that is past a callback which did not deregister, or still in it. */
  predicate WentIn(p: Worker, id: EntryId)
  {
    p == Returned(id, false) || p == Completed(id, false) || (p.Running? && p.id == id)
  }

  /** One step: whoever went in was inside before, or has just been let in. */
  lemma WentInStep(s: State, e: Event, w: WorkerId, id: EntryId)
    requires Enabled(s, e) && w in Step(s, e).workers && WentIn(Step(s, e).workers[w], id)
    ensures w in s.workers && (e == Begin(w, true) || WentIn(s.workers[w], id))
  {
  }

  /**
   The worker was granted its module's execution lease at event `n`, and has been in that turn of its
   loop, and so under that lease, ever since.
   */
  ghost predicate GrantedAt(s: State, events: seq<Event>, n: nat, w: WorkerId, id: EntryId)
    requires n < |events|
  {
    && events[n] == Begin(w, true)
    && forall k :: n < k <= |events| ==>
         w in After(s, events[..k]).workers && WentIn(After(s, events[..k]).workers[w], id)
  }

  /** In every run, a worker past a callback that did not deregister went into it under a granted lease, and still has that. */
  lemma {:induction false} NormalReturnWasGranted(s: State, events: seq<Event>, w: WorkerId, id: EntryId)
    requires Run(s, events) && w in s.workers && !WentIn(s.workers[w], id)
    requires w in After(s, events).workers && WentIn(After(s, events).workers[w], id)
    ensures exists n :: 0 <= n < |events| && GrantedAt(s, events, n, w, id)
  {
    var front, e := Front(events), Last(events);
    assert events[..|events|] == events;
    WentInStep(After(s, front), e, w, id);
    var n := |front|;
    if e != Begin(w, true) {
      NormalReturnWasGranted(s, front, w, id);
      n :| 0 <= n < |front| && GrantedAt(s, front, n, w, id);
      forall k | n < k <= |events|
        ensures w in After(s, events[..k]).workers && WentIn(After(s, events[..k]).workers[w], id)
      {
        if k <= |front| { assert front[..k] == events[..k]; }
      }
    }
    assert GrantedAt(s, events, n, w, id);
  }

  /**
   The leases that an erase puts out of sight belong to workers that are past the callback and had it
   return without deregistering.  Such a worker was let into the callback in this turn of its loop, with
   its module's execution lease granted, and it keeps that until it is back at the top of its loop: whoever
   waits for the module's execution leases first, as unload and reload do, finds no such worker left.
   */
  lemma MissedLeasesReturnedNormally(s: State, events: seq<Event>, w: WorkerId, v: WorkerId, id: EntryId)
    requires Inv(s) && SoleRetirer(s) && Run(s, events)
    requires
      var t := After(s, events);
      && Enabled(t, Erase(w)) && ErasesLeased(t, Erase(w)) && t.workers[w].id == id
      && v in t.workers && Holds(t.workers[v], id)
    ensures After(s, events).workers[v] == Completed(id, false)
    ensures v in s.workers && !WentIn(s.workers[v], id) ==> exists n :: 0 <= n < |events| && GrantedAt(s, events, n, v, id)
  {
    ReachableInv(s, events);
    SoleRetirerInRun(s, events);
    assert !SameRetirement(After(s, events), v, w);
    if v in s.workers && !WentIn(s.workers[v], id) {
      NormalReturnWasGranted(s, events, v, id);
    }
  }

  // ----- a run in which a removal returns while its owner's entry is still leased -----

  predicate Leads(a: State, e: Event, b: State)
  {
    Enabled(a, e) && Step(a, e) == b
  }

  /** One more event at the end of a run. */
  lemma Extend(s: State, events: seq<Event>, a: State, e: Event, b: State) returns (longer: seq<Event>)
    requires Run(s, events) && After(s, events) == a && Leads(a, e, b)
    ensures longer == events + [e] && Run(s, longer) && After(s, longer) == b
  {
    longer := events + [e];
    assert Front(longer) == events && Last(longer) == e;
  }

  /** A registry holding the one entry of the example. */
  function Only(e: Entry, registered: bool, ready: seq<EntryId>): Core
  {
    Core(map[1 := e], if registered then [1] else [], ready, |e.pending|, 2, 0, false, 8)
  }

  function Pair(c: Core, p: Worker, q: Worker): State
  {
    State(c, map[0 := p, 1 := q], map[])
  }

  lemma EnqueueOnly(e: Entry, ready: seq<EntryId>, m: Message)
    requires !e.cancelled && |e.pending| < 8
    ensures EnqueueSpec(Only(e, true, ready), m)
         == (Only(e.(pending := e.pending + [m], scheduled := true), true, ready + if e.scheduled then [] else [1]), true)
  {
    var c := Only(e, true, ready);
    assert [1][1..] == [];
    assert Select([1], Live(c.entries)) == [1];
    assert Select([1], Unscheduled(c.entries)) == if e.scheduled then [] else [1];
    assert Deliver(c.entries, Members([1]) * Live(c.entries), m)
        == map[1 := e.(pending := e.pending + [m], scheduled := true)];
  }

  // the registry in the course of the example
  const QUEUED: Core := Only(Entry("m", [5], true, false, 0), true, [1])
  const LEASED: Core := Only(Entry("m", [], true, false, 1), true, [])
  const WAITING: Core := Only(Entry("m", [6], true, false, 1), true, [])
  const BACK_IN_LINE: Core := Only(Entry("m", [6], true, false, 1), true, [1])
  const LEASED_TWICE: Core := Only(Entry("m", [], true, false, 2), true, [])
  const RETIRED: Core := Only(Entry("m", [], false, true, 2), true, [])
  const RETIRED_ONCE: Core := Only(Entry("m", [], false, true, 1), true, [])
  const ERASED: Core := Only(Entry("m", [], false, true, 1), false, [])

  const START: State := Init(8, {0, 1})
  const HELD: Worker := Completed(1, false)

  lemma PickUpOnly(e: Entry)
    requires !e.cancelled && e.pending != []
    ensures PickUpSpec(Only(e, true, [1]))
         == (Only(e.(pending := e.pending[1..], leases := e.leases + 1), true, []), Work(1, e.pending[0]))
  {
    var e' := e.(pending := e.pending[1..], leases := e.leases + 1);
    assert [1][1..] == [];
    assert map[1 := e][1 := e'] == map[1 := e'];
  }

  lemma CompleteExample()
    ensures CompleteSpec(WAITING, 1, false) == (BACK_IN_LINE, false)
    ensures CompleteSpec(LEASED_TWICE, 1, true) == (RETIRED, true)
    ensures ReleaseSpec(RETIRED, 1) == RETIRED_ONCE
    ensures EraseSpec(RETIRED_ONCE, 1) == ERASED
  {
    assert Exclude([1], {1}) == [];
    assert [] + [1] == [1];
    assert LEASED_TWICE.entries[1 := Entry("m", [], false, true, 2)] == RETIRED.entries;
    assert RETIRED.entries[1 := Entry("m", [], false, true, 1)] == RETIRED_ONCE.entries;
  }

  lemma DetachExample()
    ensures DetachSpec(ERASED.(cancellationRequests := 1), "m", {}) == (ERASED.(cancellationRequests := 1), [])
  {
    var c := ERASED.(cancellationRequests := 1);
    assert Mine(c, "m") == {};
    assert CancelAll(c.entries, {}) == c.entries;
  }

  lemma MovedPair(c: Core, p: Worker, q: Worker, r: Worker)
    ensures Moved(Pair(c, p, q), 0, r) == Pair(c, r, q) && Moved(Pair(c, p, q), 1, r) == Pair(c, p, r)
  {
  }

  /** Registration and a first message. */
  lemma ExampleQueued() returns (events: seq<Event>)
    ensures Run(START, events) && After(START, events) == Seat(Only(Entry("m", [5], true, false, 0), true, [1]), 0, Waiting, Waiting)
  {
    var e := Entry("m", [], false, false, 0);
    var c := Only(e, true, []);
    EnqueueOnly(e, [], 5);
    assert [] + [1] == [1] && [] + [5] == [5];
    events := Extend(START, [], START, Register("m"), Pair(c, Waiting, Waiting));
    events := Extend(START, events, Pair(c, Waiting, Waiting), Enqueue(5), Pair(QUEUED, Waiting, Waiting));
  }

  function Seat(c: Core, w: WorkerId, p: Worker, other: Worker): State
  {
    if w == 0 then Pair(c, p, other) else Pair(c, other, p)
  }

  lemma TurnLeads(e: Entry, w: WorkerId, other: Worker)
    requires w < 2 && !other.Crossed? && !e.cancelled && e.pending != []
    ensures var c := Only(e, true, [1]);
      Leads(Seat(c, w, Waiting, other), Cross(w), Seat(c, w, Crossed, other))
    ensures var c, c' := Only(e, true, [1]), Only(e.(pending := e.pending[1..], leases := e.leases + 1), true, []);
      Leads(Seat(c, w, Crossed, other), PickUp(w), Seat(c', w, PickedUp(1, e.pending[0]), other))
  {
    PickUpOnly(e);
    MovedPair(Only(e, true, [1]), if w == 0 then Waiting else other, if w == 0 then other else Waiting, Crossed);
    MovedPair(Only(e, true, [1]), if w == 0 then Crossed else other, if w == 0 then other else Crossed, PickedUp(1, e.pending[0]));
  }

  lemma BeginLeads(c: Core, w: WorkerId, m: Message, other: Worker)
    requires w < 2
    ensures Leads(Seat(c, w, PickedUp(1, m), other), Begin(w, true), Seat(c, w, Running(1, m), other))
  {
    MovedPair(c, if w == 0 then PickedUp(1, m) else other, if w == 0 then other else PickedUp(1, m), Running(1, m));
  }

  /** A worker takes the first message of the entry and enters its callback. */
  lemma Turn(events: seq<Event>, e: Entry, w: WorkerId, other: Worker) returns (longer: seq<Event>)
    requires w < 2 && !other.Crossed? && !e.cancelled && e.pending != []
    requires Run(START, events) && After(START, events) == Seat(Only(e, true, [1]), w, Waiting, other)
    ensures Run(START, longer)
    ensures After(START, longer)
         == Seat(Only(e.(pending := e.pending[1..], leases := e.leases + 1), true, []), w, Running(1, e.pending[0]), other)
  {
    var c, c' := Only(e, true, [1]), Only(e.(pending := e.pending[1..], leases := e.leases + 1), true, []);
    var m := e.pending[0];
    TurnLeads(e, w, other);
    BeginLeads(c', w, m, other);
    longer := Extend(START, events, Seat(c, w, Waiting, other), Cross(w), Seat(c, w, Crossed, other));
    longer := Extend(START, longer, Seat(c, w, Crossed, other), PickUp(w), Seat(c', w, PickedUp(1, m), other));
    longer := Extend(START, longer, Seat(c', w, PickedUp(1, m), other), Begin(w, true), Seat(c', w, Running(1, m), other));
  }

  lemma ExampleRunning() returns (events: seq<Event>)
    ensures Run(START, events) && After(START, events) == Pair(LEASED, Running(1, 5), Waiting)
  {
    var e := Entry("m", [5], true, false, 0);
    events := ExampleQueued();
    events := Turn(events, e, 0, Waiting);
    TakenOnce(e, 5);
  }

  lemma TakenOnce(e: Entry, m: Message)
    requires e.pending == [m]
    ensures e.pending[1..] == [] && e.pending[0] == m
    ensures e.(pending := e.pending[1..], leases := e.leases + 1) == Entry(e.owner, [], e.scheduled, e.cancelled, e.leases + 1)
  {
  }

  lemma SecondMessageLeads()
    ensures Leads(Pair(LEASED, Running(1, 5), Waiting), Enqueue(6), Pair(WAITING, Running(1, 5), Waiting))
    ensures Leads(Pair(WAITING, Running(1, 5), Waiting), Return(0, false), Pair(WAITING, Returned(1, false), Waiting))
    ensures Leads(Pair(WAITING, Returned(1, false), Waiting), Complete(0), Pair(BACK_IN_LINE, HELD, Waiting))
  {
    CompleteExample();
    EnqueueOnly(Entry("m", [], true, false, 1), [], 6);
    assert [] + [6] == [6];
    MovedPair(WAITING, Running(1, 5), Waiting, Returned(1, false));
    MovedPair(WAITING, Returned(1, false), Waiting, HELD);
  }

  /** The second message arrives while worker 0 runs, so the entry goes back in line, lease still held. */
  lemma ExampleBackInLine() returns (events: seq<Event>)
    ensures Run(START, events) && After(START, events) == Seat(Only(Entry("m", [6], true, false, 1), true, [1]), 1, Waiting, HELD)
  {
    events := ExampleRunning();
    SecondMessageLeads();
    events := Extend(START, events, Pair(LEASED, Running(1, 5), Waiting), Enqueue(6), Pair(WAITING, Running(1, 5), Waiting));
    events := Extend(START, events, Pair(WAITING, Running(1, 5), Waiting), Return(0, false), Pair(WAITING, Returned(1, false), Waiting));
    events := Extend(START, events, Pair(WAITING, Returned(1, false), Waiting), Complete(0), Pair(BACK_IN_LINE, HELD, Waiting));
  }

  lemma RetireLeads()
    ensures Leads(Pair(LEASED_TWICE, HELD, Running(1, 6)), Return(1, true), Pair(LEASED_TWICE, HELD, Returned(1, true)))
    ensures Leads(Pair(LEASED_TWICE, HELD, Returned(1, true)), Complete(1), Pair(RETIRED, HELD, Completed(1, true)))
    ensures Leads(Pair(RETIRED, HELD, Completed(1, true)), Release(1), Pair(RETIRED_ONCE, HELD, Released(1)))
    ensures Leads(Pair(RETIRED_ONCE, HELD, Released(1)), Erase(1), Pair(ERASED, HELD, Waiting))
  {
    CompleteExample();
    MovedPair(LEASED_TWICE, HELD, Running(1, 6), Returned(1, true));
    MovedPair(LEASED_TWICE, HELD, Returned(1, true), Completed(1, true));
    MovedPair(RETIRED, HELD, Completed(1, true), Released(1));
    MovedPair(RETIRED_ONCE, HELD, Released(1), Waiting);
  }

  lemma ExampleSecondRunning() returns (events: seq<Event>)
    ensures Run(START, events) && After(START, events) == Pair(LEASED_TWICE, HELD, Running(1, 6))
  {
    var e := Entry("m", [6], true, false, 1);
    events := ExampleBackInLine();
    events := Turn(events, e, 1, HELD);
    TakenOnce(e, 6);
  }

  /** Worker 1 takes the second message, deregisters, and erases the entry that worker 0 still leases. */
  lemma ExampleErased() returns (events: seq<Event>)
    ensures Run(START, events) && After(START, events) == Pair(ERASED, HELD, Waiting)
  {
    events := ExampleSecondRunning();
    RetireLeads();
    events := Extend(START, events, Pair(LEASED_TWICE, HELD, Running(1, 6)), Return(1, true), Pair(LEASED_TWICE, HELD, Returned(1, true)));
    events := Extend(START, events, Pair(LEASED_TWICE, HELD, Returned(1, true)), Complete(1), Pair(RETIRED, HELD, Completed(1, true)));
    events := Extend(START, events, Pair(RETIRED, HELD, Completed(1, true)), Release(1), Pair(RETIRED_ONCE, HELD, Released(1)));
    events := Extend(START, events, Pair(RETIRED_ONCE, HELD, Released(1)), Erase(1), Pair(ERASED, HELD, Waiting));
  }

  /**
   A run in which a removal of owner "m" starts and returns although an entry of that owner is
   leased, because a retiring worker had erased it while another worker still held its lease.
   */
  lemma RemovalMissesALease() returns (before: seq<Event>, events: seq<Event>)
    ensures events == before + [Publish(0, "m", External), Detach(0), Reopen(0), Finish(0)] && Run(START, events)
    ensures var t := After(START, events);
      && t.removals == map[] && 1 in t.core.entries && t.core.entries[1].owner == "m"
      && t.core.entries[1].leases > 0 && !LeasesFindable(t)
  {
    before := ExampleErased();
    var base := Pair(ERASED, HELD, Waiting);
    RemovalStarts();
    RemovalReturns();
    var r1, r2, r3 := Removing(1, Published("m", External)), Removing(1, Detached("m", External, [])), Removing(0, Draining("m", External, [], 0));
    events := Extend(START, before, base, Publish(0, "m", External), r1);
    events := Extend(START, events, r1, Detach(0), r2);
    events := Extend(START, events, r2, Reopen(0), r3);
    events := Extend(START, events, r3, Finish(0), base);
    assert !Findable(base, 1);
  }

  function Removing(gate: nat, r: Removal): State
  {
    State(ERASED.(cancellationRequests := gate), map[0 := HELD, 1 := Waiting], map[0 := r])
  }

  lemma RemovalStarts()
    ensures Leads(Pair(ERASED, HELD, Waiting), Publish(0, "m", External), Removing(1, Published("m", External)))
    ensures Leads(Removing(1, Published("m", External)), Detach(0), Removing(1, Detached("m", External, [])))
  {
    DetachExample();
    forall p: Removal, q: Removal ensures map[0 := p][0 := q] == map[0 := q] {}
  }

  lemma RemovalReturns()
    ensures Leads(Removing(1, Detached("m", External, [])), Reopen(0), Removing(0, Draining("m", External, [], 0)))
    ensures Leads(Removing(0, Draining("m", External, [], 0)), Finish(0), Pair(ERASED, HELD, Waiting))
  {
    forall p: Removal, q: Removal ensures map[0 := p][0 := q] == map[0 := q] {}
  }
}
