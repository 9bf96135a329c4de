/** What the dispatcher promises over whole runs. */
module DispatcherTheorems {
  import opened Sequences
  import opened DispatcherCore
  import opened DispatcherInvariant
  import opened DispatcherProtocol
  import opened DispatcherSteps

  // ----- every callback sees its messages once and in order -----

  /** The message this event appends to the queue of an entry, if any. */
  function AcceptedNow(s: State, e: Event, id: EntryId): seq<Message>
  {
    if e.Enqueue? && Enabled(s, e) && EnqueueSpec(s.core, e.message).1 && id in Eligible(s.core) then [e.message] else []
  }

  /** The message this event hands from an entry's queue to a worker, if any. */
  function TakenNow(s: State, e: Event, id: EntryId): seq<Message>
  {
    if e.PickUp? && Enabled(s, e) && PickUpSpec(s.core).1.Work? && PickUpSpec(s.core).1.id == id
    then [PickUpSpec(s.core).1.message] else []
  }

  function AcceptedIn(s: State, events: seq<Event>, id: EntryId): seq<Message>
  {
    if events == [] then [] else AcceptedIn(s, Front(events), id) + AcceptedNow(After(s, Front(events)), Last(events), id)
  }

  function TakenIn(s: State, events: seq<Event>, id: EntryId): seq<Message>
  {
    if events == [] then [] else TakenIn(s, Front(events), id) + TakenNow(After(s, Front(events)), Last(events), id)
  }

  function PendingOf(s: State, id: EntryId): seq<Message>
  {
    if id in s.core.entries then s.core.entries[id].pending else []
  }

  predicate LiveEntry(s: State, id: EntryId)
  {
    id in s.core.entries && !s.core.entries[id].cancelled
  }

  /** The entry keeps its queue, or loses it by being cancelled; cancellation is final. */
  ghost predicate SameQueue(c: Core, c': Core, id: EntryId)
  {
    && (id in c.entries ==> id in c'.entries)
    && (id in c'.entries && !c'.entries[id].cancelled ==>
          if id in c.entries then !c.entries[id].cancelled && c'.entries[id].pending == c.entries[id].pending
          else c'.entries[id].pending == [])
  }

  lemma QuietSections(c: Core, id: EntryId, x: EntryId, owner: string, self: set<EntryId>, deregister: bool)
    requires CoreInv(c)
    ensures SameQueue(c, RegisterSpec(c, owner).0, id)
    ensures SameQueue(c, CompleteSpec(c, x, deregister).0, id)
    ensures SameQueue(c, ReleaseSpec(c, x), id)
    ensures SameQueue(c, EraseSpec(c, x), id)
    ensures SameQueue(c, DetachSpec(c, owner, self).0, id)
    ensures SameQueue(c, StopSpec(c), id)
  {
  }

  /** Every event but a delivery and a pick-up leaves the queues of live entries alone. */
  lemma QuietQueue(s: State, e: Event, id: EntryId)
    requires CoreInv(s.core) && Enabled(s, e) && !e.Enqueue? && !e.PickUp?
    ensures SameQueue(s.core, Step(s, e).core, id)
  {
    QuietSections(s.core, id, 0, "", {}, false);
    match e
    case Register(owner) => QuietSections(s.core, id, 0, owner, {}, false);
    case Complete(w) => QuietSections(s.core, id, s.workers[w].id, "", {}, s.workers[w].deregister);
    case Release(w) => QuietSections(s.core, id, s.workers[w].id, "", {}, false);
    case Erase(w) => QuietSections(s.core, id, s.workers[w].id, "", {}, false);
    case Detach(r) => QuietSections(s.core, id, 0, s.removals[r].command, Own(s, s.removals[r]), false);
    case _ =>
  }

  lemma PickUpQueue(s: State, w: WorkerId, id: EntryId)
    requires CoreInv(s.core) && Serial(s) && Leases(s) && Enabled(s, PickUp(w))
    ensures var (c, picked) := PickUpSpec(s.core);
      && picked.Work? && c.entries.Keys == s.core.entries.Keys
      && (id in s.core.entries ==>
            && c.entries[id].cancelled == s.core.entries[id].cancelled
            && s.core.entries[id].pending == (if picked.id == id then [picked.message] else []) + c.entries[id].pending)
      && LiveEntry(s, picked.id)
  {
    PickUpFacts(s, w);
    assert s.core.ready[0] in s.core.ready;
  }

  /** One event moves messages between producer, queue and worker without losing or reordering any. */
  lemma QueueStep(s: State, e: Event, id: EntryId)
    requires CoreInv(s.core) && Serial(s) && Leases(s) && Enabled(s, e)
    ensures var t := Step(s, e);
      && (LiveEntry(t, id) ==> TakenNow(s, e, id) + PendingOf(t, id) == PendingOf(s, id) + AcceptedNow(s, e, id))
      && (!LiveEntry(t, id) ==> TakenNow(s, e, id) == [] && AcceptedNow(s, e, id) == [])
      && (id in s.core.entries ==> id in t.core.entries && (LiveEntry(t, id) ==> LiveEntry(s, id)))
  {
    if e.Enqueue? {
      EnqueueQueue(s.core, e.message, id);
    } else if e.PickUp? {
      PickUpQueue(s, e.w, id);
    } else {
      QuietQueue(s, e, id);
    }
  }

  lemma EnqueueQueue(c: Core, message: Message, id: EntryId)
    requires CoreInv(c)
    ensures var (c', ok) := EnqueueSpec(c, message);
      && c'.entries.Keys == c.entries.Keys
      && (id in c.entries ==>
            && c'.entries[id].cancelled == c.entries[id].cancelled
            && c'.entries[id].pending == c.entries[id].pending + (if ok && id in Eligible(c) then [message] else []))
      && (id in Eligible(c) ==> id in c.entries && !c.entries[id].cancelled)
  {
    LiveIsRegistered(c);
    EnqueueAllOrNone(c, message);
  }

  /**
   In every run, what workers took from a live entry followed by what is still queued is exactly what
   was accepted for it, in order; once cancelled, what was taken is a prefix of what was accepted.
   */
  lemma {:induction false} FifoDelivery(s: State, events: seq<Event>, id: EntryId)
    requires Inv(s) && Run(s, events) && id !in s.core.entries
    ensures var t := After(s, events); var taken, accepted := TakenIn(s, events, id), AcceptedIn(s, events, id);
      && (LiveEntry(t, id) ==> taken + PendingOf(t, id) == accepted)
      && taken <= accepted
      && (id !in t.core.entries ==> taken == accepted == [])
  {
    if events != [] {
      var front, e := Front(events), Last(events);
      var m := After(s, front);
      FifoDelivery(s, front, id);
      ReachableInv(s, front);
      QueueStep(m, e, id);
      QueueArithmetic(TakenIn(s, front, id), AcceptedIn(s, front, id), PendingOf(m, id),
                      TakenNow(m, e, id), AcceptedNow(m, e, id), PendingOf(Step(m, e), id));
    }
  }

  lemma QueueArithmetic(taken: seq<Message>, accepted: seq<Message>, pending: seq<Message>,
                        out: seq<Message>, in': seq<Message>, after: seq<Message>)
    ensures taken + pending == accepted && out + after == pending + in' ==> (taken + out) + after == accepted + in'
    ensures taken <= accepted && out == [] ==> taken + out <= accepted + in'
    ensures taken == [] && accepted == [] && pending == [] && out + after == pending + in' ==> (taken + out) + after == accepted + in'
  {
    if taken + pending == accepted && out + after == pending + in' {
      assert (taken + out) + after == taken + (out + after);
      assert taken + (pending + in') == (taken + pending) + in';
    }
  }

  // ----- owner removal is a barrier -----

  predicate IsOut(c: Core, id: EntryId) { id in c.entries && id !in c.callbacks }

  /** No critical section puts an entry back that has left the registry. */
  lemma SectionsLeaveOut(c: Core, id: EntryId, message: Message, x: EntryId, owner: string, self: set<EntryId>, deregister: bool)
    requires IsOut(c, id) && id != c.nextId
    ensures IsOut(RegisterSpec(c, owner).0, id) && IsOut(EnqueueSpec(c, message).0, id)
    ensures c.ready != [] ==> IsOut(PickUpSpec(c).0, id)
    ensures IsOut(CompleteSpec(c, x, deregister).0, id) && IsOut(ReleaseSpec(c, x), id) && IsOut(EraseSpec(c, x), id)
    ensures IsOut(DetachSpec(c, owner, self).0, id) && IsOut(StopSpec(c), id)
  {
  }

  /** An entry that left the registry never comes back. */
  lemma OutStaysOut(s: State, e: Event, id: EntryId)
    requires CoreInv(s.core) && Enabled(s, e) && IsOut(s.core, id)
    ensures IsOut(Step(s, e).core, id)
  {
    assert id != s.core.nextId;
    hide CoreInv;
    SectionsLeaveOut(s.core, id, if e.Enqueue? then e.message else 0, 0, "", {}, false);
    match e
    case Register(owner) => SectionsLeaveOut(s.core, id, 0, 0, owner, {}, false);
    case Complete(w) => SectionsLeaveOut(s.core, id, 0, s.workers[w].id, "", {}, s.workers[w].deregister);
    case Release(w) => SectionsLeaveOut(s.core, id, 0, s.workers[w].id, "", {}, false);
    case Erase(w) => SectionsLeaveOut(s.core, id, 0, s.workers[w].id, "", {}, false);
    case Detach(d) => SectionsLeaveOut(s.core, id, 0, 0, s.removals[d].command, Own(s, s.removals[d]), false);
    case _ =>
  }

  lemma {:induction false} OutStaysOutForever(s: State, events: seq<Event>, id: EntryId)
    requires Inv(s) && Run(s, events) && id in s.core.entries && id !in s.core.callbacks
    ensures id in After(s, events).core.entries && id !in After(s, events).core.callbacks
  {
    if events != [] {
      OutStaysOutForever(s, Front(events), id);
      ReachableInv(s, Front(events));
      OutStaysOut(After(s, Front(events)), Last(events), id);
    }
  }

  /** Nobody holds a lease on an entry whose count is zero, and unregistered entries never gain one. */
  lemma DrainedStep(s: State, e: Event, id: EntryId)
    requires CoreInv(s.core) && Serial(s) && Leases(s) && Enabled(s, e)
    requires id !in s.core.callbacks && Holders(s, id) == {}
    ensures Holders(Step(s, e), id) == {}
  {
    forall v | v in s.workers ensures !Holds(s.workers[v], id) { assert v !in Holders(s, id); }
    if e.PickUp? { PickUpFacts(s, e.w); }
    forall v | v in Step(s, e).workers ensures !Holds(Step(s, e).workers[v], id) {}
  }

  /**
   When a removal returns, none of the entries it detached is leased or executing, and none will ever
   be again, whatever happens afterwards.
   */
  lemma {:induction false} RemovalIsABarrier(s: State, r: RemovalId, events: seq<Event>, id: EntryId)
    requires Inv(s) && Enabled(s, Finish(r)) && id in s.removals[r].removed && Run(Step(s, Finish(r)), events)
    ensures var t := After(Step(s, Finish(r)), events);
      id in t.core.entries && id !in t.core.callbacks && t.core.entries[id].leases == 0 && Holders(t, id) == {}
  {
    var s0 := Step(s, Finish(r));
    InvStep(s, Finish(r));
    assert RemovalOk(s, s.removals[r]);
    if events == [] {
      assert |Holders(s0, id)| == 0;
    } else {
      var m := After(s0, Front(events));
      RemovalIsABarrier(s, r, Front(events), id);
      ReachableInv(s0, Front(events));
      OutStaysOut(m, Last(events), id);
      DrainedStep(m, Last(events), id);
      ReachableInv(s0, events);
    }
  }

  /**
   From its critical section on, a removal has taken every entry of its owner out of the registry for
   good, except the one whose callback it was called from.  Any of them still executing is one that
   this removal, or another one that took it, has yet to wait for.
   */
  lemma RemovalTakesTheOwner(s: State, r: RemovalId, events: seq<Event>, id: EntryId)
    requires Inv(s) && Enabled(s, Detach(r)) && Run(Step(s, Detach(r)), events)
    requires id in s.core.entries && s.core.entries[id].owner == s.removals[r].command && id !in Own(s, s.removals[r])
    ensures var t := After(Step(s, Detach(r)), events);
      && id !in t.core.callbacks
      && (Executors(t, id) != {} ==> t.core.stopping || exists q :: q in t.removals && Undrained(t.removals[q], id))
  {
    var s0, t := Step(s, Detach(r)), After(Step(s, Detach(r)), events);
    InvStep(s, Detach(r));
    OutStaysOutForever(s0, events, id);
    ReachableInv(s0, events);
    if Executors(t, id) != {} {
      var w :| w in Executors(t, id);
      assert Findable(t, id);
    }
  }

  /** A removal called from inside a callback cancels that entry but leaves it registered. */
  lemma OwnEntryStaysRegistered(s: State, r: RemovalId, id: EntryId)
    requires Inv(s) && Enabled(s, Detach(r)) && id in Own(s, s.removals[r]) && id in s.core.callbacks
    ensures id in Step(s, Detach(r)).core.callbacks
    ensures s.core.entries[id].owner == s.removals[r].command ==> !LiveEntry(Step(s, Detach(r)), id)
  {
    var p := s.removals[r];
    assert id !in Taken(s.core, p.command, Own(s, p));
  }

  // ----- the cancellation gate -----

  predicate OnlyCrossed(s: State, w: WorkerId)
  {
    w in s.workers && s.workers[w].Crossed?
  }

  function PickUps(events: seq<Event>): seq<WorkerId>
  {
    if events == [] then []
    else PickUps(Front(events)) + (if Last(events).PickUp? then [Last(events).w] else [])
  }

  lemma GateStep(s: State, r: RemovalId, e: Event)
    requires Removals(s) && Crossing(s) && Enabled(s, e) && r in s.removals && Closing(s.removals[r]) && e != Reopen(r)
    ensures r in Step(s, e).removals && Closing(Step(s, e).removals[r])
    ensures forall w :: OnlyCrossed(Step(s, e), w) ==> OnlyCrossed(s, w) && !e.PickUp?
    ensures e.PickUp? ==> OnlyCrossed(s, e.w)
  {
    assert r in ClosedBy(s);
  }

  /**
   From the moment a cancellation is published until that request is withdrawn, work is picked up at most
   once more, and only by a worker that had already passed the wait predicate.
   */
  lemma {:induction false} GateBoundsPickUps(s: State, r: RemovalId, events: seq<Event>)
    requires Inv(s) && r in s.removals && Closing(s.removals[r]) && Run(s, events) && Reopen(r) !in events
    ensures r in After(s, events).removals && Closing(After(s, events).removals[r])
    ensures forall w :: OnlyCrossed(After(s, events), w) ==> OnlyCrossed(s, w) && PickUps(events) == []
    ensures |PickUps(events)| <= 1 && forall w :: w in PickUps(events) ==> OnlyCrossed(s, w)
  {
    if events != [] {
      var front, e := Front(events), Last(events);
      var m := After(s, front);
      assert e in events && events == front + [e];
      GateBoundsPickUps(s, r, front);
      ReachableInv(s, front);
      GateStep(m, r, e);
    }
  }
}
