/** Every event of the dispatcher keeps its invariant. */
module DispatcherSteps {
  import opened Sequences
  import opened DispatcherCore
  import opened DispatcherInvariant
  import opened DispatcherProtocol

  // ----- workers that move without changing what they hold -----

  /** The move changes neither what the worker executes or holds nor what it retires. */
  ghost predicate Quiet(p: Worker, q: Worker)
  {
    && (forall id :: Executes(p, id) <==> Executes(q, id))
    && (forall id :: Holds(p, id) <==> Holds(q, id))
    && !Retires(p) && !Retires(q)
  }

  lemma QuietSets(s: State, w: WorkerId, q: Worker, id: EntryId)
    requires w in s.workers && Quiet(s.workers[w], q)
    ensures Executors(Moved(s, w, q), id) == Executors(s, id)
    ensures Holders(Moved(s, w, q), id) == Holders(s, id)
  {
  }

  lemma QuietStrand(s: State, w: WorkerId, q: Worker)
    requires w in s.workers && Quiet(s.workers[w], q) && Strand(s) && Serial(s)
    ensures Strand(Moved(s, w, q)) && Serial(Moved(s, w, q))
  {
    forall id ensures Executors(Moved(s, w, q), id) == Executors(s, id) { QuietSets(s, w, q, id); }
  }

  lemma QuietLeases(s: State, w: WorkerId, q: Worker)
    requires w in s.workers && Quiet(s.workers[w], q) && Leases(s)
    ensures Leases(Moved(s, w, q))
  {
    forall id ensures Holders(Moved(s, w, q), id) == Holders(s, id) { QuietSets(s, w, q, id); }
  }

  lemma QuietTracked(s: State, w: WorkerId, q: Worker)
    requires w in s.workers && Quiet(s.workers[w], q) && Tracked(s) && Retiring(s)
    ensures Tracked(Moved(s, w, q)) && Retiring(Moved(s, w, q))
  {
    var t := Moved(s, w, q);
    forall v, id | v in t.workers && Executes(t.workers[v], id) ensures Findable(t, id) {
      assert Executes(s.workers[v], id) && Findable(s, id);
    }
  }

  lemma QuietRemovals(s: State, w: WorkerId, q: Worker)
    requires w in s.workers && Removals(s)
    requires s.workers[w].Running? ==> !BusyRemoving(s, w)
    ensures Removals(Moved(s, w, q))
  {
    var t := Moved(s, w, q);
    forall r | r in t.removals ensures RemovalOk(t, t.removals[r]) {
      var p := s.removals[r];
      assert RemovalOk(s, p);
      assert p.caller.Inside? ==> p.caller.worker != w;
      assert Own(t, p) == Own(s, p);
    }
    assert ClosedBy(t) == ClosedBy(s);
  }

  lemma QuietKeeps(s: State, w: WorkerId, q: Worker)
    requires Inv(s) && w in s.workers && Quiet(s.workers[w], q)
    requires s.workers[w].Running? ==> !BusyRemoving(s, w)
    requires q.Crossed? ==> LockFree(s) && s.core.ready != [] && !s.core.stopping
    ensures Inv(Moved(s, w, q))
  {
    QuietStrand(s, w, q);
    QuietLeases(s, w, q);
    QuietTracked(s, w, q);
    QuietRemovals(s, w, q);
  }

  // ----- facts that hold in one state -----

  lemma ExecutingIsKnown(s: State, w: WorkerId, id: EntryId)
    requires Leases(s) && w in s.workers && Holds(s.workers[w], id)
    ensures id in s.core.entries && s.core.entries[id].leases > 0
  {
    assert w in Holders(s, id);
  }

  /** A live entry is in the registry, and the ready list names only live entries. */
  lemma LiveIsRegistered(c: Core)
    requires CoreInv(c)
    ensures forall id :: id in c.entries && !c.entries[id].cancelled ==> id in c.callbacks
    ensures forall id :: id in c.ready ==> id in c.entries && !c.entries[id].cancelled
  {
    forall id | id in c.entries && !c.entries[id].cancelled ensures id in c.callbacks { assert EntryOk(c, id); }
  }

  /** Removals only look at leases, membership and running callers. */
  lemma RemovalsFollow(s: State, t: State)
    requires Removals(s) && t.removals == s.removals
    requires t.core.cancellationRequests == s.core.cancellationRequests
    requires forall w :: w in s.workers && s.workers[w].Running? ==> w in t.workers && t.workers[w] == s.workers[w]
    requires forall id :: id in s.core.entries ==> id in t.core.entries
    requires forall id :: id in s.core.entries && id !in s.core.callbacks ==>
               id !in t.core.callbacks && t.core.entries[id].leases <= s.core.entries[id].leases
    ensures Removals(t)
  {
    forall r | r in t.removals ensures RemovalOk(t, t.removals[r]) {
      assert RemovalOk(s, s.removals[r]);
      assert Own(t, t.removals[r]) == Own(s, s.removals[r]);
    }
    assert ClosedBy(t) == ClosedBy(s);
  }

  /** Entries stay findable while the registry grows or stays and removals are untouched. */
  lemma TrackedFollows(s: State, t: State)
    requires Tracked(s) && t.removals == s.removals
    requires forall w, id :: w in t.workers && Executes(t.workers[w], id) ==>
               id in t.core.callbacks || (w in s.workers && Executes(s.workers[w], id))
    requires forall id :: id in s.core.callbacks ==>
               id in t.core.callbacks || t.core.stopping || forall w :: w in t.workers ==> !Executes(t.workers[w], id)
    requires s.core.stopping ==> t.core.stopping
    ensures Tracked(t)
  {
    forall w, id | w in t.workers && Executes(t.workers[w], id) ensures Findable(t, id) {
      if id !in t.core.callbacks { assert Findable(s, id); }
    }
  }

  lemma StrandFollows(s: State, t: State)
    requires Serial(s) && Strand(s) && t.workers.Keys == s.workers.Keys && t.core.ready == s.core.ready
    requires forall w, id :: w in s.workers ==> (Executes(t.workers[w], id) <==> Executes(s.workers[w], id))
    requires forall id :: id in t.core.entries && !t.core.entries[id].cancelled ==>
               && id in s.core.entries && !s.core.entries[id].cancelled
               && t.core.entries[id].scheduled == s.core.entries[id].scheduled
    ensures Serial(t) && Strand(t)
  {
    forall id ensures Executors(t, id) == Executors(s, id) {}
  }

  lemma LeasesFollow(s: State, t: State)
    requires Leases(s) && t.workers.Keys == s.workers.Keys && t.core.entries.Keys == s.core.entries.Keys
    requires forall w, id :: w in s.workers ==> (Holds(t.workers[w], id) <==> Holds(s.workers[w], id))
    requires forall id :: id in s.core.entries ==> t.core.entries[id].leases == s.core.entries[id].leases
    ensures Leases(t)
  {
    forall id ensures Holders(t, id) == Holders(s, id) {}
  }

  lemma RetiringFollows(s: State, t: State)
    requires Retiring(s)
    requires forall w :: w in t.workers && Retires(t.workers[w]) ==>
               w in s.workers && Retires(s.workers[w]) && s.workers[w].id == t.workers[w].id
    requires forall w, id :: w in t.workers && Executes(t.workers[w], id) ==> w in s.workers && Executes(s.workers[w], id)
    requires forall id :: id in t.core.callbacks ==> id in s.core.callbacks
    requires forall id :: id in s.core.entries && s.core.entries[id].cancelled ==>
               id in t.core.entries && t.core.entries[id].cancelled
    ensures Retiring(t)
  {
  }

  // ----- registration, delivery, shutdown -----

  lemma RegisterHands(s: State, owner: string)
    requires CoreInv(s.core) && Serial(s) && Strand(s) && Leases(s)
    ensures var t := s.(core := RegisterSpec(s.core, owner).0); CoreInv(t.core) && Serial(t) && Strand(t) && Leases(t)
  {
    var t := s.(core := RegisterSpec(s.core, owner).0);
    RegisterKeeps(s.core, owner);
    LiveIsRegistered(s.core);
    var new' := s.core.nextId;
    forall w, id | w in s.workers && Holds(s.workers[w], id) ensures id != new' { ExecutingIsKnown(s, w, id); }
    assert Executors(s, new') == {} && Holders(s, new') == {};
    forall id ensures Executors(t, id) == Executors(s, id) && Holders(t, id) == Holders(s, id) {}
  }

  lemma RegisterRetiring(s: State, owner: string)
    requires CoreInv(s.core) && Leases(s) && Retiring(s)
    ensures Retiring(s.(core := RegisterSpec(s.core, owner).0))
  {
    forall w, id | w in s.workers && Holds(s.workers[w], id) ensures id != s.core.nextId { ExecutingIsKnown(s, w, id); }
  }

  lemma RegisterTrail(s: State, owner: string)
    requires CoreInv(s.core) && Serial(s) && Strand(s) && Leases(s) && Retiring(s) && Removals(s) && Tracked(s)
    ensures var t := s.(core := RegisterSpec(s.core, owner).0); Retiring(t) && Removals(t) && Tracked(t)
  {
    var t := s.(core := RegisterSpec(s.core, owner).0);
    RegisterRetiring(s, owner);
    assert Removals(t) by { RemovalsFollow(s, t); }
    assert Tracked(t) by { TrackedFollows(s, t); }
  }

  lemma RegisterStep(s: State, owner: string)
    requires Inv(s) && LockFree(s)
    ensures Inv(s.(core := RegisterSpec(s.core, owner).0))
  {
    RegisterHands(s, owner);
    RegisterTrail(s, owner);
  }

  /** What a delivery does to the flags the strand rule speaks of. */
  lemma EnqueueEffect(c: Core, message: Message)
    requires CoreInv(c)
    ensures var c' := EnqueueSpec(c, message).0;
      c' == c || (
        && c'.entries.Keys == c.entries.Keys && c'.callbacks == c.callbacks && c'.stopping == c.stopping
        && c'.cancellationRequests == c.cancellationRequests
        && (forall id :: id in c.entries ==>
              && c'.entries[id].leases == c.entries[id].leases
              && c'.entries[id].cancelled == c.entries[id].cancelled
              && (c'.entries[id].scheduled <==> c.entries[id].scheduled || !c.entries[id].cancelled))
        && (forall id :: id in c'.ready <==>
              id in c.ready || (id in c.entries && !c.entries[id].cancelled && !c.entries[id].scheduled)))
  {
    LiveIsRegistered(c);
  }

  lemma EnqueueStrand(s: State, t: State)
    requires Serial(s) && Strand(s) && t.workers == s.workers
    requires t.core.entries.Keys == s.core.entries.Keys
    requires forall id :: id in s.core.entries ==>
               && t.core.entries[id].cancelled == s.core.entries[id].cancelled
               && (t.core.entries[id].scheduled <==> s.core.entries[id].scheduled || !s.core.entries[id].cancelled)
    requires forall id :: id in t.core.ready <==>
               id in s.core.ready || (id in s.core.entries && !s.core.entries[id].cancelled && !s.core.entries[id].scheduled)
    ensures Serial(t) && Strand(t)
  {
    forall id ensures Executors(t, id) == Executors(s, id) {}
    forall w, id | w in t.workers && Executes(t.workers[w], id) ensures id !in t.core.ready {
      assert w in Executors(s, id);
    }
  }

  lemma EnqueueStep(s: State, message: Message)
    requires Inv(s) && LockFree(s)
    ensures Inv(s.(core := EnqueueSpec(s.core, message).0))
  {
    var t := s.(core := EnqueueSpec(s.core, message).0);
    EnqueueKeeps(s.core, message);
    EnqueueEffect(s.core, message);
    if t.core == s.core {
      assert t == s;
    } else {
      EnqueueStrand(s, t);
      forall id ensures Holders(t, id) == Holders(s, id) {}
      RemovalsFollow(s, t);
      TrackedFollows(s, t);
    }
  }

  lemma StopHands(s: State)
    requires CoreInv(s.core) && Serial(s) && Strand(s) && Leases(s)
    ensures var t := s.(core := StopSpec(s.core)); CoreInv(t.core) && Serial(t) && Strand(t) && Leases(t)
  {
    var t := s.(core := StopSpec(s.core));
    StopKeeps(s.core);
    LiveIsRegistered(s.core);
    forall id ensures Executors(t, id) == Executors(s, id) && Holders(t, id) == Holders(s, id) {}
  }

  lemma StopStep(s: State)
    requires Inv(s) && LockFree(s)
    ensures Inv(s.(core := StopSpec(s.core)))
  {
    var t := s.(core := StopSpec(s.core));
    StopHands(s);
    assert Removals(t) by { RemovalsFollow(s, t); }
    assert Retiring(t) by { RetiringFollows(s, t); }
  }

  // ----- the four sections of a worker that change what it holds -----

  /** The picked entry was live, in the ready list and in nobody's hands. */
  lemma PickUpFacts(s: State, w: WorkerId)
    requires CoreInv(s.core) && Serial(s) && Leases(s) && w in s.workers && s.workers[w].Crossed? && s.core.ready != []
    ensures var id := s.core.ready[0]; var (c, picked) := PickUpSpec(s.core);
      && picked.Work? && picked.id == id && id in s.core.callbacks && id in s.core.entries
      && !s.core.entries[id].cancelled && s.core.entries[id].scheduled
      && Executors(s, id) == {} && w !in Holders(s, id)
      && c == s.core.(entries := c.entries, ready := c.ready, pendingInvocations := c.pendingInvocations)
      && c.entries.Keys == s.core.entries.Keys
      && c.entries[id].leases == s.core.entries[id].leases + 1
      && c.entries[id].scheduled && !c.entries[id].cancelled
      && (forall x :: x in s.core.entries && x != id ==> c.entries[x] == s.core.entries[x])
      && (forall x :: x in c.ready <==> x in s.core.ready && x != id)
  {
    var id := s.core.ready[0];
    assert id in s.core.ready;
    PickUpFindsWork(s.core);
    PickUpKeeps(s.core);
    assert forall x :: x in s.core.ready && x != id ==> x in s.core.ready[1..];
  }

  lemma PickUpHands(s: State, w: WorkerId)
    requires CoreInv(s.core) && Serial(s) && Strand(s) && Leases(s) && w in s.workers && s.workers[w].Crossed? && s.core.ready != []
    ensures var t := PickUpState(s, w); CoreInv(t.core) && Serial(t) && Strand(t) && Leases(t)
  {
    var id, t := s.core.ready[0], PickUpState(s, w);
    PickUpFacts(s, w);
    PickUpKeeps(s.core);
    assert Serial(t) && Strand(t) by { PickUpStrand(s, t, w, id); }
    assert Leases(t) by { PickUpLeases(s, t, w, id); }
  }

  lemma PickUpTrail(s: State, w: WorkerId)
    requires CoreInv(s.core) && Serial(s) && Strand(s) && Leases(s) && w in s.workers && s.workers[w].Crossed? && s.core.ready != []
    requires Retiring(s) && Removals(s) && Tracked(s)
    ensures var t := PickUpState(s, w); Retiring(t) && Removals(t) && Tracked(t)
  {
    var id, t := s.core.ready[0], PickUpState(s, w);
    PickUpFacts(s, w);
    assert Retiring(t) by { PickUpRetiring(s, t, w, id); }
    assert Removals(t) by { RemovalsFollow(s, t); }
    assert Tracked(t) by { TrackedFollows(s, t); }
  }

  lemma PickUpStep(s: State, w: WorkerId)
    requires Inv(s) && w in s.workers && s.workers[w].Crossed? && s.core.ready != []
    ensures Inv(PickUpState(s, w))
  {
    PickUpHands(s, w);
    PickUpTrail(s, w);
  }

  lemma PickUpLeases(s: State, t: State, w: WorkerId, id: EntryId)
    requires Leases(s) && w in s.workers && s.workers[w].Crossed?
    requires w in t.workers && t.workers == s.workers[w := t.workers[w]] && t.workers[w].PickedUp? && t.workers[w].id == id
    requires id in s.core.entries && t.core.entries.Keys == s.core.entries.Keys
    requires t.core.entries[id].leases == s.core.entries[id].leases + 1
    requires forall x :: x in s.core.entries && x != id ==> t.core.entries[x] == s.core.entries[x]
    ensures Leases(t)
  {
    forall x ensures Holders(t, x) == if x == id then Holders(s, x) + {w} else Holders(s, x) {}
  }

  lemma PickUpRetiring(s: State, t: State, w: WorkerId, id: EntryId)
    requires Retiring(s) && w in s.workers && s.workers[w].Crossed?
    requires w in t.workers && t.workers == s.workers[w := t.workers[w]] && t.workers[w].PickedUp? && t.workers[w].id == id
    requires id in s.core.entries && !s.core.entries[id].cancelled && t.core.entries.Keys == s.core.entries.Keys
    requires t.core.callbacks == s.core.callbacks
    requires forall x :: x in s.core.entries && x != id ==> t.core.entries[x] == s.core.entries[x]
    ensures Retiring(t)
  {
    forall v, u | v in t.workers && u in t.workers && Retires(t.workers[v])
      ensures t.workers[v].id in t.core.entries && t.core.entries[t.workers[v].id].cancelled
      ensures t.workers[v].id in t.core.callbacks ==> !Executes(t.workers[u], t.workers[v].id)
    {
      assert v != w && Retires(s.workers[v]) && s.workers[v].id != id;
    }
  }

  lemma PickUpStrand(s: State, t: State, w: WorkerId, id: EntryId)
    requires Serial(s) && Strand(s) && w in s.workers && s.workers[w].Crossed? && Executors(s, id) == {}
    requires w in t.workers && t.workers == s.workers[w := t.workers[w]] && t.workers[w].PickedUp? && t.workers[w].id == id
    requires id in t.core.entries && t.core.entries[id].scheduled
    requires t.core.entries.Keys == s.core.entries.Keys
    requires forall x :: x in s.core.entries && x != id ==> t.core.entries[x] == s.core.entries[x]
    requires forall x :: x in t.core.ready <==> x in s.core.ready && x != id
    ensures Serial(t) && Strand(t)
  {
    assert w in Executors(t, id);
    forall x | x != id ensures Executors(t, x) == Executors(s, x) {}
    forall v | v in s.workers ensures !Executes(s.workers[v], id) {
      assert v !in Executors(s, id);
    }
  }

  /** What completion does to the completed entry. */
  lemma CompleteFacts(c: Core, id: EntryId, deregister: bool)
    requires CoreInv(c) && id in c.entries && id !in c.ready
    ensures var (c', retire) := CompleteSpec(c, id, deregister);
      && c'.entries.Keys == c.entries.Keys && c'.callbacks == c.callbacks && c'.stopping == c.stopping
      && c'.cancellationRequests == c.cancellationRequests
      && (forall x :: x in c.entries && x != id ==> c'.entries[x] == c.entries[x])
      && (forall x :: x != id ==> (x in c'.ready <==> x in c.ready))
      && c'.entries[id].leases == c.entries[id].leases
      && (c.entries[id].cancelled ==> c'.entries[id].cancelled)
      && (retire ==> c'.entries[id].cancelled)
      && (c'.entries[id].cancelled ==> id !in c'.ready)
      && (!c'.entries[id].cancelled && c.entries[id].scheduled ==> (c'.entries[id].scheduled <==> id in c'.ready))
  {
    assert EntryOk(c, id);
  }

  lemma CompleteStrand(s: State, t: State, w: WorkerId, id: EntryId)
    requires Serial(s) && Strand(s) && w in s.workers && Executes(s.workers[w], id)
    requires w in t.workers && t.workers == s.workers[w := t.workers[w]] && t.workers[w].Completed?
    requires id in s.core.entries && t.core.entries.Keys == s.core.entries.Keys
    requires forall x :: x in s.core.entries && x != id ==> t.core.entries[x] == s.core.entries[x]
    requires forall x :: x != id ==> (x in t.core.ready <==> x in s.core.ready)
    requires s.core.entries[id].cancelled ==> t.core.entries[id].cancelled
    requires !t.core.entries[id].cancelled && s.core.entries[id].scheduled ==> (t.core.entries[id].scheduled <==> id in t.core.ready)
    ensures Serial(t) && Strand(t)
  {
    assert w in Executors(s, id);
    assert Executors(t, id) == {} by {
      forall v | v in t.workers ensures !Executes(t.workers[v], id) {}
    }
    forall x | x != id ensures Executors(t, x) == Executors(s, x) {}
  }

  lemma CompleteRetiring(s: State, t: State, w: WorkerId, id: EntryId)
    requires Retiring(s) && Serial(s) && w in s.workers && Executes(s.workers[w], id)
    requires w in t.workers && t.workers == s.workers[w := t.workers[w]] && t.workers[w].Completed? && t.workers[w].id == id
    requires id in s.core.entries && t.core.entries.Keys == s.core.entries.Keys && t.core.callbacks == s.core.callbacks
    requires forall x :: x in s.core.entries && s.core.entries[x].cancelled ==> t.core.entries[x].cancelled
    requires t.workers[w].retire ==> t.core.entries[id].cancelled
    ensures Retiring(t)
  {
    forall v, u | v in t.workers && u in t.workers && Retires(t.workers[v])
      ensures t.workers[v].id in t.core.entries && t.core.entries[t.workers[v].id].cancelled
      ensures t.workers[v].id in t.core.callbacks ==> !Executes(t.workers[u], t.workers[v].id)
    {
      if v != w { assert Retires(s.workers[v]); }
    }
  }

  lemma CompleteHands(s: State, w: WorkerId)
    requires CoreInv(s.core) && Serial(s) && Strand(s) && Leases(s) && w in s.workers && s.workers[w].Returned?
    ensures var t := CompleteState(s, w); CoreInv(t.core) && Serial(t) && Strand(t) && Leases(t)
  {
    var p, t := s.workers[w], CompleteState(s, w);
    ExecutingIsKnown(s, w, p.id);
    CompleteReady(s, w, p.id);
    CompleteFacts(s.core, p.id, p.deregister);
    CompleteKeeps(s.core, p.id, p.deregister);
    CompleteStrand(s, t, w, p.id);
    LeasesFollow(s, t);
  }

  lemma CompleteTrail(s: State, w: WorkerId)
    requires CoreInv(s.core) && Serial(s) && Strand(s) && Leases(s) && w in s.workers && s.workers[w].Returned?
    requires Retiring(s) && Removals(s) && Tracked(s)
    ensures var t := CompleteState(s, w); Retiring(t) && Removals(t) && Tracked(t)
  {
    var p, t := s.workers[w], CompleteState(s, w);
    ExecutingIsKnown(s, w, p.id);
    CompleteReady(s, w, p.id);
    CompleteFacts(s.core, p.id, p.deregister);
    assert Retiring(t) by { CompleteRetiring(s, t, w, p.id); }
    assert Removals(t) by { RemovalsFollow(s, t); }
    assert Tracked(t) by { TrackedFollows(s, t); }
  }

  lemma CompleteStep(s: State, w: WorkerId)
    requires Inv(s) && w in s.workers && s.workers[w].Returned? && LockFree(s)
    ensures Inv(CompleteState(s, w))
  {
    CompleteHands(s, w);
    CompleteTrail(s, w);
  }

  lemma CompleteReady(s: State, w: WorkerId, id: EntryId)
    requires Serial(s) && Strand(s) && w in s.workers && Executes(s.workers[w], id)
    ensures id !in s.core.ready
    ensures id in s.core.entries && !s.core.entries[id].cancelled ==> s.core.entries[id].scheduled
  {
    assert w in Executors(s, id);
  }

  lemma ReleaseLeases(s: State, t: State, w: WorkerId, id: EntryId)
    requires Leases(s) && w in s.workers && s.workers[w].Completed? && s.workers[w].id == id
    requires w in t.workers && t.workers == s.workers[w := t.workers[w]] && (t.workers[w].Released? || t.workers[w].Waiting?)
    requires t.core == ReleaseSpec(s.core, id)
    ensures Leases(t)
  {
    ExecutingIsKnown(s, w, id);
    assert w in Holders(s, id);
    forall x ensures Holders(t, x) == if x == id then Holders(s, x) - {w} else Holders(s, x) {}
  }

  lemma ReleaseHands(s: State, w: WorkerId)
    requires CoreInv(s.core) && Serial(s) && Strand(s) && Leases(s) && w in s.workers && s.workers[w].Completed?
    ensures var t := ReleaseState(s, w); CoreInv(t.core) && Serial(t) && Strand(t) && Leases(t)
  {
    var id, t := s.workers[w].id, ReleaseState(s, w);
    ReleaseKeeps(s.core, id);
    ReleaseLeases(s, t, w, id);
    StrandFollows(s, t);
  }

  lemma ReleaseTrail(s: State, w: WorkerId)
    requires CoreInv(s.core) && Retiring(s) && Removals(s) && Tracked(s) && w in s.workers && s.workers[w].Completed?
    ensures var t := ReleaseState(s, w); Retiring(t) && Removals(t) && Tracked(t)
  {
    var t := ReleaseState(s, w);
    assert Retiring(t) by { RetiringFollows(s, t); }
    assert Removals(t) by { RemovalsFollow(s, t); }
    assert Tracked(t) by { TrackedFollows(s, t); }
  }

  lemma ReleaseStep(s: State, w: WorkerId)
    requires Inv(s) && w in s.workers && s.workers[w].Completed?
    ensures Inv(ReleaseState(s, w))
  {
    ReleaseHands(s, w);
    ReleaseTrail(s, w);
  }

  lemma EraseHands(s: State, w: WorkerId)
    requires CoreInv(s.core) && Serial(s) && Strand(s) && Leases(s) && w in s.workers && s.workers[w].Released?
    ensures var t := EraseState(s, w); CoreInv(t.core) && Serial(t) && Strand(t) && Leases(t)
  {
    var t := EraseState(s, w);
    EraseKeeps(s.core, s.workers[w].id);
    LeasesFollow(s, t);
    StrandFollows(s, t);
  }

  lemma EraseTrail(s: State, w: WorkerId)
    requires CoreInv(s.core) && Retiring(s) && Removals(s) && Tracked(s) && w in s.workers && s.workers[w].Released?
    ensures var t := EraseState(s, w); Retiring(t) && Removals(t) && Tracked(t)
  {
    var t := EraseState(s, w);
    assert Retires(s.workers[w]);
    assert Retiring(t) by { RetiringFollows(s, t); }
    assert Removals(t) by { RemovalsFollow(s, t); }
    assert Tracked(t) by { TrackedFollows(s, t); }
  }

  lemma EraseStep(s: State, w: WorkerId)
    requires Inv(s) && w in s.workers && s.workers[w].Released? && LockFree(s)
    ensures Inv(EraseState(s, w))
  {
    EraseHands(s, w);
    EraseTrail(s, w);
  }

  // ----- removals -----

  lemma ClosedByMove(s: State, r: RemovalId, p: Removal)
    ensures ClosedBy(s.(removals := s.removals[r := p])) == if Closing(p) then ClosedBy(s) + {r} else ClosedBy(s) - {r}
  {
  }

  /** Removal-only events leave registry and workers alone. */
  lemma RemovalOnly(s: State, t: State)
    requires Serial(s) && Strand(s) && Leases(s) && CoreInv(s.core) && Retiring(s) && Crossing(s)
    requires t.workers == s.workers && t.core == s.core.(cancellationRequests := t.core.cancellationRequests)
    ensures Serial(t) && Strand(t) && Leases(t) && CoreInv(t.core) && Retiring(t) && Crossing(t)
  {
    StrandFollows(s, t);
    LeasesFollow(s, t);
    RetiringFollows(s, t);
    forall id | id in t.core.entries ensures EntryOk(t.core, id) { assert EntryOk(s.core, id); }
  }

  /** Tracking survives when what was undrained stays so, save for entries nobody executes. */
  lemma RemovalTracked(s: State, t: State)
    requires Tracked(s) && t.workers == s.workers
    requires t.core == s.core.(cancellationRequests := t.core.cancellationRequests)
    requires forall r, id, w :: r in s.removals && Undrained(s.removals[r], id) && w in s.workers && Executes(s.workers[w], id) ==>
               r in t.removals && Undrained(t.removals[r], id)
    ensures Tracked(t)
  {
    forall w, id | w in t.workers && Executes(t.workers[w], id) ensures Findable(t, id) {
      assert Findable(s, id);
    }
  }

  /** The other removals, and the changed one if it is fine itself, stay fine. */
  lemma RemovalsMove(s: State, t: State, r: RemovalId, p: Removal)
    requires Removals(s) && t.workers == s.workers && t.removals == s.removals[r := p]
    requires t.core == s.core.(cancellationRequests := t.core.cancellationRequests)
    requires RemovalOk(s, p) && t.core.cancellationRequests == |ClosedBy(t)|
    ensures Removals(t)
  {
    forall q | q in t.removals ensures RemovalOk(t, t.removals[q]) {
      assert RemovalOk(s, if q == r then p else s.removals[q]);
      assert Own(t, t.removals[q]) == Own(s, t.removals[q]);
    }
  }

  lemma PublishStep(s: State, r: RemovalId, command: string, caller: Caller)
    requires Inv(s) && r !in s.removals
    requires caller.Inside? ==> caller.worker in s.workers && s.workers[caller.worker].Running?
    ensures Inv(PublishState(s, r, command, caller))
  {
    var t, p := PublishState(s, r, command, caller), Published(command, caller);
    ClosedByMove(s, r, p);
    RemovalOnly(s, t);
    RemovalTracked(s, t);
    RemovalsMove(s, t, r, p);
  }

  lemma ReopenStep(s: State, r: RemovalId)
    requires Inv(s) && r in s.removals && s.removals[r].Detached? && s.core.cancellationRequests > 0
    ensures Inv(ReopenState(s, r))
  {
    var t, p := ReopenState(s, r), s.removals[r];
    var q := Draining(p.command, p.caller, p.removed, 0);
    assert RemovalOk(s, p);
    assert Own(s, q) == Own(s, p);
    assert r in ClosedBy(s);
    ClosedByMove(s, r, q);
    RemovalOnly(s, t);
    assert q.removed[0..] == p.removed;
    RemovalTracked(s, t);
    RemovalsMove(s, t, r, q);
  }

  lemma DrainNextTracked(s: State, r: RemovalId)
    requires Leases(s) && Tracked(s) && Removals(s) && Enabled(s, DrainNext(r))
    ensures Tracked(DrainNextState(s, r))
  {
    var t, p := DrainNextState(s, r), s.removals[r];
    var id := p.removed[p.next];
    forall w | w in s.workers ensures !Executes(s.workers[w], id) {
      if Executes(s.workers[w], id) { ExecutingIsKnown(s, w, id); }
    }
    assert p.removed[p.next..] == [id] + p.removed[p.next + 1..];
    RemovalTracked(s, t);
  }

  lemma DrainNextRemovals(s: State, r: RemovalId)
    requires Removals(s) && Enabled(s, DrainNext(r))
    ensures Removals(DrainNextState(s, r))
  {
    var t, p := DrainNextState(s, r), s.removals[r];
    var q := p.(next := p.next + 1);
    assert RemovalOk(s, p);
    assert Own(s, q) == Own(s, p);
    assert RemovalOk(s, q);
    ClosedByMove(s, r, q);
    assert ClosedBy(t) == ClosedBy(s);
    RemovalsMove(s, t, r, q);
  }

  lemma DrainNextStep(s: State, r: RemovalId)
    requires Inv(s) && Enabled(s, DrainNext(r))
    ensures Inv(DrainNextState(s, r))
  {
    DrainNextTracked(s, r);
    DrainNextRemovals(s, r);
    RemovalOnly(s, DrainNextState(s, r));
  }

  lemma FinishTrail(s: State, t: State, r: RemovalId)
    requires Removals(s) && Tracked(s) && Enabled(s, Finish(r)) && t == s.(removals := s.removals - {r})
    ensures Removals(t) && Tracked(t)
  {
    assert ClosedBy(t) == ClosedBy(s);
    RemovalTracked(s, t);
    forall q | q in t.removals ensures RemovalOk(t, t.removals[q]) {
      assert RemovalOk(s, s.removals[q]);
      assert Own(t, t.removals[q]) == Own(s, s.removals[q]);
    }
  }

  lemma FinishStep(s: State, r: RemovalId)
    requires Inv(s) && Enabled(s, Finish(r))
    ensures Inv(s.(removals := s.removals - {r}))
  {
    var t := s.(removals := s.removals - {r});
    FinishTrail(s, t, r);
    RemovalOnly(s, t);
  }

  // ----- detaching an owner -----

  lemma DetachFacts(c: Core, command: string, self: set<EntryId>)
    requires CoreInv(c)
    ensures var (c', removed) := DetachSpec(c, command, self);
      && c'.entries.Keys == c.entries.Keys && c'.stopping == c.stopping
      && c'.cancellationRequests == c.cancellationRequests
      && (forall id :: id in removed ==> id in c.callbacks && id !in c'.callbacks && id !in self)
      && (forall id :: id in c.callbacks ==> id in c'.callbacks || id in removed)
      && (forall id :: id in c'.callbacks ==> id in c.callbacks)
      && (forall id :: id in c.entries ==>
            && c'.entries[id].leases == c.entries[id].leases
            && (c.entries[id].cancelled ==> c'.entries[id].cancelled)
            && (!c'.entries[id].cancelled ==> c'.entries[id] == c.entries[id]))
      && (forall id :: id in c'.ready ==> id in c.ready)
      && (forall id :: id in c.ready && !c'.entries[id].cancelled ==> id in c'.ready)
  {
    LiveIsRegistered(c);
  }

  lemma DetachHands(s: State, t: State, command: string, self: set<EntryId>)
    requires CoreInv(s.core) && Serial(s) && Strand(s) && Leases(s)
    requires t.workers == s.workers && t.core == DetachSpec(s.core, command, self).0
    ensures CoreInv(t.core) && Serial(t) && Strand(t) && Leases(t)
  {
    DetachFacts(s.core, command, self);
    DetachKeeps(s.core, command, self);
    LeasesFollow(s, t);
    forall id ensures Executors(t, id) == Executors(s, id) {}
  }

  lemma DetachRemovals(s: State, r: RemovalId)
    requires CoreInv(s.core) && Removals(s) && r in s.removals && s.removals[r].Published?
    ensures Removals(DetachState(s, r))
  {
    var p, t := s.removals[r], DetachState(s, r);
    DetachFacts(s.core, p.command, Own(s, p));
    ClosedByMove(s, r, t.removals[r]);
    assert ClosedBy(t) == ClosedBy(s);
    forall q | q in t.removals ensures RemovalOk(t, t.removals[q]) {
      assert RemovalOk(s, s.removals[q]);
      assert Own(t, t.removals[q]) == Own(s, s.removals[q]);
    }
  }

  lemma DetachTracked(s: State, r: RemovalId)
    requires CoreInv(s.core) && Tracked(s) && r in s.removals && s.removals[r].Published?
    ensures Tracked(DetachState(s, r))
  {
    var p, t := s.removals[r], DetachState(s, r);
    DetachFacts(s.core, p.command, Own(s, p));
    forall w, id | w in t.workers && Executes(t.workers[w], id) ensures Findable(t, id) {
      assert Findable(s, id);
      if id in s.core.callbacks {
        assert id in t.core.callbacks || Undrained(t.removals[r], id);
      } else if !s.core.stopping {
        var q :| q in s.removals && Undrained(s.removals[q], id);
        assert q in t.removals && Undrained(t.removals[q], id);
      }
    }
  }

  lemma DetachStep(s: State, r: RemovalId)
    requires Inv(s) && r in s.removals && s.removals[r].Published? && LockFree(s)
    ensures Inv(DetachState(s, r))
  {
    var p, t := s.removals[r], DetachState(s, r);
    DetachHands(s, t, p.command, Own(s, p));
    DetachRemovals(s, r);
    DetachTracked(s, r);
    DetachFacts(s.core, p.command, Own(s, p));
    RetiringFollows(s, t);
  }

  // ----- all events, all runs -----

  predicate WorkerEvent(e: Event)
  {
    e.Cross? || e.PickUp? || e.Begin? || e.Return? || e.Complete? || e.Release? || e.Erase? || e.Exit?
  }

  predicate RemovalEvent(e: Event)
  {
    e.Publish? || e.Detach? || e.Reopen? || e.DrainNext? || e.Finish?
  }

  lemma InvStep(s: State, e: Event)
    requires Inv(s) && Enabled(s, e)
    ensures Inv(Step(s, e))
  {
    if WorkerEvent(e) {
      InvStepWorker(s, e);
    } else if RemovalEvent(e) {
      InvStepRemoval(s, e);
    } else if e.Register? {
      RegisterStep(s, e.owner);
    } else if e.Enqueue? {
      EnqueueStep(s, e.message);
    } else {
      StopStep(s);
    }
  }

  lemma InvStepWorker(s: State, e: Event)
    requires Inv(s) && Enabled(s, e) && WorkerEvent(e)
    ensures Inv(Step(s, e))
  {
    if e.PickUp? {
      PickUpStep(s, e.w);
    } else if e.Complete? {
      CompleteStep(s, e.w);
    } else if e.Release? {
      ReleaseStep(s, e.w);
    } else if e.Erase? {
      EraseStep(s, e.w);
    } else {
      InvStepQuiet(s, e);
    }
  }

  lemma InvStepQuiet(s: State, e: Event)
    requires Inv(s) && Enabled(s, e) && (e.Cross? || e.Begin? || e.Return? || e.Exit?)
    ensures Inv(Step(s, e))
  {
    QuietKeeps(s, e.w, Step(s, e).workers[e.w]);
  }

  lemma InvStepRemoval(s: State, e: Event)
    requires Inv(s) && Enabled(s, e) && RemovalEvent(e)
    ensures Inv(Step(s, e))
  {
    match e
    case Publish(r, command, caller) => PublishStep(s, r, command, caller);
    case Detach(r) => DetachStep(s, r);
    case Reopen(r) => ReopenStep(s, r);
    case DrainNext(r) => DrainNextStep(s, r);
    case Finish(r) => FinishStep(s, r);
  }

  lemma InitInv(maxPending: nat, workers: set<WorkerId>)
    ensures Inv(Init(maxPending, workers))
  {
    var s := Init(maxPending, workers);
    assert ClosedBy(s) == {};
  }

  /** The invariant holds in every reachable state, whatever the interleaving. */
  lemma {:induction false} ReachableInv(s: State, events: seq<Event>)
    requires Inv(s) && Run(s, events)
    ensures Inv(After(s, events))
  {
    if events != [] {
      ReachableInv(s, Front(events));
      InvStep(After(s, Front(events)), Last(events));
    }
  }
}
