/** What every critical section of the dispatcher keeps true of the registry. */
module DispatcherInvariant {
  import opened Sequences
  import opened DispatcherCore

  /** Unregistered entries are cancelled; cancelled entries hold no work; queued work always has a strand to run on. */
  ghost predicate EntryOk(c: Core, id: EntryId)
    requires id in c.entries
  {
    var e := c.entries[id];
    && (id !in c.callbacks ==> e.cancelled)
    && (e.cancelled ==> e.pending == [] && !e.scheduled)
    && (e.pending != [] ==> e.scheduled)
  }

  ghost predicate ReadyOk(c: Core)
  {
    && Distinct(c.ready)
    && forall id :: id in c.ready ==>
         id in c.callbacks && id in c.entries && !c.entries[id].cancelled && c.entries[id].scheduled && c.entries[id].pending != []
  }

  ghost predicate CountOk(c: Core)
  {
    c.pendingInvocations == SumPending(c.callbacks, c.entries) && c.pendingInvocations <= c.maxPending
  }

  ghost predicate CoreInv(c: Core)
  {
    && WellFormed(c)
    && |c.callbacks| <= MAX_CALLBACKS
    && (c.stopping ==> c.callbacks == [])
    && CountOk(c)
    && ReadyOk(c)
    && forall id :: id in c.entries ==> EntryOk(c, id)
  }

  lemma RegisterKeeps(c: Core, owner: string)
    requires CoreInv(c)
    ensures CoreInv(RegisterSpec(c, owner).0)
  {
    var c' := RegisterSpec(c, owner).0;
    if c' != c {
      DistinctAppend(c.callbacks, c.nextId);
      SumPendingConcat(c.callbacks, [c.nextId], c'.entries);
      SumPendingSame(c.callbacks, c.entries, c'.entries);
      assert SumPending([c.nextId], c'.entries) == 0 + SumPending([], c'.entries);
      forall id | id in c'.entries ensures EntryOk(c', id) {
        if id != c.nextId { assert EntryOk(c, id); }
      }
    }
  }

  lemma EnqueueKeeps(c: Core, message: Message)
    requires CoreInv(c)
    ensures CoreInv(EnqueueSpec(c, message).0)
  {
    var c' := EnqueueSpec(c, message).0;
    if c' != c {
      var targets := Members(c.callbacks) * Live(c.entries);
      SumPendingDeliver(c.callbacks, c.entries, targets, message);
      SelectCongruent(c.callbacks, targets, Live(c.entries));
      var fresh' := Select(c.callbacks, Unscheduled(c.entries));
      DistinctSelect(c.callbacks, Unscheduled(c.entries));
      DistinctConcat(c.ready, fresh');
      forall id | id in c'.ready
        ensures id in c.callbacks && !c'.entries[id].cancelled && c'.entries[id].scheduled && c'.entries[id].pending != []
      {
        assert id in c.ready || id in fresh';
      }
      forall id | id in c'.entries ensures EntryOk(c', id) {
        assert EntryOk(c, id);
      }
    }
  }

  lemma DistinctConcat(a: seq<EntryId>, b: seq<EntryId>)
    requires Distinct(a) && Distinct(b) && forall x :: x in a ==> x !in b
    ensures Distinct(a + b)
  {
    forall i, j | 0 <= i < j < |a + b| ensures (a + b)[i] != (a + b)[j] {
      if i < |a| <= j {
        assert a[i] in a && b[j - |a|] in b;
      }
    }
  }

  /** The branch for stale ids is never taken, and the shared count never underflows. */
  lemma PickUpFindsWork(c: Core)
    requires CoreInv(c) && c.ready != []
    ensures PickUpSpec(c).1.Work? && PickUpSpec(c).1.id == c.ready[0]
    ensures c.pendingInvocations > 0
  {
    var id := c.ready[0];
    assert id in c.ready;
    SumPendingOne(c.callbacks, c.entries, id);
  }

  lemma PickUpKeeps(c: Core)
    requires CoreInv(c) && c.ready != []
    ensures CoreInv(PickUpSpec(c).0)
    ensures c.ready[0] !in PickUpSpec(c).0.ready
  {
    var id := c.ready[0];
    PickUpFindsWork(c);
    var c' := PickUpSpec(c).0;
    var rest := Exclude(c.callbacks, {id});
    SumPendingOne(c.callbacks, c.entries, id);
    SumPendingOne(c.callbacks, c'.entries, id);
    SumPendingSame(rest, c.entries, c'.entries);
    assert forall x :: x in c'.ready ==> x in c.ready;
    assert id !in c'.ready;
    forall x | x in c'.entries ensures EntryOk(c', x) {
      assert EntryOk(c, x);
    }
  }

  lemma CompleteKeeps(c: Core, id: EntryId, deregister: bool)
    requires CoreInv(c) && id in c.entries && id !in c.ready
    requires id in c.callbacks && !c.entries[id].cancelled ==> c.entries[id].scheduled
    ensures CoreInv(CompleteSpec(c, id, deregister).0)
  {
    var c' := CompleteSpec(c, id, deregister).0;
    if id in c.callbacks {
      assert EntryOk(c, id);
      if deregister || c.entries[id].cancelled {
        var rest := Exclude(c.callbacks, {id});
        SumPendingOne(c.callbacks, c.entries, id);
        SumPendingOne(c.callbacks, c'.entries, id);
        SumPendingSame(rest, c.entries, c'.entries);
        DistinctExclude(c.ready, {id});
      } else if c.entries[id].pending != [] {
        DistinctAppend(c.ready, id);
        assert forall x :: x in c'.ready ==> x in c.ready || x == id;
      } else {
        SumPendingSame(c.callbacks, c.entries, c'.entries);
      }
    }
    forall x | x in c'.entries ensures EntryOk(c', x) {
      assert EntryOk(c, x);
    }
  }

  lemma ReleaseKeeps(c: Core, id: EntryId)
    requires CoreInv(c)
    ensures CoreInv(ReleaseSpec(c, id))
  {
    var c' := ReleaseSpec(c, id);
    SumPendingSame(c.callbacks, c.entries, c'.entries);
    forall x | x in c'.entries ensures EntryOk(c', x) {
      assert EntryOk(c, x);
    }
  }

  lemma EraseKeeps(c: Core, id: EntryId)
    requires CoreInv(c)
    ensures CoreInv(EraseSpec(c, id))
  {
    var c' := EraseSpec(c, id);
    if c' != c {
      assert EntryOk(c, id);
      SumPendingOne(c.callbacks, c.entries, id);
      DistinctExclude(c.callbacks, {id});
      assert forall x :: x in c.callbacks && x != id ==> x in c'.callbacks;
      forall x | x in c'.entries ensures EntryOk(c', x) {
        assert EntryOk(c, x);
      }
    }
  }

  lemma DetachKeeps(c: Core, command: string, self: set<EntryId>)
    requires CoreInv(c)
    ensures CoreInv(DetachSpec(c, command, self).0)
  {
    var mine, out := Mine(c, command), Taken(c, command, self);
    var c' := DetachSpec(c, command, self).0;
    DetachCount(c, command, self);
    DistinctExclude(c.callbacks, out);
    DistinctExclude(c.ready, mine);
    forall x | x in c'.entries ensures EntryOk(c', x) {
      assert EntryOk(c, x);
      if x in c.callbacks && x !in out { assert x in c'.callbacks; }
    }
  }

  /** Detaching an owner takes exactly its queued messages off the shared count. */
  lemma DetachCount(c: Core, command: string, self: set<EntryId>)
    requires CoreInv(c)
    ensures CountOk(DetachSpec(c, command, self).0)
    ensures DetachSpec(c, command, self).0.pendingInvocations
         == c.pendingInvocations - SumPending(Select(c.callbacks, Mine(c, command)), c.entries)
  {
    var mine, out := Mine(c, command), Taken(c, command, self);
    var c' := DetachSpec(c, command, self).0;
    SumPendingSplit(c.callbacks, c.entries, mine);
    SumPendingSplit(c.callbacks, c'.entries, mine);
    SumPendingSplit(c.callbacks, c'.entries, out);
    SumPendingZero(Select(c.callbacks, mine), c'.entries);
    SumPendingZero(Select(c.callbacks, out), c'.entries);
    SumPendingSame(Exclude(c.callbacks, mine), c.entries, c'.entries);
  }

  lemma StopKeeps(c: Core)
    requires CoreInv(c)
    ensures CoreInv(StopSpec(c))
  {
    var c' := StopSpec(c);
    forall x | x in c'.entries ensures EntryOk(c', x) {
      assert EntryOk(c, x);
    }
  }

  /** A message reaches every live registered entry, once and last, or nobody. */
  lemma EnqueueAllOrNone(c: Core, message: Message)
    requires CoreInv(c)
    ensures var (c', ok) := EnqueueSpec(c, message);
      && c'.entries.Keys == c.entries.Keys && c'.callbacks == c.callbacks
      && (ok ==> forall id :: id in c.callbacks && !c.entries[id].cancelled ==>
            c'.entries[id].pending == c.entries[id].pending + [message])
      && (forall id :: id in c.entries && (!ok || id !in c.callbacks || c.entries[id].cancelled) ==>
            c'.entries[id] == c.entries[id])
      && (!ok ==> c' == c)
      && (ok <==> !c.stopping && (|Eligible(c)| == 0 || |Eligible(c)| + SumPending(c.callbacks, c.entries) <= c.maxPending))
  {
    assert forall id :: id in c.callbacks && !c.entries[id].cancelled ==> id in Eligible(c);
  }
}
