/**
 The dispatcher object.  Each method is one critical section of the source, with its
 loops, and is proved to do exactly what DispatcherCore says that section does.
 */
module DispatcherRegistry {
  import opened Sequences
  import opened DispatcherCore

  class Dispatcher {
    var entries: map<EntryId, Entry>
    var callbacks: seq<EntryId>
    var ready: seq<EntryId>
    var pendingInvocations: nat
    var nextId: nat
    var cancellationRequests: nat
    var stopping: bool
    const maxPending: nat

    ghost function State(): Core
      reads this
    {
      Core(entries, callbacks, ready, pendingInvocations, nextId, cancellationRequests, stopping, maxPending)
    }

    ghost predicate Valid()
      reads this
    {
      WellFormed(State())
    }

    constructor (capacity: nat)
      requires capacity > 0
      ensures Valid() && State() == Core(map[], [], [], 0, 1, 0, false, capacity)
    {
      entries, callbacks, ready, pendingInvocations := map[], [], [], 0;
      nextId, cancellationRequests, stopping, maxPending := 1, 0, false, capacity;
    }

    /** `present` tells whether the callback is one that can be called at all. */
    method RegisterCallback(owner: string, present: bool) returns (ok: bool)
      requires Valid()
      modifies this
      ensures Valid() && (State(), ok) == if present then RegisterSpec(old(State()), owner) else (old(State()), false)
    {
      if !present {
        return false;
      }
      if stopping || |callbacks| >= MAX_CALLBACKS || nextId == MAX_ENTRY_ID {
        return false;
      }
      var id := nextId;
      DistinctAppend(callbacks, id);
      nextId := nextId + 1;
      entries := entries[id := Entry(owner, [], false, false, 0)];
      callbacks := callbacks + [id];
      return true;
    }

    method Enqueue(message: Message) returns (ok: bool)
      requires Valid()
      modifies this
      ensures Valid() && (State(), ok) == EnqueueSpec(old(State()), message)
    {
      if stopping {
        return false;
      }
      var eligible := CountEligible();
      if eligible == 0 {
        return true;
      }
      if pendingInvocations > maxPending || eligible > maxPending - pendingInvocations {
        return false;
      }
      DeliverToAll(message);
      return true;
    }

    method DeliverToAll(message: Message)
      requires Valid()
      modifies this`entries, this`ready, this`pendingInvocations
      ensures entries == Deliver(old(entries), Members(callbacks) * Live(old(entries)), message)
      ensures ready == old(ready) + Select(callbacks, Unscheduled(old(entries)))
      ensures pendingInvocations == old(pendingInvocations) + |Select(callbacks, Live(old(entries)))|
    {
      ghost var was, live, fresh' := entries, Live(entries), Unscheduled(entries);
      assert entries == Deliver(was, {}, message);
      for i := 0 to |callbacks|
        invariant entries == Deliver(was, Members(callbacks[..i]) * live, message)
        invariant ready == old(ready) + Select(callbacks[..i], fresh')
        invariant pendingInvocations == old(pendingInvocations) + |Select(callbacks[..i], live)|
        modifies this`entries, this`ready, this`pendingInvocations
      {
        DeliverStep(was, callbacks, i, message);
        ExtendSelect(callbacks, i, live);
        ExtendSelect(callbacks, i, fresh');
        Offer(callbacks[i], message);
      }
      assert callbacks[..|callbacks|] == callbacks;
    }

    /** The body of the delivery loop. */
    method Offer(id: EntryId, message: Message)
      requires id in entries
      modifies this`entries, this`ready, this`pendingInvocations
      ensures var e := old(entries)[id];
        if e.cancelled then
          entries == old(entries) && ready == old(ready) && pendingInvocations == old(pendingInvocations)
        else
          && entries == old(entries)[id := e.(pending := e.pending + [message], scheduled := true)]
          && ready == old(ready) + (if e.scheduled then [] else [id])
          && pendingInvocations == old(pendingInvocations) + 1
    {
      if entries[id].cancelled {
        return;
      }
      entries := entries[id := entries[id].(pending := entries[id].pending + [message])];
      pendingInvocations := pendingInvocations + 1;
      if !entries[id].scheduled {
        entries := entries[id := entries[id].(scheduled := true)];
        ready := ready + [id];
      }
      ghost var e := old(entries)[id];
      assert entries == old(entries)[id := e.(pending := e.pending + [message], scheduled := true)];
    }

    method CountEligible() returns (n: nat)
      requires Valid()
      ensures n == |Eligible(State())|
    {
      n := 0;
      for i := 0 to |callbacks|
        invariant n == |Select(callbacks[..i], Live(entries))|
      {
        ExtendSelect(callbacks, i, Live(entries));
        if !entries[callbacks[i]].cancelled {
          n := n + 1;
        }
      }
      assert callbacks[..|callbacks|] == callbacks;
    }

    /** The worker's critical section, entered once its wait predicate held. */
    method PickUp() returns (picked: Picked)
      requires Valid() && ready != []
      modifies this
      ensures Valid() && (State(), picked) == PickUpSpec(old(State()))
    {
      var id := ready[0];
      ready := ready[1..];
      if id !in callbacks || entries[id].cancelled || entries[id].pending == [] {
        if id in callbacks {
          entries := entries[id := entries[id].(scheduled := false)];
        }
        return Stale;
      }
      var message := entries[id].pending[0];
      entries := entries[id := entries[id].(pending := entries[id].pending[1..])];
      pendingInvocations := Monus(pendingInvocations, 1);
      entries := entries[id := entries[id].(leases := entries[id].leases + 1)];
      ghost var e := old(entries)[id];
      assert entries == old(entries)[id := e.(pending := e.pending[1..], leases := e.leases + 1)];
      return Work(id, message);
    }

    method ClearPending(id: EntryId)
      requires id in entries
      modifies this`entries, this`ready, this`pendingInvocations
      ensures pendingInvocations == Monus(old(pendingInvocations), |old(entries)[id].pending|)
      ensures entries == old(entries)[id := old(entries)[id].(pending := [])]
      ensures ready == Exclude(old(ready), {id})
    {
      if |entries[id].pending| > pendingInvocations {
        pendingInvocations := 0;
      } else {
        pendingInvocations := pendingInvocations - |entries[id].pending|;
      }
      entries := entries[id := entries[id].(pending := [])];
      ready := Exclude(ready, {id});
    }

    method CancelEntry(id: EntryId)
      requires id in entries
      modifies this`entries, this`ready, this`pendingInvocations
      ensures pendingInvocations == Monus(old(pendingInvocations), |old(entries)[id].pending|)
      ensures entries == old(entries)[id := Cancelled(old(entries)[id])]
      ensures ready == Exclude(old(ready), {id})
    {
      entries := entries[id := entries[id].(cancelled := true)];
      ClearPending(id);
      entries := entries[id := entries[id].(scheduled := false)];
      assert entries == old(entries)[id := Cancelled(old(entries)[id])];
    }

    /** The worker's section after its callback returned. */
    method Complete(id: EntryId, deregister: bool) returns (retire: bool)
      requires Valid() && id in entries
      modifies this
      ensures Valid() && (State(), retire) == CompleteSpec(old(State()), id, deregister)
    {
      retire := deregister;
      if id in callbacks {
        retire := retire || entries[id].cancelled;
        if retire {
          CancelEntry(id);
        } else if entries[id].pending != [] {
          ready := ready + [id];
        } else {
          entries := entries[id := entries[id].(scheduled := false)];
        }
      }
    }

    method ReleaseLease(id: EntryId)
      requires Valid() && id in entries
      modifies this
      ensures Valid() && State() == ReleaseSpec(old(State()), id)
    {
      if entries[id].leases != 0 {
        entries := entries[id := entries[id].(leases := entries[id].leases - 1)];
      } else {
        assert entries == entries[id := entries[id].(leases := 0)];
      }
    }

    /** The worker's last section, entered only by a worker that retires its entry. */
    method EraseRetired(id: EntryId)
      requires Valid() && id in entries
      modifies this
      ensures Valid() && State() == EraseSpec(old(State()), id)
    {
      if id in callbacks && entries[id].cancelled {
        DistinctExclude(callbacks, {id});
        callbacks := Exclude(callbacks, {id});
      }
    }

    /** One step of the walk: cancels the entry at i if it belongs to the owner and takes it out unless it is the caller's. */
    method Visit(i: nat, command: string, self: set<EntryId>) returns (gone: bool)
      requires i < |callbacks| && callbacks[i] in entries
      modifies this`entries, this`ready, this`pendingInvocations, this`callbacks
      ensures (State(), gone) == VisitSpec(old(State()), i, command, self)
      ensures entries.Keys == old(entries).Keys && forall x :: x in callbacks ==> x in old(callbacks)
    {
      var id := callbacks[i];
      if entries[id].owner != command {
        return false;
      }
      CancelEntry(id);
      if id in self {
        return false;
      }
      callbacks := callbacks[..i] + callbacks[i + 1..];
      return true;
    }

    /** The removal's section under the registry mutex; `self` is the caller's own entry, if any. */
    method Detach(command: string, self: set<EntryId>) returns (removed: seq<EntryId>)
      requires Valid()
      modifies this
      ensures Valid() && (State(), removed) == DetachSpec(old(State()), command, self)
    {
      DistinctExclude(callbacks, Taken(State(), command, self));
      removed := WalkRegistry(command, self);
    }

    method WalkRegistry(command: string, self: set<EntryId>) returns (removed: seq<EntryId>)
      requires Valid()
      modifies this`entries, this`ready, this`pendingInvocations, this`callbacks
      ensures (State(), removed) == DetachSpec(old(State()), command, self)
    {
      ghost var was := State();
      WalkIsDetach(was, command, self);
      removed := [];
      var i := 0;
      assert [] + Walk(was, 0, command, self).1 == Walk(was, 0, command, self).1;
      while i < |callbacks|
        invariant i <= |callbacks| && forall id :: id in callbacks ==> id in entries
        invariant var (last, rest) := Walk(State(), i, command, self);
                  Walk(was, 0, command, self) == (last, removed + rest)
        decreases |callbacks| - i
        modifies this`entries, this`ready, this`pendingInvocations, this`callbacks
      {
        var id := callbacks[i];
        ghost var gathered := removed;
        var gone := Visit(i, command, self);
        if gone {
          removed := removed + [id];
          ghost var rest := Walk(State(), i, command, self).1;
          assert gathered + ([id] + rest) == removed + rest;
        } else {
          i := i + 1;
        }
      }
      assert removed + [] == removed;
    }

    /** CancellationRequest's constructor. */
    method Publish()
      modifies this`cancellationRequests
      ensures cancellationRequests == old(cancellationRequests) + 1
    {
      cancellationRequests := cancellationRequests + 1;
    }

    /** CancellationRequest's destructor. */
    method Reopen()
      requires cancellationRequests > 0
      modifies this`cancellationRequests
      ensures cancellationRequests == old(cancellationRequests) - 1
    {
      cancellationRequests := cancellationRequests - 1;
    }

    /** The destructor's critical section. */
    method Stop()
      requires Valid()
      modifies this
      ensures Valid() && State() == StopSpec(old(State()))
    {
      ghost var was := State();
      stopping := true;
      for i := 0 to |callbacks|
        invariant callbacks == was.callbacks
        invariant entries == CancelAll(was.entries, Members(callbacks[..i]))
        modifies this`entries
      {
        assert callbacks[i] !in callbacks[..i];
        entries := entries[callbacks[i] := Cancelled(entries[callbacks[i]])];
      }
      assert callbacks[..|callbacks|] == callbacks;
      pendingInvocations := 0;
      ready := [];
      callbacks := [];
    }
  }

  /** One step of the walk over the registry. */
  function VisitSpec(c: Core, i: nat, command: string, self: set<EntryId>): (Core, bool)
    requires i < |c.callbacks|
  {
    var id := c.callbacks[i];
    if id !in c.entries || c.entries[id].owner != command then (c, false)
    else
      var e := c.entries[id];
      var gone := id !in self;
      (c.(callbacks := if gone then c.callbacks[..i] + c.callbacks[i + 1..] else c.callbacks,
          entries := c.entries[id := Cancelled(e)],
          ready := Exclude(c.ready, {id}),
          pendingInvocations := Monus(c.pendingInvocations, |e.pending|)), gone)
  }

  /** The walk from position i on. */
  function Walk(c: Core, i: nat, command: string, self: set<EntryId>): (Core, seq<EntryId>)
    decreases |c.callbacks| - i
  {
    if i >= |c.callbacks| then (c, [])
    else
      var (next, gone) := VisitSpec(c, i, command, self);
      if gone then
        var (last, rest) := Walk(next, i, command, self);
        (last, [c.callbacks[i]] + rest)
      else Walk(next, i + 1, command, self)
  }

  // ----- one more element of a prefix -----

  lemma DeliverStep(m: map<EntryId, Entry>, s: seq<EntryId>, i: nat, message: Message)
    requires Distinct(s) && i < |s| && s[i] in m
    ensures var id, before := s[i], Deliver(m, Members(s[..i]) * Live(m), message);
      && id in before && before[id] == m[id]
      && (id in Live(m) <==> !m[id].cancelled)
      && (id in Unscheduled(m) <==> !m[id].cancelled && !m[id].scheduled)
      && Deliver(m, Members(s[..i + 1]) * Live(m), message)
         == if m[id].cancelled then before
            else before[id := m[id].(pending := m[id].pending + [message], scheduled := true)]
  {
    var id, done := s[i], Members(s[..i]) * Live(m);
    assert id !in s[..i];
    ExtendSet(s, i, Live(m));
    if m[id].cancelled {
      assert Members(s[..i + 1]) * Live(m) == done;
    } else {
      DeliverOneMore(m, done, id, message);
      assert Members(s[..i + 1]) * Live(m) == done + {id};
    }
  }

  lemma SkipOne(a: seq<EntryId>, b: seq<EntryId>)
    requires b != []
    ensures (a + b)[|a|] == b[0]
    ensures (a + [b[0]]) + b[1..] == a + b
    ensures (a + b)[..|a|] + (a + b)[|a| + 1..] == a + b[1..]
  {
  }

  /** The walk of Detach at position k of the original registry. */
  lemma DetachStep(c: Core, k: nat, command: string, self: set<EntryId>, mine: set<EntryId>, out: set<EntryId>)
    requires WellFormed(c) && k < |c.callbacks| && mine == Mine(c, command) && out == Taken(c, command, self)
    ensures var id := c.callbacks[k];
      var done, next := Members(c.callbacks[..k]) * mine, Members(c.callbacks[..k + 1]) * mine;
      var seen := Select(c.callbacks[..k], mine);
      && id in c.entries && id !in done && (id in mine <==> c.entries[id].owner == command)
      && (id in out <==> id in mine && id !in self)
      && Select(c.callbacks[..k + 1], out) == Select(c.callbacks[..k], out) + (if id in out then [id] else [])
      && Exclude(c.callbacks[..k + 1], out) == Exclude(c.callbacks[..k], out) + (if id in out then [] else [id])
      && (if id in mine then
            && CancelAll(c.entries, next) == CancelAll(c.entries, done)[id := Cancelled(c.entries[id])]
            && Exclude(c.ready, next) == Exclude(Exclude(c.ready, done), {id})
            && SumPending(Select(c.callbacks[..k + 1], mine), c.entries)
               == SumPending(seen, c.entries) + |c.entries[id].pending|
          else
            next == done && Select(c.callbacks[..k + 1], mine) == seen)
  {
    var id := c.callbacks[k];
    assert id !in c.callbacks[..k];
    ExtendSelect(c.callbacks, k, out);
    ExtendExclude(c.callbacks, k, out);
    ExtendSelect(c.callbacks, k, mine);
    ExtendSet(c.callbacks, k, mine);
    if id in mine {
      assert Members(c.callbacks[..k + 1]) * mine == Members(c.callbacks[..k]) * mine + {id};
      SumPendingConcat(Select(c.callbacks[..k], mine), [id], c.entries);
      assert SumPending([id], c.entries) == |c.entries[id].pending| + SumPending([], c.entries);
      ExcludeTwice(c.ready, Members(c.callbacks[..k]) * mine, {id});
    } else {
      assert {id} * mine == {};
    }
  }

  // ----- the state of the walk at position k of the original registry -----

  ghost predicate Walked(was: Core, command: string, self: set<EntryId>, k: nat, kept: seq<EntryId>, now: Core, removed: seq<EntryId>)
  {
    var mine, out := Mine(was, command), Taken(was, command, self);
    && WellFormed(was) && k <= |was.callbacks|
    && kept == Exclude(was.callbacks[..k], out)
    && removed == Select(was.callbacks[..k], out)
    && now == was.(callbacks := kept + was.callbacks[k..],
                   entries := CancelAll(was.entries, Members(was.callbacks[..k]) * mine),
                   ready := Exclude(was.ready, Members(was.callbacks[..k]) * mine),
                   pendingInvocations :=
                     Monus(was.pendingInvocations, SumPending(Select(was.callbacks[..k], mine), was.entries)))
  }

  lemma WalkStarts(was: Core, command: string, self: set<EntryId>)
    requires WellFormed(was)
    ensures Walked(was, command, self, 0, [], was, [])
  {
    assert Members(was.callbacks[..0]) * Mine(was, command) == {};
    ExcludeNothing(was.ready, {});
  }

  lemma WalkContinues(was: Core, command: string, self: set<EntryId>, k: nat, kept: seq<EntryId>, before: Core, removed: seq<EntryId>, now: Core)
    returns (kept': seq<EntryId>)
    requires Walked(was, command, self, k, kept, before, removed) && k < |was.callbacks|
    requires |kept| < |before.callbacks|
    requires now == VisitSpec(before, |kept|, command, self).0
    ensures if VisitSpec(before, |kept|, command, self).1 then
        kept' == kept && Walked(was, command, self, k + 1, kept', now, removed + [before.callbacks[|kept|]])
      else
        |kept'| == |kept| + 1 && Walked(was, command, self, k + 1, kept', now, removed)
  {
    var id := was.callbacks[k];
    DetachStep(was, k, command, self, Mine(was, command), Taken(was, command, self));
    SkipOne(kept, was.callbacks[k..]);
    kept' := if before.entries[id].owner == command && id !in self then kept else kept + [id];
  }

  lemma WalkEnds(was: Core, command: string, self: set<EntryId>, k: nat, kept: seq<EntryId>, now: Core, removed: seq<EntryId>)
    requires Walked(was, command, self, k, kept, now, removed) && |kept| >= |now.callbacks|
    ensures (now, removed) == DetachSpec(was, command, self)
  {
    assert k == |was.callbacks| && was.callbacks[..k] == was.callbacks;
    assert kept + was.callbacks[k..] == kept;
    assert Members(was.callbacks) * Mine(was, command) == Mine(was, command);
  }

  lemma {:induction false} WalkFinishes(was: Core, command: string, self: set<EntryId>, k: nat, kept: seq<EntryId>, now: Core, removed: seq<EntryId>)
    returns (k': nat, kept': seq<EntryId>, last: Core, rest: seq<EntryId>)
    requires Walked(was, command, self, k, kept, now, removed)
    ensures (last, rest) == Walk(now, |kept|, command, self)
    ensures Walked(was, command, self, k', kept', last, removed + rest) && |kept'| >= |last.callbacks|
    decreases |was.callbacks| - k
  {
    if |kept| >= |now.callbacks| {
      k', kept', last, rest := k, kept, now, [];
      assert removed + [] == removed;
    } else {
      var id := now.callbacks[|kept|];
      var (next, gone) := VisitSpec(now, |kept|, command, self);
      var kept1 := WalkContinues(was, command, self, k, kept, now, removed, next);
      if gone {
        k', kept', last, rest := WalkFinishes(was, command, self, k + 1, kept1, next, removed + [id]);
        Regroup(removed, [id], rest);
        rest := [id] + rest;
      } else {
        k', kept', last, rest := WalkFinishes(was, command, self, k + 1, kept1, next, removed);
      }
    }
  }

  /** Walking the registry entry by entry detaches exactly the owner's entries. */
  lemma WalkIsDetach(c: Core, command: string, self: set<EntryId>)
    requires WellFormed(c)
    ensures Walk(c, 0, command, self) == DetachSpec(c, command, self)
  {
    WalkStarts(c, command, self);
    var k, kept, last, rest := WalkFinishes(c, command, self, 0, [], c, []);
    assert [] + rest == rest;
    WalkEnds(c, command, self, k, kept, last, rest);
  }

  lemma ExtendSelect(s: seq<EntryId>, i: nat, keep: set<EntryId>)
    requires i < |s|
    ensures Select(s[..i + 1], keep) == Select(s[..i], keep) + (if s[i] in keep then [s[i]] else [])
  {
    assert s[..i + 1] == s[..i] + [s[i]];
    SelectConcat(s[..i], [s[i]], keep);
  }

  lemma ExtendExclude(s: seq<EntryId>, i: nat, drop: set<EntryId>)
    requires i < |s|
    ensures Exclude(s[..i + 1], drop) == Exclude(s[..i], drop) + (if s[i] in drop then [] else [s[i]])
  {
    assert s[..i + 1] == s[..i] + [s[i]];
    ExcludeConcat(s[..i], [s[i]], drop);
  }

  lemma ExtendSet(s: seq<EntryId>, i: nat, part: set<EntryId>)
    requires i < |s|
    ensures Members(s[..i + 1]) * part == Members(s[..i]) * part + {s[i]} * part
  {
    assert s[..i + 1] == s[..i] + [s[i]];
  }
}
