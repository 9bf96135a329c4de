/** In what order different callbacks are served: the ready list is a line, and nobody jumps it. */
module DispatcherOrder {
  import opened Sequences
  import opened DispatcherCore
  import opened DispatcherInvariant
  import opened DispatcherProtocol
  import opened DispatcherSteps
  import opened DispatcherTheorems

  /** The entry that this event hands to a worker, if any. */
  function PickedNow(s: State, e: Event): seq<EntryId>
  {
    if e.PickUp? && Enabled(s, e) && PickUpSpec(s.core).1.Work? then [PickUpSpec(s.core).1.id] else []
  }

  /** The entries that were handed to workers, in order. */
  function PickedIn(s: State, events: seq<Event>): seq<EntryId>
  {
    if events == [] then [] else PickedIn(s, Front(events)) + PickedNow(After(s, Front(events)), Last(events))
  }

  /** Who stands in the line before this one. */
  function Ahead(line: seq<EntryId>, id: EntryId): (r: seq<EntryId>)
    ensures |r| <= |line| && r == line[..|r|] && id !in r
    ensures if id in line then |r| < |line| && line[|r|] == id else r == line
  {
    if line == [] || line[0] == id then [] else [line[0]] + Ahead(line[1..], id)
  }

  /** Part of a line, in its order. */
  ghost predicate InOrder(part: seq<EntryId>, line: seq<EntryId>)
  {
    part == Select(line, Members(part))
  }

  // ----- Lines -----

  lemma {:induction false} AheadOfLonger(line: seq<EntryId>, more: seq<EntryId>, id: EntryId)
    requires id in line
    ensures Ahead(line + more, id) == Ahead(line, id)
  {
    if line[0] != id {
      assert (line + more)[1..] == line[1..] + more;
      AheadOfLonger(line[1..], more, id);
    }
  }

  lemma {:induction false} AheadOfThinned(line: seq<EntryId>, gone: set<EntryId>, id: EntryId)
    requires id !in gone
    ensures Ahead(Exclude(line, gone), id) == Exclude(Ahead(line, id), gone)
  {
    if line != [] && line[0] != id {
      AheadOfThinned(line[1..], gone, id);
      assert ([line[0]] + Ahead(line[1..], id))[1..] == Ahead(line[1..], id);
      if line[0] !in gone {
        assert ([line[0]] + Exclude(line[1..], gone))[1..] == Exclude(line[1..], gone);
      }
    } else if line != [] {
      assert Exclude(line, gone) == [id] + Exclude(line[1..], gone);
    }
  }

  lemma {:induction false} SelectAll(line: seq<EntryId>, keep: set<EntryId>)
    requires forall x :: x in line ==> x in keep
    ensures Select(line, keep) == line
  {
    if line != [] {
      assert line[0] in line && forall x :: x in line[1..] ==> x in line;
      SelectAll(line[1..], keep);
    }
  }

  lemma {:induction false} SelectTwice(line: seq<EntryId>, more: set<EntryId>, less: set<EntryId>)
    requires less <= more
    ensures Select(Select(line, more), less) == Select(line, less)
  {
    if line != [] {
      SelectTwice(line[1..], more, less);
      if line[0] in more {
        assert ([line[0]] + Select(line[1..], more))[1..] == Select(line[1..], more);
      }
    }
  }

  /** A part that loses some of its later members is still in order. */
  lemma Thinner(line: seq<EntryId>, first: seq<EntryId>, second: seq<EntryId>, gone: set<EntryId>)
    requires Distinct(line) && InOrder(first + second, line)
    ensures InOrder(first + Exclude(second, gone), line)
  {
    var part, left := first + second, Exclude(second, gone);
    var keep := Members(first + left);
    DistinctSelect(line, Members(part));
    forall x | x in second ensures x !in first {
      var i, j :| 0 <= i < |second| && second[i] == x && 0 <= j;
      assert part[|first| + i] == x;
      assert forall k :: 0 <= k < |first| ==> part[k] == first[k];
    }
    SelectConcat(first, second, keep);
    SelectAll(first, keep);
    SelectOfExcluded(second, gone, keep);
    SelectTwice(line, Members(part), keep);
  }

  lemma {:induction false} SelectOfExcluded(line: seq<EntryId>, gone: set<EntryId>, keep: set<EntryId>)
    requires forall x :: x in line ==> (x in keep <==> x !in gone)
    ensures Select(line, keep) == Exclude(line, gone)
  {
    if line != [] {
      assert line[0] in line && forall x :: x in line[1..] ==> x in line;
      SelectOfExcluded(line[1..], gone, keep);
    }
  }

  // ----- One step -----

  /** A pick-up takes the first of the line; nothing else takes anybody out of it but by cancelling. */
  ghost predicate LineMoves(before: Core, after: Core, picked: seq<EntryId>)
  {
    || (picked == [] && before.ready <= after.ready)
    || (before.ready != [] && picked == [before.ready[0]] && after.ready == before.ready[1..])
    || (picked == [] && exists gone: set<EntryId> :: Thins(before, after, gone))
  }

  ghost predicate Thins(before: Core, after: Core, gone: set<EntryId>)
  {
    && after.ready == Exclude(before.ready, gone)
    && forall id :: id in before.ready && id in gone ==> id in after.entries && after.entries[id].cancelled
  }

  lemma {:induction false} ExcludeAll(line: seq<EntryId>, gone: set<EntryId>)
    requires forall x :: x in line ==> x in gone
    ensures Exclude(line, gone) == []
  {
    if line != [] {
      assert line[0] in line && forall x :: x in line[1..] ==> x in line;
      ExcludeAll(line[1..], gone);
    }
  }

  lemma StopThins(c: Core)
    requires CoreInv(c)
    ensures Thins(c, StopSpec(c), Members(c.ready))
  {
    ExcludeAll(c.ready, Members(c.ready));
  }

  lemma SectionsMoveTheLine(c: Core, message: Message, id: EntryId, deregister: bool, command: string, self: set<EntryId>)
    requires CoreInv(c)
    ensures LineMoves(c, EnqueueSpec(c, message).0, [])
    ensures LineMoves(c, CompleteSpec(c, id, deregister).0, [])
    ensures LineMoves(c, DetachSpec(c, command, self).0, [])
    ensures LineMoves(c, StopSpec(c), [])
  {
    StopThins(c);
    assert Thins(c, DetachSpec(c, command, self).0, Mine(c, command));
    if id in c.callbacks && id in c.entries && (deregister || c.entries[id].cancelled) {
      assert Thins(c, CompleteSpec(c, id, deregister).0, {id});
    }
  }

  lemma LineStep(s: State, e: Event)
    requires Inv(s) && Enabled(s, e)
    ensures LineMoves(s.core, Step(s, e).core, PickedNow(s, e))
  {
    var c := s.core;
    assert CoreInv(c);
    hide Inv, CoreInv;
    if e.PickUp? {
      PickUpFindsWork(c);
    } else {
      hide LineMoves, DetachSpec, CompleteSpec, StopSpec, EnqueueSpec;
      if e.Enqueue? {
        SectionsMoveTheLine(c, e.message, 0, false, "", {});
      } else if e.Complete? {
        SectionsMoveTheLine(c, 0, s.workers[e.w].id, s.workers[e.w].deregister, "", {});
      } else if e.Detach? {
        SectionsMoveTheLine(c, 0, 0, false, s.removals[e.r].command, Own(s, s.removals[e.r]));
      } else if e.Stop? {
        SectionsMoveTheLine(c, 0, 0, false, "", {});
      } else {
        NobodyMoves(c, Step(s, e).core);
      }
    }
  }

  lemma NobodyMoves(c: Core, c': Core)
    requires c'.ready == c.ready
    ensures LineMoves(c, c', [])
  {
  }

  // ----- Whole runs -----

  /** Cancellation is final. */
  lemma {:induction false} CancelledStays(s: State, events: seq<Event>, id: EntryId)
    requires Inv(s) && Run(s, events) && id in s.core.entries && s.core.entries[id].cancelled
    ensures id in After(s, events).core.entries && After(s, events).core.entries[id].cancelled
  {
    if events != [] {
      CancelledStays(s, Front(events), id);
      ReachableInv(s, Front(events));
      QueueStep(After(s, Front(events)), Last(events), id);
    }
  }

  /**
   Over every run, an entry that stands in line is picked up, or is cancelled, or still stands there. While
   it does, those who were picked up, followed by those who are still ahead of it, are some of those who
   were ahead of it at first, each once and in their order: nobody jumps the line.
   */
  lemma {:induction false} ServedInLine(s: State, events: seq<Event>, id: EntryId)
    requires Inv(s) && Run(s, events) && id in s.core.ready && id !in PickedIn(s, events)
    ensures var t := After(s, events);
      && id in t.core.entries && (id in t.core.ready || t.core.entries[id].cancelled)
      && (id in t.core.ready ==> InOrder(PickedIn(s, events) + Ahead(t.core.ready, id), Ahead(s.core.ready, id)))
  {
    var ahead := Ahead(s.core.ready, id);
    if events == [] {
      SelectAll(ahead, Members(ahead));
      assert [] + ahead == ahead;
    } else {
      var front, e := Front(events), Last(events);
      var m := After(s, front);
      ServedInLine(s, front, id);
      ReachableInv(s, front);
      LineStep(m, e);
      QueueStep(m, e, id);
      if id in m.core.ready {
        AheadIsDistinct(s.core.ready, id);
        LineStepFor(m.core, Step(m, e).core, PickedNow(m, e), PickedIn(s, front), ahead, id);
      } else {
        assert !LiveEntry(m, id);
        StaysOut(m, e, id);
      }
    }
  }

  lemma AheadIsDistinct(line: seq<EntryId>, id: EntryId)
    requires Distinct(line)
    ensures Distinct(Ahead(line, id))
  {
  }

  lemma StaysOut(s: State, e: Event, id: EntryId)
    requires Inv(s) && Enabled(s, e) && id in s.core.entries && !LiveEntry(s, id)
    ensures id !in Step(s, e).core.ready && !LiveEntry(Step(s, e), id)
  {
    QueueStep(s, e, id);
    InvStep(s, e);
  }

  lemma LineStepFor(before: Core, after: Core, picked: seq<EntryId>, earlier: seq<EntryId>, line: seq<EntryId>, id: EntryId)
    requires LineMoves(before, after, picked) && id in before.ready && id !in earlier + picked
    requires Distinct(line) && InOrder(earlier + Ahead(before.ready, id), line)
    ensures id in after.ready || (id in after.entries && after.entries[id].cancelled)
    ensures id in after.ready ==> InOrder((earlier + picked) + Ahead(after.ready, id), line)
  {
    if picked != [] {
      var first := before.ready[0];
      assert (earlier + [first])[|earlier|] == first;
      AheadOfNext(before.ready, id);
      Regroup(earlier, [first], Ahead(before.ready[1..], id));
    } else if before.ready <= after.ready {
      var more := after.ready[|before.ready|..];
      AheadOfLonger(before.ready, more, id);
      assert after.ready == before.ready + more && earlier + picked == earlier;
    } else {
      var gone :| Thins(before, after, gone);
      assert earlier + picked == earlier;
      if id !in gone {
        AheadOfThinned(before.ready, gone, id);
        Thinner(line, earlier, Ahead(before.ready, id), gone);
      }
    }
  }

  lemma AheadOfNext(line: seq<EntryId>, id: EntryId)
    requires id in line && id != line[0]
    ensures id in line[1..] && Ahead(line, id) == [line[0]] + Ahead(line[1..], id)
  {
  }

  /**
   So whoever stands at place k is picked up or cancelled within the next k + 1 pick-ups, and meanwhile
   nobody is picked up twice, however much work others have.
   */
  lemma NobodyIsServedTwiceMeanwhile(s: State, events: seq<Event>, k: nat)
    requires Inv(s) && Run(s, events) && k < |s.core.ready|
    requires
      var id := s.core.ready[k];
      id !in PickedIn(s, events) && id in After(s, events).core.entries && !After(s, events).core.entries[id].cancelled
    ensures |PickedIn(s, events)| <= k && Distinct(PickedIn(s, events))
    ensures forall x :: x in PickedIn(s, events) ==> x in s.core.ready[..k]
  {
    var id, t := s.core.ready[k], After(s, events);
    assert id in s.core.ready;
    ServedInLine(s, events, id);
    var ahead := Ahead(s.core.ready, id);
    assert |ahead| == k by {
      assert s.core.ready[|ahead|] == id;
    }
    var part := PickedIn(s, events) + Ahead(t.core.ready, id);
    DistinctSelect(ahead, Members(part));
    AheadIsDistinct(s.core.ready, id);
    assert forall i :: 0 <= i < |PickedIn(s, events)| ==> part[i] == PickedIn(s, events)[i] && part[i] in part;
  }

  // ----- Those who join together -----

  ghost predicate Ascending(ids: seq<EntryId>)
  {
    forall i, j :: 0 <= i < j < |ids| ==> ids[i] < ids[j]
  }

  lemma {:induction false} AscendingSelect(ids: seq<EntryId>, keep: set<EntryId>)
    requires Ascending(ids)
    ensures Ascending(Select(ids, keep))
  {
    if ids != [] {
      AscendingSelect(ids[1..], keep);
      forall x | x in Select(ids[1..], keep) ensures ids[0] < x {
        var i :| 0 <= i < |ids[1..]| && ids[1..][i] == x;
        assert ids[i + 1] == x;
      }
      var rest := Select(ids[1..], keep);
      assert forall i :: 0 <= i < |rest| ==> rest[i] in rest;
    }
  }

  lemma {:induction false} AscendingExclude(ids: seq<EntryId>, drop: set<EntryId>)
    requires Ascending(ids)
    ensures Ascending(Exclude(ids, drop))
  {
    SelectOfExcluded(ids, drop, Members(ids) - drop);
    AscendingSelect(ids, Members(ids) - drop);
  }

  /** Over every run the registry stands in the order of registration. */
  lemma {:induction false} RegistryIsInOrder(s: State, events: seq<Event>)
    requires Inv(s) && Run(s, events) && Ascending(s.core.callbacks)
    ensures Ascending(After(s, events).core.callbacks)
  {
    if events != [] {
      var m, e := After(s, Front(events)), Last(events);
      RegistryIsInOrder(s, Front(events));
      ReachableInv(s, Front(events));
      RegistryStep(m, e);
    }
  }

  lemma RegistryStep(s: State, e: Event)
    requires Inv(s) && Enabled(s, e) && Ascending(s.core.callbacks)
    ensures Ascending(Step(s, e).core.callbacks)
  {
    var ids := s.core.callbacks;
    assert CoreInv(s.core);
    hide Inv, CoreInv, Ascending;
    if e.Detach? {
      AscendingExclude(ids, Taken(s.core, s.removals[e.r].command, Own(s, s.removals[e.r])));
    } else if e.Erase? {
      AscendingExclude(ids, {s.workers[e.w].id});
    } else if e.Register? {
      RegisterAscends(s.core, e.owner);
    } else if e.Stop? {
      NobodyAscends();
    }
  }

  lemma NobodyAscends()
    ensures Ascending([])
  {
  }

  lemma RegisterAscends(c: Core, owner: string)
    requires CoreInv(c) && Ascending(c.callbacks)
    ensures Ascending(RegisterSpec(c, owner).0.callbacks)
  {
    var ids := c.callbacks;
    forall i | 0 <= i < |ids| ensures ids[i] < c.nextId {
      assert ids[i] in ids;
    }
  }

  /** Those whom one delivery puts in line stand behind all others, in the order of registration. */
  lemma NewcomersStandInOrder(s: State, message: Message)
    requires Inv(s) && Ascending(s.core.callbacks) && Enabled(s, Enqueue(message))
    ensures var line, longer := s.core.ready, Step(s, Enqueue(message)).core.ready;
      line <= longer && Ascending(longer[|line|..])
  {
    AscendingSelect(s.core.callbacks, Unscheduled(s.core.entries));
  }

  // ----- Who is served at all -----

  /** A registration succeeds exactly while there is room, ids are left and nobody stops; the newcomer has its owner and no work. */
  lemma RegisteredIff(c: Core, owner: string)
    ensures
      var (c', ok) := RegisterSpec(c, owner);
      && (ok <==> !c.stopping && |c.callbacks| < 64 && c.nextId != 0xFFFF_FFFF_FFFF_FFFF)
      && (!ok ==> c' == c)
      && (ok ==> c' == c.(entries := c.entries[c.nextId := Entry(owner, [], false, false, 0)],
                          callbacks := c.callbacks + [c.nextId], nextId := c.nextId + 1))
  {
  }

  /** The event cancels the entry: its callback deregistered, its owner is removed, or the dispatcher stops. */
  predicate Cancels(s: State, e: Event, id: EntryId)
    requires Enabled(s, e)
  {
    || (e.Complete? && s.workers[e.w] == Returned(id, true))
    || (e.Detach? && id in s.core.entries && s.core.entries[id].owner == s.removals[e.r].command)
    || e.Stop?
  }

  predicate Lives(c: Core, id: EntryId)
  {
    id in c.entries && !c.entries[id].cancelled
  }

  lemma SectionsThatKill(c: Core, id: EntryId, x: EntryId, deregister: bool, command: string, self: set<EntryId>)
    requires CoreInv(c) && Lives(c, id)
    ensures Lives(CompleteSpec(c, x, deregister).0, id) <==> !(deregister && x == id)
    ensures Lives(DetachSpec(c, command, self).0, id) <==> c.entries[id].owner != command
    ensures !Lives(StopSpec(c), id)
  {
    assert EntryOk(c, id);
  }

  lemma SectionsThatDoNot(c: Core, id: EntryId, x: EntryId, message: Message, owner: string)
    requires CoreInv(c) && Lives(c, id)
    ensures Lives(RegisterSpec(c, owner).0, id) && Lives(EnqueueSpec(c, message).0, id)
    ensures Lives(ReleaseSpec(c, x), id) && Lives(EraseSpec(c, x), id)
    ensures c.ready != [] ==> Lives(PickUpSpec(c).0, id)
  {
  }

  /** A live entry dies by such an event and by no other. */
  lemma DiesIff(s: State, e: Event, id: EntryId)
    requires Inv(s) && Enabled(s, e) && LiveEntry(s, id)
    ensures LiveEntry(Step(s, e), id) <==> !Cancels(s, e, id)
  {
    var c := s.core;
    assert CoreInv(c);
    hide Inv, CoreInv, CompleteSpec, DetachSpec, StopSpec, RegisterSpec, EnqueueSpec, ReleaseSpec, EraseSpec, PickUpSpec;
    if e.Complete? {
      SectionsThatKill(c, id, s.workers[e.w].id, s.workers[e.w].deregister, "", {});
    } else if e.Detach? {
      SectionsThatKill(c, id, 0, false, s.removals[e.r].command, Own(s, s.removals[e.r]));
    } else if e.Stop? {
      SectionsThatKill(c, id, 0, false, "", {});
    } else if e.Release? || e.Erase? {
      SectionsThatDoNot(c, id, s.workers[e.w].id, 0, "");
    } else {
      SectionsThatDoNot(c, id, 0, if e.Enqueue? then e.message else 0, if e.Register? then e.owner else "");
    }
  }

  lemma SectionsThatRemove(c: Core, id: EntryId, x: EntryId, command: string, self: set<EntryId>)
    requires WellFormed(c) && id in c.callbacks
    ensures id in DetachSpec(c, command, self).0.callbacks <==> c.entries[id].owner != command || id in self
    ensures id in EraseSpec(c, x).callbacks <==> !(x == id && c.entries[id].cancelled)
    ensures id !in StopSpec(c).callbacks
  {
  }

  lemma SectionsThatStay(c: Core, x: EntryId, deregister: bool, message: Message, owner: string)
    ensures CompleteSpec(c, x, deregister).0.callbacks == EnqueueSpec(c, message).0.callbacks == c.callbacks
    ensures ReleaseSpec(c, x).callbacks == c.callbacks && c.callbacks <= RegisterSpec(c, owner).0.callbacks
    ensures c.ready != [] ==> PickUpSpec(c).0.callbacks == c.callbacks
  {
  }

  /** A registered entry leaves by its owner's removal, unless from inside itself, by the erase of a worker that retires it, or by the stop. */
  lemma LeavesIff(s: State, e: Event, id: EntryId)
    requires Inv(s) && Enabled(s, e) && id in s.core.callbacks
    ensures id in Step(s, e).core.callbacks <==>
            !(|| (e.Detach? && s.core.entries[id].owner == s.removals[e.r].command && id !in Own(s, s.removals[e.r]))
              || (e.Erase? && s.workers[e.w] == Released(id))
              || e.Stop?)
  {
    var c := s.core;
    assert WellFormed(c);
    if e.Erase? {
      assert Retires(s.workers[e.w]);
    }
    hide Inv, CoreInv, CompleteSpec, DetachSpec, StopSpec, RegisterSpec, EnqueueSpec, ReleaseSpec, EraseSpec, PickUpSpec;
    if e.Detach? {
      SectionsThatRemove(c, id, 0, s.removals[e.r].command, Own(s, s.removals[e.r]));
    } else if e.Erase? {
      SectionsThatRemove(c, id, s.workers[e.w].id, "", {});
    } else if e.Stop? {
      SectionsThatRemove(c, id, 0, "", {});
    } else if e.Complete? {
      SectionsThatStay(c, s.workers[e.w].id, s.workers[e.w].deregister, 0, "");
    } else if e.Release? {
      SectionsThatStay(c, s.workers[e.w].id, false, 0, "");
    } else {
      SectionsThatStay(c, 0, false, if e.Enqueue? then e.message else 0, if e.Register? then e.owner else "");
    }
  }

  /** A callback that deregistered is never picked up again. */
  lemma DeregisteredIsNeverServedAgain(s: State, w: WorkerId, id: EntryId, events: seq<Event>)
    requires Inv(s) && Enabled(s, Complete(w)) && s.workers[w] == Returned(id, true)
    requires Run(Step(s, Complete(w)), events)
    ensures id !in PickedIn(Step(s, Complete(w)), events)
  {
    InvStep(s, Complete(w));
    var t := Step(s, Complete(w));
    assert Executes(s.workers[w], id);
    if LiveEntry(s, id) {
      DiesIff(s, Complete(w), id);
    } else {
      QueueStep(s, Complete(w), id);
    }
    CancelledIsNotPicked(t, events, id);
  }

  lemma {:induction false} CancelledIsNotPicked(s: State, events: seq<Event>, id: EntryId)
    requires Inv(s) && Run(s, events) && id in s.core.entries && s.core.entries[id].cancelled
    ensures id !in PickedIn(s, events)
  {
    if events != [] {
      var m, e := After(s, Front(events)), Last(events);
      CancelledIsNotPicked(s, Front(events), id);
      CancelledStays(s, Front(events), id);
      ReachableInv(s, Front(events));
      QueueStep(m, e, id);
      if e.PickUp? {
        PickUpQueue(m, e.w, id);
      }
    }
  }
}
