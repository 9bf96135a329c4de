/**
 Workers and owner removals interleaved: one event per critical section, atomic
 access or wake-up of the dispatcher.  A run is any sequence of enabled events.
 */
module DispatcherProtocol {
  import opened Sequences
  import opened DispatcherCore
  import opened DispatcherInvariant

  type WorkerId = nat
  type RemovalId = nat

  /** Where a worker stands in its loop. */
  datatype Worker =
    | Waiting
    | Crossed                                              // past the wait predicate, still holding the mutex
    | PickedUp(id: EntryId, message: Message)
    | Running(id: EntryId, message: Message)               // inside the callback
    | Returned(id: EntryId, deregister: bool)
    | Completed(id: EntryId, retire: bool)                 // lease not yet released
    | Released(id: EntryId)                                // retiring, entry not yet erased
    | Exited

  datatype Caller = External | Inside(worker: WorkerId)

  /** Where a call of removeCallbacksForCommand stands. */
  datatype Removal =
    | Published(command: string, caller: Caller)
    | Detached(command: string, caller: Caller, removed: seq<EntryId>)
    | Draining(command: string, caller: Caller, removed: seq<EntryId>, next: nat)

  datatype State = State(core: Core, workers: map<WorkerId, Worker>, removals: map<RemovalId, Removal>)

  datatype Event =
    | Register(owner: string)
    | Enqueue(message: Message)
    | Cross(w: WorkerId)
    | PickUp(w: WorkerId)
    | Begin(w: WorkerId, granted: bool)      // the module lease was granted, or refused
    | Return(w: WorkerId, deregister: bool)  // Deregister, or any exception
    | Complete(w: WorkerId)
    | Release(w: WorkerId)
    | Erase(w: WorkerId)
    | Exit(w: WorkerId)
    | Publish(r: RemovalId, command: string, caller: Caller)
    | Detach(r: RemovalId)
    | Reopen(r: RemovalId)
    | DrainNext(r: RemovalId)
    | Finish(r: RemovalId)
    | Stop

  predicate Executes(p: Worker, id: EntryId)
  {
    (p.PickedUp? || p.Running? || p.Returned?) && p.id == id
  }

  predicate Holds(p: Worker, id: EntryId)
  {
    Executes(p, id) || (p.Completed? && p.id == id)
  }

  function Executors(s: State, id: EntryId): set<WorkerId>
  {
    set w | w in s.workers && Executes(s.workers[w], id)
  }

  function Holders(s: State, id: EntryId): set<WorkerId>
  {
    set w | w in s.workers && Holds(s.workers[w], id)
  }

  /** Nobody holds the registry mutex between two events. */
  predicate LockFree(s: State)
  {
    forall w :: w in s.workers ==> !s.workers[w].Crossed?
  }

  predicate Closing(r: Removal)
  {
    r.Published? || r.Detached?
  }

  function ClosedBy(s: State): set<RemovalId>
  {
    set r | r in s.removals && Closing(s.removals[r])
  }

  /** The removal has detached this entry and has not yet seen its lease count at zero. */
  predicate Undrained(r: Removal, id: EntryId)
  {
    (r.Detached? && id in r.removed) || (r.Draining? && r.next <= |r.removed| && id in r.removed[r.next..])
  }

  /** The entry whose callback the removal was called from. */
  function Own(s: State, r: Removal): set<EntryId>
  {
    match r.caller
    case External => {}
    case Inside(w) => if w in s.workers && s.workers[w].Running? then {s.workers[w].id} else {}
  }

  predicate BusyRemoving(s: State, w: WorkerId)
  {
    exists r :: r in s.removals && s.removals[r].caller == Inside(w)
  }


  predicate Enabled(s: State, e: Event)
  {
    match e
    case Register(_) => LockFree(s)
    case Enqueue(_) => LockFree(s)
    case Cross(w) => w in s.workers && s.workers[w].Waiting? && LockFree(s) && !s.core.stopping && GateOpen(s.core)
    case PickUp(w) => w in s.workers && s.workers[w].Crossed? && s.core.ready != []
    case Begin(w, granted) =>
      && w in s.workers && s.workers[w].PickedUp?
      && (!granted ==> s.workers[w].id in s.core.entries && s.core.entries[s.workers[w].id].owner != "")
    case Return(w, _) => w in s.workers && s.workers[w].Running? && !BusyRemoving(s, w)
    case Complete(w) => w in s.workers && s.workers[w].Returned? && LockFree(s)
    case Release(w) => w in s.workers && s.workers[w].Completed?
    case Erase(w) => w in s.workers && s.workers[w].Released? && LockFree(s)
    case Exit(w) => w in s.workers && s.workers[w].Waiting? && LockFree(s) && s.core.stopping
    case Publish(r, _, caller) =>
      && r !in s.removals
      && (caller.Inside? ==> caller.worker in s.workers && s.workers[caller.worker].Running? && !BusyRemoving(s, caller.worker))
    case Detach(r) => r in s.removals && s.removals[r].Published? && LockFree(s)
    case Reopen(r) => r in s.removals && s.removals[r].Detached? && LockFree(s) && s.core.cancellationRequests > 0
    case DrainNext(r) =>
      && r in s.removals && s.removals[r].Draining? && s.removals[r].next < |s.removals[r].removed|
      && var id := s.removals[r].removed[s.removals[r].next]; id in s.core.entries && s.core.entries[id].leases == 0
    case Finish(r) => r in s.removals && s.removals[r].Draining? && s.removals[r].next == |s.removals[r].removed|
    case Stop => LockFree(s) && !s.core.stopping
  }

  function Moved(s: State, w: WorkerId, p: Worker): State
  {
    s.(workers := s.workers[w := p])
  }

  function PickUpState(s: State, w: WorkerId): State
    requires s.core.ready != []
  {
    var (core, picked) := PickUpSpec(s.core);
    Moved(s, w, if picked.Work? then PickedUp(picked.id, picked.message) else Waiting).(core := core)
  }

  function CompleteState(s: State, w: WorkerId): State
    requires w in s.workers && s.workers[w].Returned?
  {
    var p := s.workers[w];
    var (core, retire) := CompleteSpec(s.core, p.id, p.deregister);
    Moved(s, w, Completed(p.id, retire)).(core := core)
  }

  function ReleaseState(s: State, w: WorkerId): State
    requires w in s.workers && s.workers[w].Completed?
  {
    var p := s.workers[w];
    Moved(s, w, if p.retire then Released(p.id) else Waiting).(core := ReleaseSpec(s.core, p.id))
  }

  function EraseState(s: State, w: WorkerId): State
    requires w in s.workers && s.workers[w].Released?
  {
    Moved(s, w, Waiting).(core := EraseSpec(s.core, s.workers[w].id))
  }

  function PublishState(s: State, r: RemovalId, command: string, caller: Caller): State
  {
    s.(removals := s.removals[r := Published(command, caller)],
       core := s.core.(cancellationRequests := s.core.cancellationRequests + 1))
  }

  function DetachState(s: State, r: RemovalId): State
    requires r in s.removals
  {
    var p := s.removals[r];
    var (core, removed) := DetachSpec(s.core, p.command, Own(s, p));
    s.(removals := s.removals[r := Detached(p.command, p.caller, removed)], core := core)
  }

  function ReopenState(s: State, r: RemovalId): State
    requires r in s.removals && s.removals[r].Detached? && s.core.cancellationRequests > 0
  {
    var p := s.removals[r];
    s.(removals := s.removals[r := Draining(p.command, p.caller, p.removed, 0)],
       core := s.core.(cancellationRequests := s.core.cancellationRequests - 1))
  }

  function DrainNextState(s: State, r: RemovalId): State
    requires r in s.removals && s.removals[r].Draining?
  {
    s.(removals := s.removals[r := s.removals[r].(next := s.removals[r].next + 1)])
  }

  function Step(s: State, e: Event): State
    requires Enabled(s, e)
  {
    match e
    case Register(owner) => s.(core := RegisterSpec(s.core, owner).0)
    case Enqueue(message) => s.(core := EnqueueSpec(s.core, message).0)
    case Cross(w) => Moved(s, w, Crossed)
    case PickUp(w) => PickUpState(s, w)
    case Begin(w, granted) =>
      var p := s.workers[w];
      Moved(s, w, if granted then Running(p.id, p.message) else Returned(p.id, true))
    case Return(w, deregister) => Moved(s, w, Returned(s.workers[w].id, deregister))
    case Complete(w) => CompleteState(s, w)
    case Release(w) => ReleaseState(s, w)
    case Erase(w) => EraseState(s, w)
    case Exit(w) => Moved(s, w, Exited)
    case Publish(r, command, caller) => PublishState(s, r, command, caller)
    case Detach(r) => DetachState(s, r)
    case Reopen(r) => ReopenState(s, r)
    case DrainNext(r) => DrainNextState(s, r)
    case Finish(r) => s.(removals := s.removals - {r})
    case Stop => s.(core := StopSpec(s.core))
  }

  // ----- runs -----

  function Init(maxPending: nat, workers: set<WorkerId>): State
  {
    State(Core(map[], [], [], 0, 1, 0, false, maxPending), map w | w in workers :: Waiting, map[])
  }

  /** The state after some events; an event that is not enabled leaves it unchanged. */
  function After(s: State, events: seq<Event>): State
  {
    if events == [] then s
    else
      var t := After(s, Front(events));
      if Enabled(t, Last(events)) then Step(t, Last(events)) else t
  }

  /** Every event of the sequence is enabled when its turn comes. */
  predicate Run(s: State, events: seq<Event>)
  {
    events == [] || (Run(s, Front(events)) && Enabled(After(s, Front(events)), Last(events)))
  }

  // ----- the invariant -----

  /** At most one worker runs a callback, and never while its id waits in the ready list. */
  ghost predicate Serial(s: State)
  {
    && (forall v, w, id :: v in s.workers && w in s.workers && Executes(s.workers[v], id) && Executes(s.workers[w], id) ==> v == w)
    && (forall w, id :: w in s.workers && Executes(s.workers[w], id) ==> id !in s.core.ready)
  }

  /** A live entry is scheduled exactly while it is in the ready list or being executed. */
  ghost predicate Strand(s: State)
  {
    forall id :: id in s.core.entries && !s.core.entries[id].cancelled ==>
      (s.core.entries[id].scheduled <==> id in s.core.ready || Executors(s, id) != {})
  }

  /** The lease count of an entry is the number of workers between pick-up and release. */
  ghost predicate Leases(s: State)
  {
    && (forall id :: id in s.core.entries ==> s.core.entries[id].leases == |Holders(s, id)|)
    && (forall w, id :: w in s.workers && Holds(s.workers[w], id) ==> id in s.core.entries)
  }

  /** Every executing entry can still be found: in the registry, or by a removal that has not finished waiting for it. */
  ghost predicate Findable(s: State, id: EntryId)
  {
    id in s.core.callbacks || s.core.stopping || exists r :: r in s.removals && Undrained(s.removals[r], id)
  }

  ghost predicate Tracked(s: State)
  {
    forall w, id :: w in s.workers && Executes(s.workers[w], id) ==> Findable(s, id)
  }

  predicate Retires(p: Worker)
  {
    p.Released? || (p.Completed? && p.retire)
  }

  /** A worker that retires an entry has it to itself. */
  ghost predicate Retiring(s: State)
  {
    forall w, v :: w in s.workers && v in s.workers && Retires(s.workers[w]) ==>
      && s.workers[w].id in s.core.entries && s.core.entries[s.workers[w].id].cancelled
      && (s.workers[w].id in s.core.callbacks ==> !Executes(s.workers[v], s.workers[w].id))
  }

  ghost predicate RemovalOk(s: State, p: Removal)
  {
    && (p.caller.Inside? ==> p.caller.worker in s.workers && s.workers[p.caller.worker].Running?)
    && (!p.Published? ==>
          && (forall id :: id in p.removed ==> id in s.core.entries && id !in s.core.callbacks)
          && (forall id :: id in p.removed ==> id !in Own(s, p)))
    && (p.Draining? ==>
          && p.next <= |p.removed|
          && forall i :: 0 <= i < p.next ==> p.removed[i] in s.core.entries && s.core.entries[p.removed[i]].leases == 0)
  }

  ghost predicate Removals(s: State)
  {
    && (forall r :: r in s.removals ==> RemovalOk(s, s.removals[r]))
    && s.core.cancellationRequests == |ClosedBy(s)|
  }

  /** The mutex is held by one crossing worker at most, and it finds work. */
  ghost predicate Crossing(s: State)
  {
    && (forall v, w :: v in s.workers && w in s.workers && s.workers[v].Crossed? && s.workers[w].Crossed? ==> v == w)
    && (forall w :: w in s.workers && s.workers[w].Crossed? ==> s.core.ready != [] && !s.core.stopping)
  }

  ghost predicate Inv(s: State)
  {
    && CoreInv(s.core) && Serial(s) && Strand(s) && Leases(s) && Tracked(s) && Retiring(s) && Removals(s) && Crossing(s)
  }
}
