/**
 The registry of the any-message dispatcher: what one critical section of the
 dispatcher does to the state its mutex protects.

 Callback entries are identified by their id, which is never reused.  `entries`
 holds every entry object ever created, `callbacks` the ids currently registered.
 */
module DispatcherCore {
  import opened Sequences

  type EntryId = nat
  type Message = nat

  const MAX_CALLBACKS: nat := 64
  const MAX_ENTRY_ID: nat := 0xFFFF_FFFF_FFFF_FFFF

  datatype Entry = Entry(owner: string, pending: seq<Message>, scheduled: bool, cancelled: bool, leases: nat)

  datatype Core = Core(
    entries: map<EntryId, Entry>,
    callbacks: seq<EntryId>,
    ready: seq<EntryId>,
    pendingInvocations: nat,
    nextId: nat,
    cancellationRequests: nat,
    stopping: bool,
    maxPending: nat)

  datatype Picked = Stale | Work(id: EntryId, message: Message)

  function Monus(a: nat, b: nat): (r: nat)
  {
    if b > a then 0 else a - b
  }

  function SumPending(ids: seq<EntryId>, entries: map<EntryId, Entry>): nat
  {
    if ids == [] then 0
    else (if ids[0] in entries then |entries[ids[0]].pending| else 0) + SumPending(ids[1..], entries)
  }

  /** Ids that are still to receive messages. */
  function Live(entries: map<EntryId, Entry>): (r: set<EntryId>)
  {
    set id | id in entries && !entries[id].cancelled
  }

  /** Live ids that have no place in the ready list and no worker. */
  function Unscheduled(entries: map<EntryId, Entry>): (r: set<EntryId>)
  {
    set id | id in entries && !entries[id].cancelled && !entries[id].scheduled
  }

  function OwnedBy(entries: map<EntryId, Entry>, command: string): (r: set<EntryId>)
  {
    set id | id in entries && entries[id].owner == command
  }

  /** Hands one message to each target and marks it scheduled. */
  function Deliver(entries: map<EntryId, Entry>, targets: set<EntryId>, message: Message): map<EntryId, Entry>
  {
    map id | id in entries ::
      if id in targets then entries[id].(pending := entries[id].pending + [message], scheduled := true)
      else entries[id]
  }

  /** What is left of an entry once its owner is cancelled. */
  function Cancelled(e: Entry): Entry
  {
    e.(cancelled := true, pending := [], scheduled := false)
  }

  function CancelAll(entries: map<EntryId, Entry>, targets: set<EntryId>): map<EntryId, Entry>
  {
    map id | id in entries :: if id in targets then Cancelled(entries[id]) else entries[id]
  }

  ghost predicate WellFormed(c: Core)
  {
    && c.nextId >= 1
    && Distinct(c.callbacks)
    && (forall id :: id in c.callbacks ==> id in c.entries)
    && (forall id :: id in c.entries ==> 1 <= id < c.nextId)
  }

  // ----- what each critical section does, as a function -----

  function RegisterSpec(c: Core, owner: string): (Core, bool)
  {
    if c.stopping || |c.callbacks| >= MAX_CALLBACKS || c.nextId == MAX_ENTRY_ID then (c, false)
    else (c.(entries := c.entries[c.nextId := Entry(owner, [], false, false, 0)],
             callbacks := c.callbacks + [c.nextId],
             nextId := c.nextId + 1), true)
  }

  /** The entries the next message must reach. */
  function Eligible(c: Core): seq<EntryId>
  {
    Select(c.callbacks, Live(c.entries))
  }

  predicate HasRoom(c: Core)
  {
    c.pendingInvocations <= c.maxPending && |Eligible(c)| <= c.maxPending - c.pendingInvocations
  }

  function EnqueueSpec(c: Core, message: Message): (Core, bool)
  {
    if c.stopping then (c, false)
    else if |Eligible(c)| == 0 then (c, true)
    else if !HasRoom(c) then (c, false)
    else (c.(entries := Deliver(c.entries, Members(c.callbacks) * Live(c.entries), message),
             ready := c.ready + Select(c.callbacks, Unscheduled(c.entries)),
             pendingInvocations := c.pendingInvocations + |Eligible(c)|), true)
  }

  /** The worker's wait predicate. */
  predicate GateOpen(c: Core)
  {
    c.cancellationRequests == 0 && c.ready != []
  }

  function PickUpSpec(c: Core): (Core, Picked)
    requires c.ready != []
  {
    var id := c.ready[0];
    var rest := c.(ready := c.ready[1..]);
    if id !in c.callbacks || id !in c.entries then (rest, Stale)
    else
      var e := c.entries[id];
      if e.cancelled || e.pending == [] then
        (rest.(entries := c.entries[id := e.(scheduled := false)]), Stale)
      else
        (rest.(entries := c.entries[id := e.(pending := e.pending[1..], leases := e.leases + 1)],
               pendingInvocations := Monus(c.pendingInvocations, 1)),
         Work(id, e.pending[0]))
  }

  function CompleteSpec(c: Core, id: EntryId, deregister: bool): (Core, bool)
  {
    if id !in c.callbacks || id !in c.entries then (c, deregister)
    else
      var e := c.entries[id];
      if deregister || e.cancelled then
        (c.(entries := c.entries[id := Cancelled(e)],
            ready := Exclude(c.ready, {id}),
            pendingInvocations := Monus(c.pendingInvocations, |e.pending|)), true)
      else if e.pending != [] then (c.(ready := c.ready + [id]), false)
      else (c.(entries := c.entries[id := e.(scheduled := false)]), false)
  }

  function ReleaseSpec(c: Core, id: EntryId): Core
  {
    if id !in c.entries then c else c.(entries := c.entries[id := c.entries[id].(leases := Monus(c.entries[id].leases, 1))])
  }

  function EraseSpec(c: Core, id: EntryId): Core
  {
    if id in c.callbacks && id in c.entries && c.entries[id].cancelled then c.(callbacks := Exclude(c.callbacks, {id})) else c
  }

  /** Registered entries of one owner. */
  function Mine(c: Core, command: string): set<EntryId>
  {
    Members(c.callbacks) * OwnedBy(c.entries, command)
  }

  /** Registered entries of one owner that the caller takes away: all but the one it runs in. */
  function Taken(c: Core, command: string, self: set<EntryId>): set<EntryId>
  {
    Mine(c, command) - self
  }

  function DetachSpec(c: Core, command: string, self: set<EntryId>): (Core, seq<EntryId>)
  {
    var mine := Mine(c, command);
    var out := Taken(c, command, self);
    (c.(entries := CancelAll(c.entries, mine),
        ready := Exclude(c.ready, mine),
        callbacks := Exclude(c.callbacks, out),
        pendingInvocations := Monus(c.pendingInvocations, SumPending(Select(c.callbacks, mine), c.entries))),
     Select(c.callbacks, out))
  }

  function StopSpec(c: Core): Core
  {
    c.(entries := CancelAll(c.entries, Members(c.callbacks)),
       ready := [], callbacks := [], pendingInvocations := 0, stopping := true)
  }

  // ----- bookkeeping lemmas -----

  lemma {:induction false} SumPendingSame(ids: seq<EntryId>, a: map<EntryId, Entry>, b: map<EntryId, Entry>)
    requires forall id :: id in ids ==> id in a && id in b && |a[id].pending| == |b[id].pending|
    ensures SumPending(ids, a) == SumPending(ids, b)
  {
    if ids != [] {
      SumPendingSame(ids[1..], a, b);
    }
  }

  lemma {:induction false} SumPendingConcat(x: seq<EntryId>, y: seq<EntryId>, m: map<EntryId, Entry>)
    requires forall id :: id in x || id in y ==> id in m
    ensures SumPending(x + y, m) == SumPending(x, m) + SumPending(y, m)
  {
    if x == [] {
      assert x + y == y;
    } else {
      SumPendingConcat(x[1..], y, m);
      assert (x + y)[1..] == x[1..] + y;
    }
  }

  /** Splitting a registry in two splits its pending count. */
  lemma {:induction false} SumPendingSplit(ids: seq<EntryId>, m: map<EntryId, Entry>, part: set<EntryId>)
    requires forall id :: id in ids ==> id in m
    ensures SumPending(ids, m) == SumPending(Select(ids, part), m) + SumPending(Exclude(ids, part), m)
  {
    if ids != [] {
      SumPendingSplit(ids[1..], m, part);
      if ids[0] in part {
        assert Select(ids, part) == [ids[0]] + Select(ids[1..], part);
        SumPendingConcat([ids[0]], Select(ids[1..], part), m);
      } else {
        assert Exclude(ids, part) == [ids[0]] + Exclude(ids[1..], part);
        SumPendingConcat([ids[0]], Exclude(ids[1..], part), m);
      }
      assert SumPending([ids[0]], m) == |m[ids[0]].pending| + SumPending([], m);
    }
  }

  lemma {:induction false} SumPendingZero(ids: seq<EntryId>, m: map<EntryId, Entry>)
    requires forall id :: id in ids ==> id in m && m[id].pending == []
    ensures SumPending(ids, m) == 0
  {
    if ids != [] {
      SumPendingZero(ids[1..], m);
    }
  }

  /** One entry of a registry contributes its own queue and the others are untouched. */
  lemma SumPendingOne(ids: seq<EntryId>, m: map<EntryId, Entry>, id: EntryId)
    requires Distinct(ids) && id in ids
    requires forall x :: x in ids ==> x in m
    ensures SumPending(ids, m) == |m[id].pending| + SumPending(Exclude(ids, {id}), m)
  {
    SumPendingSplit(ids, m, {id});
    SelectOne(ids, id);
    assert SumPending([id], m) == |m[id].pending| + SumPending([], m);
  }

  lemma {:induction false} SelectOne(ids: seq<EntryId>, id: EntryId)
    requires Distinct(ids) && id in ids
    ensures Select(ids, {id}) == [id]
  {
    if ids[0] == id {
      assert forall x :: x in ids[1..] ==> x != id;
      SelectNothing(ids[1..], {id});
    } else {
      SelectOne(ids[1..], id);
    }
  }

  lemma DeliverOneMore(m: map<EntryId, Entry>, targets: set<EntryId>, id: EntryId, message: Message)
    requires id in m && id !in targets
    ensures Deliver(m, targets + {id}, message)
         == Deliver(m, targets, message)[id := m[id].(pending := m[id].pending + [message], scheduled := true)]
  {
  }

  /** Delivering one message to the live part of a registry adds one per live entry. */
  lemma {:induction false} SumPendingDeliver(ids: seq<EntryId>, m: map<EntryId, Entry>, targets: set<EntryId>, message: Message)
    requires forall id :: id in ids ==> id in m
    ensures SumPending(ids, Deliver(m, targets, message)) == SumPending(ids, m) + |Select(ids, targets)|
  {
    if ids != [] {
      SumPendingDeliver(ids[1..], m, targets, message);
    }
  }
}
