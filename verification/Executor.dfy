/**
 The owner-scoped executor: a bounded task queue, per-owner cancellation with nested
 block counts, and counts of running tasks.
 */
module Executor {
  import opened Sequences

  /** A queued closure, known by its owner and an identity of its own. */
  datatype Task = Task(owner: string, id: nat)

  datatype EnqueueResult = Accepted | QueueFullOrStopping | Rejected

  /** The optional admission callback and what it would answer now. */
  datatype Admission = NoAdmission | Asks(answer: bool)

  datatype Queue = Queue(
    tasks: seq<Task>,
    blocked: map<string, nat>,
    active: map<string, nat>,
    stopping: bool,
    maxSize: nat)

  /** Tasks of one owner, in order. */
  function Of(ts: seq<Task>, owner: string): seq<Task>
  {
    if ts == [] then [] else (if ts[0].owner == owner then [ts[0]] else []) + Of(ts[1..], owner)
  }

  /** Tasks of everybody else, in order. */
  function NotOf(ts: seq<Task>, owner: string): seq<Task>
  {
    if ts == [] then [] else (if ts[0].owner == owner then [] else [ts[0]]) + NotOf(ts[1..], owner)
  }

  function Count(m: map<string, nat>, owner: string): nat
  {
    if owner in m then m[owner] else 0
  }

  /** Sets a count, leaving no zero behind. */
  function Recount(m: map<string, nat>, owner: string, n: nat): map<string, nat>
  {
    if n == 0 then m - {owner} else m[owner := n]
  }

  function EmplaceSpec(q: Queue, t: Task, admission: Admission): (Queue, EnqueueResult)
  {
    if q.stopping || t.owner in q.blocked || |q.tasks| >= q.maxSize then (q, QueueFullOrStopping)
    else if admission == Asks(false) then (q, Rejected)
    else (q.(tasks := q.tasks + [t]), Accepted)
  }

  function CancelSpec(q: Queue, owner: string): Queue
  {
    if owner == "" then q
    else q.(tasks := NotOf(q.tasks, owner), blocked := q.blocked[owner := Count(q.blocked, owner) + 1])
  }

  /** The condition drain waits for. */
  predicate Drained(q: Queue, owner: string, allowance: nat)
  {
    Count(q.active, owner) <= allowance
  }

  function UnblockSpec(q: Queue, owner: string): Queue
  {
    if owner == "" || owner !in q.blocked then q
    else q.(blocked := Recount(q.blocked, owner, if q.blocked[owner] <= 1 then 0 else q.blocked[owner] - 1))
  }

  function StartSpec(q: Queue): (Queue, Task)
    requires q.tasks != []
  {
    var t := q.tasks[0];
    (q.(tasks := q.tasks[1..], active := q.active[t.owner := Count(q.active, t.owner) + 1]), t)
  }

  function FinishSpec(q: Queue, owner: string): Queue
  {
    if Count(q.active, owner) == 0 then q
    else q.(active := Recount(q.active, owner, q.active[owner] - 1))
  }

  /** The part of a queue not yet looked at still holds what the two partial results lack. */
  ghost predicate Parted(all: seq<Task>, owner: string, retained: seq<Task>, retired: seq<Task>, rest: seq<Task>)
  {
    retained + NotOf(rest, owner) == NotOf(all, owner) && retired + Of(rest, owner) == Of(all, owner)
  }

  lemma PartStart(all: seq<Task>, owner: string)
    ensures Parted(all, owner, [], [], all)
  {
    assert [] + NotOf(all, owner) == NotOf(all, owner) && [] + Of(all, owner) == Of(all, owner);
  }

  lemma PartEnd(all: seq<Task>, owner: string, retained: seq<Task>, retired: seq<Task>)
    requires Parted(all, owner, retained, retired, [])
    ensures retained == NotOf(all, owner) && retired == Of(all, owner)
  {
    assert retained + [] == retained && retired + [] == retired;
  }

  lemma PartNext(all: seq<Task>, owner: string, retained: seq<Task>, retired: seq<Task>, rest: seq<Task>)
    requires Parted(all, owner, retained, retired, rest) && rest != []
    ensures rest[0].owner == owner ==> Parted(all, owner, retained, retired + [rest[0]], rest[1..])
    ensures rest[0].owner != owner ==> Parted(all, owner, retained + [rest[0]], retired, rest[1..])
  {
    Regroup(retired, [rest[0]], Of(rest[1..], owner));
    Regroup(retained, [rest[0]], NotOf(rest[1..], owner));
    assert [] + Of(rest[1..], owner) == Of(rest[1..], owner);
    assert [] + NotOf(rest[1..], owner) == NotOf(rest[1..], owner);
  }

  class Async {
    var tasks: seq<Task>
    var blockedOwners: map<string, nat>
    var activeTasks: map<string, nat>
    var stopWorker: bool
    const maxQueueSize: nat

    ghost function State(): Queue
      reads this
    {
      Queue(tasks, blockedOwners, activeTasks, stopWorker, maxQueueSize)
    }

    constructor (maxQueueSize: nat)
      requires maxQueueSize > 0
      ensures State() == Queue([], map[], map[], false, maxQueueSize)
    {
      this.maxQueueSize := maxQueueSize;
      tasks, blockedOwners, activeTasks, stopWorker := [], map[], map[], false;
    }

    /** `asked` tells whether the admission callback was run. */
    method EmplaceTaskIf(task: Task, admission: Admission) returns (result: EnqueueResult, asked: bool)
      modifies this
      ensures (State(), result) == EmplaceSpec(old(State()), task, admission)
      ensures asked <==> admission.Asks? && result != QueueFullOrStopping
    {
      asked := false;
      if stopWorker || task.owner in blockedOwners || |tasks| >= maxQueueSize {
        return QueueFullOrStopping, asked;
      }
      if admission.Asks? {
        asked := true;
        if !admission.answer {
          return Rejected, asked;
        }
      }
      tasks := tasks + [task];
      return Accepted, asked;
    }

    /** Returns the closures taken out of the queue, which the caller destroys outside the lock. */
    method Cancel(owner: string) returns (retired: seq<Task>)
      modifies this
      ensures State() == CancelSpec(old(State()), owner)
      ensures retired == if owner == "" then [] else Of(old(tasks), owner)
    {
      if owner == "" {
        return [];
      }
      blockedOwners := blockedOwners[owner := (if owner in blockedOwners then blockedOwners[owner] else 0) + 1];
      retired := TakeOut(owner);
    }

    method TakeOut(owner: string) returns (retired: seq<Task>)
      modifies this`tasks
      ensures tasks == NotOf(old(tasks), owner) && retired == Of(old(tasks), owner)
    {
      var retained;
      retained, retired := [], [];
      ghost var all := tasks;
      PartStart(all, owner);
      while tasks != []
        invariant Parted(all, owner, retained, retired, tasks)
        modifies this`tasks
      {
        PartNext(all, owner, retained, retired, tasks);
        var task := tasks[0];
        tasks := tasks[1..];
        if task.owner == owner {
          retired := retired + [task];
        } else {
          retained := retained + [task];
        }
      }
      PartEnd(all, owner, retained, retired);
      tasks := retained;
    }

    /** What drain does once its wait is over. */
    method Unblock(owner: string)
      modifies this
      ensures State() == UnblockSpec(old(State()), owner)
    {
      if owner != "" && owner in blockedOwners {
        if blockedOwners[owner] <= 1 {
          blockedOwners := blockedOwners - {owner};
        } else {
          blockedOwners := blockedOwners[owner := blockedOwners[owner] - 1];
        }
      }
    }

    /** A worker's section before it runs a task. */
    method Start() returns (task: Task)
      requires tasks != []
      modifies this
      ensures (State(), task) == StartSpec(old(State()))
    {
      task := tasks[0];
      tasks := tasks[1..];
      activeTasks := activeTasks[task.owner := (if task.owner in activeTasks then activeTasks[task.owner] else 0) + 1];
    }

    /** A worker's section after its task returned and its closure was destroyed. */
    method Finish(owner: string)
      modifies this
      ensures State() == FinishSpec(old(State()), owner)
    {
      if owner in activeTasks && activeTasks[owner] != 0 {
        if activeTasks[owner] - 1 == 0 {
          activeTasks := activeTasks - {owner};
        } else {
          activeTasks := activeTasks[owner := activeTasks[owner] - 1];
        }
      }
    }
  }

  // ----- workers and cancellation scopes, interleaved -----

  type WorkerId = nat
  type ScopeId = nat

  datatype Worker = Idle | Running(task: Task) | Exited

  datatype Caller = External | Inside(worker: WorkerId)

  /** A cancel(owner) whose drain(owner) has not passed yet. */
  datatype Scope = Scope(owner: string, caller: Caller)

  datatype State = State(q: Queue, workers: map<WorkerId, Worker>, scopes: map<ScopeId, Scope>)

  datatype Event =
    | Emplace(task: Task, admission: Admission)
    | Start(w: WorkerId)
    | Finish(w: WorkerId)
    | Cancel(c: ScopeId, owner: string, caller: Caller)
    | Drain(c: ScopeId)
    | Stop
    | Exit(w: WorkerId)

  function RunningOf(s: State, owner: string): set<WorkerId>
  {
    set w | w in s.workers && s.workers[w].Running? && s.workers[w].task.owner == owner
  }

  function ScopesOf(s: State, owner: string): set<ScopeId>
  {
    set c | c in s.scopes && s.scopes[c].owner == owner
  }

  /** One if drain is called from a running task of that very owner. */
  function Allowance(s: State, scope: Scope): nat
  {
    match scope.caller
    case External => 0
    case Inside(w) => if w in RunningOf(s, scope.owner) then 1 else 0
  }

  predicate Enabled(s: State, e: Event)
  {
    match e
    case Emplace(_, _) => true
    case Start(w) => w in s.workers && s.workers[w].Idle? && s.q.tasks != []
    case Finish(w) => w in s.workers && s.workers[w].Running? && forall c :: c in s.scopes ==> s.scopes[c].caller != Inside(w)
    case Cancel(c, owner, caller) =>
      c !in s.scopes && (caller.Inside? ==> caller.worker in s.workers && s.workers[caller.worker].Running?)
    case Drain(c) =>
      c in s.scopes && (s.scopes[c].owner == "" || Drained(s.q, s.scopes[c].owner, Allowance(s, s.scopes[c])))
    case Stop => true
    case Exit(w) => w in s.workers && s.workers[w].Idle? && s.q.tasks == [] && s.q.stopping
  }

  function Step(s: State, e: Event): State
    requires Enabled(s, e)
  {
    match e
    case Emplace(task, admission) => s.(q := EmplaceSpec(s.q, task, admission).0)
    case Start(w) => s.(q := StartSpec(s.q).0, workers := s.workers[w := Running(StartSpec(s.q).1)])
    case Finish(w) => s.(q := FinishSpec(s.q, s.workers[w].task.owner), workers := s.workers[w := Idle])
    case Cancel(c, owner, caller) => s.(q := CancelSpec(s.q, owner), scopes := s.scopes[c := Scope(owner, caller)])
    case Drain(c) => s.(q := UnblockSpec(s.q, s.scopes[c].owner), scopes := s.scopes - {c})
    case Stop => s.(q := s.q.(stopping := true))
    case Exit(w) => s.(workers := s.workers[w := Exited])
  }

  function Init(maxSize: nat, workers: set<WorkerId>): State
  {
    State(Queue([], map[], map[], false, maxSize), map w | w in workers :: Idle, map[])
  }

  /** The state after some events; an event that is not enabled leaves it unchanged. */
  function After(s: State, events: seq<Event>): State
  {
    if events == [] then s
    else
      var t := After(s, Front(events));
      if Enabled(t, Last(events)) then Step(t, Last(events)) else t
  }

  predicate Run(s: State, events: seq<Event>)
  {
    events == [] || (Run(s, Front(events)) && Enabled(After(s, Front(events)), Last(events)))
  }

  // ----- what holds in every reachable state -----

  /** A count in a map is the size of a set, and the map holds no zeros. */
  ghost predicate Counts(m: map<string, nat>, owner: string, n: nat)
  {
    Count(m, owner) == n && (owner in m ==> n > 0)
  }

  ghost predicate Inv(s: State)
  {
    && |s.q.tasks| <= s.q.maxSize
    && (forall o :: Counts(s.q.active, o, |RunningOf(s, o)|))
    && (forall o :: o != "" ==> Counts(s.q.blocked, o, |ScopesOf(s, o)|))
    && "" !in s.q.blocked
    && (forall t :: t in s.q.tasks ==> t.owner !in s.q.blocked)
    && (forall c :: c in s.scopes && s.scopes[c].caller.Inside? ==>
          s.scopes[c].caller.worker in s.workers && s.workers[s.scopes[c].caller.worker].Running?)
  }

  lemma NotOfElements(ts: seq<Task>, owner: string)
    ensures forall t :: t in NotOf(ts, owner) <==> t in ts && t.owner != owner
    ensures |NotOf(ts, owner)| <= |ts|
  {
  }

  lemma MoveCounts(s: State, w: WorkerId, p: Worker, o: string)
    requires w in s.workers
    ensures RunningOf(s.(workers := s.workers[w := p]), o)
         == if p.Running? && p.task.owner == o then RunningOf(s, o) + {w} else RunningOf(s, o) - {w}
  {
  }

  lemma StartKeeps(s: State, w: WorkerId)
    requires Inv(s) && Enabled(s, Start(w))
    ensures Inv(Step(s, Start(w)))
  {
    var t := Step(s, Start(w));
    forall o ensures Counts(t.q.active, o, |RunningOf(t, o)|) {
      assert Counts(s.q.active, o, |RunningOf(s, o)|);
      MoveCounts(s, w, t.workers[w], o);
      assert RunningOf(t, o) == RunningOf(s.(workers := t.workers), o);
    }
    forall o ensures ScopesOf(t, o) == ScopesOf(s, o) {}
  }

  lemma FinishKeeps(s: State, w: WorkerId)
    requires Inv(s) && Enabled(s, Finish(w))
    ensures Inv(Step(s, Finish(w)))
  {
    var t, owner := Step(s, Finish(w)), s.workers[w].task.owner;
    assert w in RunningOf(s, owner);
    forall o ensures Counts(t.q.active, o, |RunningOf(t, o)|) {
      assert Counts(s.q.active, o, |RunningOf(s, o)|);
      MoveCounts(s, w, Idle, o);
      assert RunningOf(t, o) == RunningOf(s.(workers := t.workers), o);
    }
    forall o ensures ScopesOf(t, o) == ScopesOf(s, o) {}
  }

  lemma CancelCounts(s: State, t: State, c: ScopeId, scope: Scope, o: string)
    requires c !in s.scopes && t.scopes == s.scopes[c := scope] && t.q.blocked == CancelSpec(s.q, scope.owner).blocked
    requires o != "" && Counts(s.q.blocked, o, |ScopesOf(s, o)|)
    ensures Counts(t.q.blocked, o, |ScopesOf(t, o)|)
  {
    assert ScopesOf(t, o) == if o == scope.owner then ScopesOf(s, o) + {c} else ScopesOf(s, o);
  }

  lemma CancelKeeps(s: State, c: ScopeId, owner: string, caller: Caller)
    requires Inv(s) && Enabled(s, Cancel(c, owner, caller))
    ensures Inv(Step(s, Cancel(c, owner, caller)))
  {
    var t := Step(s, Cancel(c, owner, caller));
    NotOfElements(s.q.tasks, owner);
    forall o ensures RunningOf(t, o) == RunningOf(s, o) {}
    forall o | o != "" ensures Counts(t.q.blocked, o, |ScopesOf(t, o)|) {
      CancelCounts(s, t, c, Scope(owner, caller), o);
    }
  }

  lemma DrainKeeps(s: State, c: ScopeId)
    requires Inv(s) && Enabled(s, Drain(c))
    ensures Inv(Step(s, Drain(c)))
  {
    var t, owner := Step(s, Drain(c)), s.scopes[c].owner;
    forall o ensures RunningOf(t, o) == RunningOf(s, o) {}
    assert c in ScopesOf(s, owner);
    forall o | o != "" ensures Counts(t.q.blocked, o, |ScopesOf(t, o)|) {
      assert Counts(s.q.blocked, o, |ScopesOf(s, o)|);
      assert ScopesOf(t, o) == if o == owner then ScopesOf(s, o) - {c} else ScopesOf(s, o);
    }
  }

  lemma InvStep(s: State, e: Event)
    requires Inv(s) && Enabled(s, e)
    ensures Inv(Step(s, e))
  {
    if e.Start? {
      StartKeeps(s, e.w);
    } else if e.Finish? {
      FinishKeeps(s, e.w);
    } else if e.Cancel? {
      CancelKeeps(s, e.c, e.owner, e.caller);
    } else if e.Drain? {
      DrainKeeps(s, e.c);
    } else {
      var t := Step(s, e);
      forall o ensures RunningOf(t, o) == RunningOf(s, o) && ScopesOf(t, o) == ScopesOf(s, o) {}
    }
  }

  lemma {:induction false} ReachableInv(s: State, events: seq<Event>)
    requires Inv(s) && Run(s, events)
    ensures Inv(After(s, events))
    ensures forall x :: x in After(s, events).q.tasks ==> x.owner !in After(s, events).q.blocked
  {
    if events != [] {
      ReachableInv(s, Front(events));
      InvStep(After(s, Front(events)), Last(events));
    }
  }

  lemma InitInv(maxSize: nat, workers: set<WorkerId>)
    ensures Inv(Init(maxSize, workers))
  {
    var s := Init(maxSize, workers);
    forall o ensures RunningOf(s, o) == {} && ScopesOf(s, o) == {} {}
  }

  // ----- cancellation is a barrier -----

  /**
   From cancel(owner) to its own drain(owner), whatever other scopes and threads do: nothing of the owner
   is queued or admitted, none of its tasks starts, and no worker joins those already running it.
   */
  lemma {:induction false} CancelIsABarrier(s: State, c: ScopeId, events: seq<Event>)
    requires Inv(s) && c in s.scopes && s.scopes[c].owner != "" && Run(s, events) && Drain(c) !in events
    ensures var t, owner := After(s, events), s.scopes[c].owner;
      && c in t.scopes && t.scopes[c] == s.scopes[c] && owner in t.q.blocked
      && (forall x :: x in t.q.tasks ==> x.owner != owner)
      && (forall x: Task, a :: x.owner == owner ==> EmplaceSpec(t.q, x, a) == (t.q, QueueFullOrStopping))
      && RunningOf(t, owner) <= RunningOf(s, owner)
      && Count(t.q.active, owner) <= Count(s.q.active, owner)
  {
    var owner := s.scopes[c].owner;
    if events != [] {
      var front, e := Front(events), Last(events);
      assert e in events && events == front + [e];
      CancelIsABarrier(s, c, front);
      ReachableInv(s, front);
      BarrierStep(After(s, front), c, e);
    } else {
      ScopeBlocks(s, c);
    }
  }

  lemma ScopeBlocks(s: State, c: ScopeId)
    requires Inv(s) && c in s.scopes && s.scopes[c].owner != ""
    ensures s.scopes[c].owner in s.q.blocked
    ensures forall x :: x in s.q.tasks ==> x.owner != s.scopes[c].owner
  {
    var owner := s.scopes[c].owner;
    assert Counts(s.q.blocked, owner, |ScopesOf(s, owner)|) && c in ScopesOf(s, owner);
  }

  lemma BarrierStep(s: State, c: ScopeId, e: Event)
    requires Inv(s) && c in s.scopes && s.scopes[c].owner != "" && Enabled(s, e) && e != Drain(c)
    ensures var t, owner := Step(s, e), s.scopes[c].owner;
      && c in t.scopes && t.scopes[c] == s.scopes[c] && owner in t.q.blocked
      && (forall x :: x in t.q.tasks ==> x.owner != owner)
      && RunningOf(t, owner) <= RunningOf(s, owner)
      && Count(t.q.active, owner) <= Count(s.q.active, owner)
  {
    var t, owner := Step(s, e), s.scopes[c].owner;
    ScopeBlocks(s, c);
    InvStep(s, e);
    ScopeBlocks(t, c);
    assert RunningOf(t, owner) <= RunningOf(s, owner);
    assert Counts(s.q.active, owner, |RunningOf(s, owner)|) && Counts(t.q.active, owner, |RunningOf(t, owner)|);
    SubsetSize(RunningOf(t, owner), RunningOf(s, owner));
  }

  lemma SubsetSize(a: set<nat>, b: set<nat>)
    requires a <= b
    ensures |a| <= |b|
  {
    assert b == a + (b - a);
  }

  /** Drain passes its wait exactly when at most the caller's own task of that owner is still running. */
  lemma DrainLeavesOnlyTheCaller(s: State, c: ScopeId)
    requires Inv(s) && c in s.scopes && s.scopes[c].owner != ""
    ensures Enabled(s, Drain(c)) <==> forall w :: w in RunningOf(s, s.scopes[c].owner) ==> s.scopes[c].caller == Inside(w)
  {
    var scope := s.scopes[c];
    var running := RunningOf(s, scope.owner);
    assert Counts(s.q.active, scope.owner, |running|);
    if forall w :: w in running ==> scope.caller == Inside(w) {
      if w :| w in running {
        SubsetSize(running, {w});
      }
    } else {
      var w :| w in running && scope.caller != Inside(w);
      SubsetSize({w} + (if scope.caller.Inside? && scope.caller.worker in running then {scope.caller.worker} else {}), running);
    }
  }

  /** Once every scope is drained, no owner is blocked any more. */
  lemma BlocksReturnToZero(s: State)
    requires Inv(s) && s.scopes == map[]
    ensures s.q.blocked == map[]
  {
    forall o ensures o !in s.q.blocked {
      assert ScopesOf(s, o) == {};
      assert o != "" ==> Counts(s.q.blocked, o, |ScopesOf(s, o)|);
    }
  }

  // ----- what becomes of accepted tasks -----

  function AcceptedNow(s: State, e: Event): seq<Task>
  {
    if e.Emplace? && EmplaceSpec(s.q, e.task, e.admission).1 == Accepted then [e.task] else []
  }

  function StartedNow(s: State, e: Event): seq<Task>
  {
    if e.Start? && Enabled(s, e) then [s.q.tasks[0]] else []
  }

  function CancelledNow(s: State, e: Event): seq<Task>
  {
    if e.Cancel? && Enabled(s, e) && e.owner != "" then Of(s.q.tasks, e.owner) else []
  }

  function FinishedNow(s: State, e: Event): seq<Task>
  {
    if e.Finish? && Enabled(s, e) then [s.workers[e.w].task] else []
  }

  /** What one kind of observation adds up to over a run. */
  function Total(s: State, events: seq<Event>, now: (State, Event) -> seq<Task>): seq<Task>
  {
    if events == [] then [] else Total(s, Front(events), now) + now(After(s, Front(events)), Last(events))
  }

  /** Tasks of the owners that are kept, in order. */
  function Kept(ts: seq<Task>, keep: string -> bool): seq<Task>
  {
    if ts == [] then [] else (if keep(ts[0].owner) then [ts[0]] else []) + Kept(ts[1..], keep)
  }

  lemma {:induction false} KeptConcat(a: seq<Task>, b: seq<Task>, keep: string -> bool)
    ensures Kept(a + b, keep) == Kept(a, keep) + Kept(b, keep)
  {
    if a == [] {
      assert a + b == b;
    } else {
      assert (a + b)[1..] == a[1..] + b && (a + b)[0] == a[0];
      KeptConcat(a[1..], b, keep);
    }
  }

  lemma {:induction false} KeptOfNotOf(ts: seq<Task>, owner: string, keep: string -> bool)
    requires !keep(owner)
    ensures Kept(NotOf(ts, owner), keep) == Kept(ts, keep)
  {
    if ts != [] {
      KeptOfNotOf(ts[1..], owner, keep);
      if ts[0].owner != owner {
        assert NotOf(ts, owner)[1..] == NotOf(ts[1..], owner);
      } else {
        assert NotOf(ts, owner) == NotOf(ts[1..], owner);
      }
    }
  }

  lemma {:induction false} OfIsKept(ts: seq<Task>, owner: string)
    ensures Of(ts, owner) == Kept(ts, (o: string) => o == owner)
  {
    if ts != [] {
      OfIsKept(ts[1..], owner);
    }
  }

  /**
   Among all owners that nobody cancels, in any run: started tasks followed by queued ones are exactly the
   accepted ones, in one order, that of acceptance.
   */
  lemma {:induction false} UntouchedOwnersKeepOrder(s: State, events: seq<Event>, keep: string -> bool)
    requires Run(s, events) && s.q.tasks == []
    requires forall e :: e in events && e.Cancel? ==> !keep(e.owner)
    ensures Kept(Total(s, events, StartedNow), keep) + Kept(After(s, events).q.tasks, keep)
         == Kept(Total(s, events, AcceptedNow), keep)
  {
    if events != [] {
      var front, e := Front(events), Last(events);
      assert events == front + [e];
      assert forall x :: x in front ==> x in events;
      UntouchedOwnersKeepOrder(s, front, keep);
      var m := After(s, front);
      KeptConcat(Total(s, front, StartedNow), StartedNow(m, e), keep);
      KeptConcat(Total(s, front, AcceptedNow), AcceptedNow(m, e), keep);
      assert e.Cancel? ==> !keep(e.owner);
      OrderStep(m, e, keep);
      Rejoin(Kept(Total(s, front, StartedNow), keep), Kept(StartedNow(m, e), keep), Kept(Step(m, e).q.tasks, keep),
             Kept(m.q.tasks, keep), Kept(AcceptedNow(m, e), keep));
    }
  }

  /** So for one owner nobody cancels. */
  lemma UntouchedOwnerKeepsOrder(s: State, events: seq<Event>, owner: string)
    requires Run(s, events) && s.q.tasks == []
    requires forall e :: e in events && e.Cancel? ==> e.owner != owner
    ensures Of(Total(s, events, StartedNow), owner) + Of(After(s, events).q.tasks, owner)
         == Of(Total(s, events, AcceptedNow), owner)
  {
    UntouchedOwnersKeepOrder(s, events, (o: string) => o == owner);
    OfIsKept(Total(s, events, StartedNow), owner);
    OfIsKept(Total(s, events, AcceptedNow), owner);
    OfIsKept(After(s, events).q.tasks, owner);
  }

  lemma OrderStep(s: State, e: Event, keep: string -> bool)
    requires Enabled(s, e) && (e.Cancel? ==> !keep(e.owner))
    ensures Kept(StartedNow(s, e), keep) + Kept(Step(s, e).q.tasks, keep)
            == Kept(s.q.tasks, keep) + Kept(AcceptedNow(s, e), keep)
  {
    hide CancelSpec, UnblockSpec, FinishSpec;
    if e.Emplace? {
      KeptConcat(s.q.tasks, AcceptedNow(s, e), keep);
      assert s.q.tasks + [] == s.q.tasks;
    } else if e.Start? {
      KeptConcat([s.q.tasks[0]], s.q.tasks[1..], keep);
      assert s.q.tasks == [s.q.tasks[0]] + s.q.tasks[1..];
    } else {
      OtherQueueSteps(s, e);
      if e.Cancel? {
        KeptOfNotOf(s.q.tasks, e.owner, keep);
      }
    }
  }

  lemma OtherQueueSteps(s: State, e: Event)
    requires Enabled(s, e) && !e.Emplace? && !e.Start?
    ensures Step(s, e).q.tasks == if e.Cancel? && e.owner != "" then NotOf(s.q.tasks, e.owner) else s.q.tasks
  {
  }

  lemma Rejoin(started: seq<Task>, now: seq<Task>, after: seq<Task>, before: seq<Task>, added: seq<Task>)
    requires now + after == before + added
    ensures (started + now) + after == (started + before) + added
  {
    assert (started + now) + after == started + (now + after);
    assert (started + before) + added == started + (before + added);
  }

  lemma {:induction false} PartsOfQueue(ts: seq<Task>, owner: string)
    ensures multiset(ts) == multiset(Of(ts, owner)) + multiset(NotOf(ts, owner))
  {
    if ts != [] {
      PartsOfQueue(ts[1..], owner);
      assert ts == [ts[0]] + ts[1..];
    }
  }

  /** The workers running one given task. */
  function RunningTask(s: State, task: Task): set<WorkerId>
  {
    set w | w in s.workers && s.workers[w] == Running(task)
  }

  lemma RunningTaskMove(s: State, t: State, w: WorkerId, task: Task)
    requires w in s.workers && w in t.workers && t.workers == s.workers[w := t.workers[w]]
    ensures RunningTask(t, task) == if t.workers[w] == Running(task) then RunningTask(s, task) + {w} else RunningTask(s, task) - {w}
  {
  }

  lemma ConservationStart(s: State, w: WorkerId, task: Task)
    requires Enabled(s, Start(w))
    ensures multiset(s.q.tasks)[task] + |RunningTask(s, task)|
         == multiset(s.q.tasks[1..])[task] + |RunningTask(Step(s, Start(w)), task)|
  {
    RunningTaskMove(s, Step(s, Start(w)), w, task);
    assert s.q.tasks == [s.q.tasks[0]] + s.q.tasks[1..];
  }

  lemma ConservationFinish(s: State, e: Event, task: Task)
    requires Enabled(s, e) && (e.Finish? || e.Exit?)
    ensures |RunningTask(s, task)| == |RunningTask(Step(s, e), task)| + multiset(FinishedNow(s, e))[task]
  {
    RunningTaskMove(s, Step(s, e), e.w, task);
  }

  lemma ConservationCancel(s: State, e: Event, task: Task)
    requires Enabled(s, e) && e.Cancel?
    ensures multiset(s.q.tasks)[task] + multiset(AcceptedNow(s, e))[task]
         == multiset(Step(s, e).q.tasks)[task] + multiset(CancelledNow(s, e))[task]
  {
    PartsOfQueue(s.q.tasks, e.owner);
  }

  lemma ConservationEmplace(s: State, e: Event, task: Task)
    requires Enabled(s, e) && e.Emplace?
    ensures multiset(s.q.tasks)[task] + multiset(AcceptedNow(s, e))[task]
         == multiset(Step(s, e).q.tasks)[task] + multiset(CancelledNow(s, e))[task]
  {
    OneMore(s.q.tasks, AcceptedNow(s, e), task);
  }

  lemma ConservationQueue(s: State, e: Event, task: Task)
    requires Enabled(s, e) && !e.Start? && !e.Finish? && !e.Exit?
    ensures RunningTask(Step(s, e), task) == RunningTask(s, task)
    ensures multiset(s.q.tasks)[task] + multiset(AcceptedNow(s, e))[task]
         == multiset(Step(s, e).q.tasks)[task] + multiset(CancelledNow(s, e))[task]
  {
    assert Step(s, e).workers == s.workers;
    if e.Cancel? {
      ConservationCancel(s, e, task);
    } else if e.Emplace? {
      ConservationEmplace(s, e, task);
    }
  }

  lemma ConservationStep(s: State, e: Event, task: Task)
    requires Enabled(s, e)
    ensures multiset(s.q.tasks)[task] + |RunningTask(s, task)| + multiset(AcceptedNow(s, e))[task]
         == multiset(Step(s, e).q.tasks)[task] + |RunningTask(Step(s, e), task)|
            + multiset(CancelledNow(s, e))[task] + multiset(FinishedNow(s, e))[task]
  {
    if e.Start? {
      ConservationStart(s, e.w, task);
      assert AcceptedNow(s, e) == CancelledNow(s, e) == FinishedNow(s, e) == [];
    } else if e.Finish? || e.Exit? {
      ConservationFinish(s, e, task);
    } else {
      ConservationQueue(s, e, task);
    }
  }

  /** Every accepted task is queued, running, cancelled or finished: exactly one of them, once. */
  lemma {:induction false} EveryTaskIsAccountedFor(s: State, events: seq<Event>, task: Task)
    requires Run(s, events) && s.q.tasks == [] && forall w :: w in s.workers ==> !s.workers[w].Running?
    ensures multiset(Total(s, events, AcceptedNow))[task]
         == multiset(After(s, events).q.tasks)[task] + |RunningTask(After(s, events), task)|
            + multiset(Total(s, events, CancelledNow))[task] + multiset(Total(s, events, FinishedNow))[task]
  {
    if events == [] {
      assert RunningTask(s, task) == {};
    } else {
      var front, m, e := Front(events), After(s, Front(events)), Last(events);
      EveryTaskIsAccountedFor(s, front, task);
      ConservationStep(m, e, task);
      OneMore(Total(s, front, AcceptedNow), AcceptedNow(m, e), task);
      OneMore(Total(s, front, CancelledNow), CancelledNow(m, e), task);
      OneMore(Total(s, front, FinishedNow), FinishedNow(m, e), task);
    }
  }

  lemma OneMore(a: seq<Task>, b: seq<Task>, task: Task)
    ensures multiset(a + b)[task] == multiset(a)[task] + multiset(b)[task]
  {
  }

  // ----- when a task is accepted -----

  /** The executor is stopping exactly if it was before or a Stop is among the events; its size never changes. */
  lemma {:induction false} StoppingIsAStop(s: State, events: seq<Event>)
    requires Run(s, events)
    ensures After(s, events).q.stopping <==> s.q.stopping || Stop in events
    ensures After(s, events).q.maxSize == s.q.maxSize
  {
    if events != [] {
      StoppingIsAStop(s, Front(events));
      assert events == Front(events) + [Last(events)];
    }
  }

  /** Some cancellation of the owner has not been drained; the empty owner's are none. */
  predicate Closed(s: State, owner: string)
  {
    owner != "" && ScopesOf(s, owner) != {}
  }

  /**
   After every run of a new executor a task is accepted exactly if no Stop has happened, its owner has no
   open cancellation, fewer tasks are queued than the executor may hold, and admission does not refuse;
   admission is what turned it down exactly if it refuses and all else is fulfilled. An accepted task is
   queued last, and one that is turned down changes nothing.
   */
  lemma AcceptedIff(maxSize: nat, workers: set<WorkerId>, events: seq<Event>, task: Task, admission: Admission)
    requires Run(Init(maxSize, workers), events)
    ensures
      var t := After(Init(maxSize, workers), events);
      var (q, result) := EmplaceSpec(t.q, task, admission);
      var open := Stop !in events && !Closed(t, task.owner) && |t.q.tasks| < maxSize;
      && (result == Accepted <==> open && admission != Asks(false))
      && (result == Rejected <==> open && admission == Asks(false))
      && q == (if result == Accepted then t.q.(tasks := t.q.tasks + [task]) else t.q)
  {
    var s := Init(maxSize, workers);
    InitInv(maxSize, workers);
    ReachableInv(s, events);
    StoppingIsAStop(s, events);
    BlockedIsClosed(After(s, events), task.owner);
  }

  lemma BlockedIsClosed(s: State, owner: string)
    requires Inv(s)
    ensures owner in s.q.blocked <==> Closed(s, owner)
  {
    if owner != "" {
      assert Counts(s.q.blocked, owner, |ScopesOf(s, owner)|);
      if ScopesOf(s, owner) != {} {
        var c :| c in ScopesOf(s, owner);
        SubsetSize({c}, ScopesOf(s, owner));
      }
    }
  }

  /** After a Stop nothing is accepted any more, whatever happens. */
  lemma {:induction false} NothingIsAcceptedAfterStop(s: State, events: seq<Event>)
    requires Run(s, events) && s.q.stopping
    ensures After(s, events).q.stopping && Total(s, events, AcceptedNow) == []
  {
    if events != [] {
      NothingIsAcceptedAfterStop(s, Front(events));
    }
  }

  /** Workers leave only an executor that is stopping and has nothing queued. */
  ghost predicate Deserted(s: State)
  {
    (exists w :: w in s.workers && s.workers[w].Exited?) ==> s.q.stopping && s.q.tasks == []
  }

  /** Over every run, once a worker has exited the queue is empty and stays so, so no task is left behind. */
  lemma {:induction false} NothingIsLeftBehind(s: State, events: seq<Event>)
    requires Run(s, events) && Deserted(s)
    ensures Deserted(After(s, events))
  {
    if events != [] {
      NothingIsLeftBehind(s, Front(events));
      DesertedStep(After(s, Front(events)), Last(events));
    }
  }

  lemma DesertedStep(s: State, e: Event)
    requires Enabled(s, e) && Deserted(s)
    ensures Deserted(Step(s, e))
  {
    var t := Step(s, e);
    if w :| w in t.workers && t.workers[w].Exited? {
      assert w in s.workers && (s.workers[w].Exited? || e == Exit(w));
      if e.Cancel? {
        assert NotOf([], e.owner) == [];
      }
    }
  }

  /** So when all workers have exited, every task ever accepted was finished or cancelled. */
  lemma AllIsDoneAtTheEnd(maxSize: nat, workers: set<WorkerId>, events: seq<Event>, task: Task)
    requires Run(Init(maxSize, workers), events) && workers != {}
    requires forall w :: w in After(Init(maxSize, workers), events).workers ==>
               After(Init(maxSize, workers), events).workers[w].Exited?
    ensures
      var s := Init(maxSize, workers);
      multiset(Total(s, events, AcceptedNow))[task]
      == multiset(Total(s, events, CancelledNow))[task] + multiset(Total(s, events, FinishedNow))[task]
  {
    var s := Init(maxSize, workers);
    var t := After(s, events);
    EveryTaskIsAccountedFor(s, events, task);
    NothingIsLeftBehind(s, events);
    WorkersStay(s, events);
    var w :| w in workers;
    assert w in t.workers && t.workers[w].Exited?;
    assert RunningTask(t, task) == {};
  }

  lemma {:induction false} WorkersStay(s: State, events: seq<Event>)
    requires Run(s, events)
    ensures After(s, events).workers.Keys == s.workers.Keys
  {
    if events != [] {
      WorkersStay(s, Front(events));
    }
  }
}
