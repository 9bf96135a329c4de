/**
 Unload and transactional reload of one command module, against everything that may
 run its code meanwhile: command deliveries, queued and running command closures,
 scheduled work, and any-message callbacks.  Generations are numbered, one module object each; an
 image is open while its generation is in `loaded`, and the object is gone once it is in `destroyed`.
 */
module ModuleLifecycle {
  import opened Sequences

  type Gen = nat
  type ThreadId = nat

  /** What a thread wants an execution lease for. */
  datatype Use =
    | Command                // a delivery or an internal invoke: enqueues a command closure
    | Work                   // submitWork: hands a closure to the scheduler
    | Callback(code: Gen)    // a dispatcher worker about to run a stored callback

  /**
   A thread inside acquireExecutionLease, or holding what it returned. A delivery goes there by its
   pointer alone; everybody else goes through the handle table and holds the manager's mutex meanwhile.
   */
  datatype Thread =
    | Free
    | Picked(code: Gen)            // took a stored callback from the dispatcher
    | Called(mod: Gen)             // in the listener, which has a bare pointer to its module
    | Probing(mod: Gen, use: Use, mutexed: bool)  // saw the module accept executions
    | Locked(mod: Gen, use: Use, mutexed: bool)   // holds the shared lock, has not looked again
    | Leased(mod: Gen, use: Use)

  datatype Listener = NoListener | Installed(mod: Gen)

  /** The next statement of the one lifecycle operation under way. */
  datatype Pc =
    | Idle
    // unloadDirect
    | UStopped(g: Gen) | UUnlistened(g: Gen) | UCancelled(g: Gen) | UWorkDrained(g: Gen) | UBarred(g: Gen)
    | UDrained(g: Gen) | UUnstored(g: Gen)
    // reloadDirect, up to the registration of the replacement
    | RPrepared(prev: Gen, next: Gen) | RNewStopped(prev: Gen, next: Gen) | RBothStopped(prev: Gen, next: Gen)
    | RUnlistened(prev: Gen, next: Gen) | RCancelled(prev: Gen, next: Gen) | RSwapped(prev: Gen, next: Gen)
    // registration failed: restore the previous generation
    | FFailed(prev: Gen, next: Gen) | FRestored(prev: Gen, next: Gen) | FBarred(prev: Gen, next: Gen)
    | FDrained(prev: Gen, next: Gen) | FEnabled(prev: Gen, next: Gen) | FClosed(prev: Gen, next: Gen)
    // registration succeeded: retire the previous generation
    | SLoaded(prev: Gen, next: Gen) | SWorkDrained(prev: Gen, next: Gen) | SBarred(prev: Gen, next: Gen)
    | SDrained(prev: Gen, next: Gen) | SUnstored(prev: Gen, next: Gen) | SClosed(prev: Gen, next: Gen)
    | SEnabled(prev: Gen, next: Gen)

  datatype State = State(
    threads: map<ThreadId, Thread>,
    queued: multiset<Gen>,      // command closures of this owner, by generation
    running: multiset<Gen>,
    works: multiset<Gen>,       // scheduler work of this owner
    stored: set<Gen>,           // generations with callbacks stored in the dispatcher or in listeners
    blocked: nat,               // the executor's block count of this owner
    handle: Gen,
    listener: Listener,
    accepting: set<Gen>,
    loaded: set<Gen>,
    destroyed: set<Gen>,        // generations whose module object is gone
    nextGen: Gen,
    pc: Pc)

  datatype Event =
    | Deliver(t: ThreadId)              // the installed listener is called
    | Look(t: ThreadId)                 // and looks at its module's flag
    | Ask(t: ThreadId, use: Use)        // invoke, submitWork: through the handle table
    | PickCallback(t: ThreadId, code: Gen)
    | AskForCallback(t: ThreadId)
    | LockShared(t: ThreadId)
    | LookAgain(t: ThreadId)
    | Submit(t: ThreadId, admitted: bool)
    | Return(t: ThreadId)
    | StartTask(g: Gen) | FinishTask(g: Gen) | FinishWork(g: Gen)
    | Store(g: Gen)                     // running code of g registers a callback
    | LoadAgain(ok: bool)               // load(name) of an unloaded module
    | BeginUnload
    | BeginReload(ok: bool)
    | Advance(ok: bool)                 // the operation's next statement; ok is its outcome where it has one

  /** Code of this generation is running somewhere. */
  predicate Executing(s: State, g: Gen)
  {
    g in s.running || g in s.works || exists t :: t in s.threads && s.threads[t] == Leased(g, Callback(g))
  }

  /** Somebody holds the shared execution lock of this generation. */
  predicate Held(s: State, g: Gen)
  {
    || g in s.queued || g in s.running || g in s.works
    || exists t :: t in s.threads && (s.threads[t].Locked? || s.threads[t].Leased?) && s.threads[t].mod == g
  }

  /** The thread is a dispatcher worker on its way through a stored callback. */
  predicate InDispatcher(p: Thread)
  {
    p.Picked? || ((p.Probing? || p.Locked? || p.Leased?) && p.use.Callback?)
  }

  /**
   What the removal of stored callbacks waits for.  A removal alone can miss a worker that still leases
   an entry which another worker has erased; DispatcherLeases shows that such a worker returned normally
   from the callback, so it still holds the module's execution lease.  Where this is waited for, the
   execution barrier has been passed, so no such worker is left, and the removal finds all others.
   */
  predicate DispatcherIdle(s: State)
  {
    forall t :: t in s.threads ==> !InDispatcher(s.threads[t])
  }

  /** acquireExecutionLease's first look at the flag. */
  function Probe(s: State, t: ThreadId, mod: Gen, use: Use, mutexed: bool): State
  {
    s.(threads := s.threads[t := if mod in s.accepting then Probing(mod, use, mutexed) else Free])
  }

  /** The thread is between the two looks of acquireExecutionLease under the manager's mutex. */
  predicate HoldsMutex(p: Thread)
  {
    (p.Probing? || p.Locked?) && p.mutexed
  }

  predicate MutexFree(s: State)
  {
    forall t :: t in s.threads ==> !HoldsMutex(s.threads[t])
  }

  predicate Enabled(s: State, e: Event)
  {
    match e
    case Deliver(t) => t in s.threads && s.threads[t].Free? && s.listener.Installed?
    case Look(t) => t in s.threads && s.threads[t].Called?
    case Ask(t, use) => t in s.threads && s.threads[t].Free? && !use.Callback? && MutexFree(s)
    case PickCallback(t, code) => t in s.threads && s.threads[t].Free? && code in s.stored
    case AskForCallback(t) => t in s.threads && s.threads[t].Picked? && MutexFree(s)
    case LockShared(t) => t in s.threads && s.threads[t].Probing?
    case LookAgain(t) => t in s.threads && s.threads[t].Locked?
    case Submit(t, _) => t in s.threads && s.threads[t].Leased? && !s.threads[t].use.Callback?
    case Return(t) => t in s.threads && s.threads[t].Leased?
    case StartTask(g) => g in s.queued
    case FinishTask(g) => g in s.running
    case FinishWork(g) => g in s.works
    case Store(g) => Executing(s, g)
    case LoadAgain(_) => s.pc.Idle? && MutexFree(s)
    case BeginUnload => s.pc.Idle? && MutexFree(s)
    case BeginReload(_) => s.pc.Idle? && s.handle in s.loaded && MutexFree(s)
    case Advance(_) => CanAdvance(s)
  }

  /**
   Barriers wait for every shared lock of their generation, drains for running tasks, removal for
   dispatcher workers, and whatever touches the handle table for the mutex. An image that is closed
   already is not waited for again: the destructor of its module object then takes no lock.
   */
  predicate CanAdvance(s: State)
  {
    match s.pc
    case Idle => false
    case UWorkDrained(g) => !Held(s, g)
    case UBarred(_) => s.running == multiset{}
    case UDrained(_) => DispatcherIdle(s)
    case UUnstored(g) => g in s.loaded ==> !Held(s, g)
    case RCancelled(_, _) => MutexFree(s)
    case RSwapped(_, _) => MutexFree(s)
    case FFailed(_, _) => MutexFree(s)
    case FRestored(prev, _) => !Held(s, prev)
    case FBarred(_, _) => s.running == multiset{}
    case FDrained(_, _) => MutexFree(s)
    case FEnabled(_, next) => !Held(s, next)
    case FClosed(_, _) => MutexFree(s)
    case SWorkDrained(prev, _) => !Held(s, prev)
    case SBarred(_, _) => s.running == multiset{}
    case SDrained(_, _) => DispatcherIdle(s)
    case SUnstored(prev, _) => !Held(s, prev)
    case SClosed(_, _) => MutexFree(s)
    case SEnabled(prev, _) => prev in s.loaded ==> !Held(s, prev)
    case _ => true
  }

  // what the statements of an operation do

  function Stop(s: State, g: Gen): State { s.(accepting := s.accepting - {g}) }

  function Enable(s: State, g: Gen): State { s.(accepting := s.accepting + {g}) }

  /** commandAsync.cancel: no admission from now on, queued closures destroyed. */
  function Cancel(s: State): State { s.(blocked := s.blocked + 1, queued := multiset{}) }

  /** commandAsync.drain, once its wait is over. */
  function Unblock(s: State): State { s.(blocked := if s.blocked == 0 then 0 else s.blocked - 1) }

  /** module->unload() closes the image, or fails and leaves it open. */
  function Close(s: State, g: Gen, ok: bool): State
  {
    Stop(s, g).(loaded := if ok then s.loaded - {g} else s.loaded)
  }

  /** The module object of a generation is destroyed. */
  function Destroy(s: State, g: Gen): State { s.(destroyed := s.destroyed + {g}) }

  function AdvanceState(s: State, ok: bool): State
  {
    match s.pc
    case Idle => s
    case UStopped(g) => s.(listener := NoListener, pc := UUnlistened(g))
    case UUnlistened(g) => Cancel(s).(pc := UCancelled(g))
    case UCancelled(g) => s.(pc := UWorkDrained(g))
    case UWorkDrained(g) => Stop(s, g).(pc := UBarred(g))
    case UBarred(g) => Unblock(s).(pc := UDrained(g))
    case UDrained(g) => s.(stored := {}, pc := UUnstored(g))
    case UUnstored(g) => Close(s, g, ok).(pc := Idle)
    case RPrepared(prev, next) => Stop(s, next).(pc := RNewStopped(prev, next))
    case RNewStopped(prev, next) => Stop(s, prev).(pc := RBothStopped(prev, next))
    case RBothStopped(prev, next) => s.(listener := NoListener, pc := RUnlistened(prev, next))
    case RUnlistened(prev, next) => Cancel(s).(pc := RCancelled(prev, next))
    case RCancelled(prev, next) => s.(handle := next, pc := RSwapped(prev, next))
    case RSwapped(prev, next) =>
      if ok then s.(listener := Installed(next), pc := SLoaded(prev, next)) else s.(pc := FFailed(prev, next))
    case FFailed(prev, next) => s.(handle := prev, pc := FRestored(prev, next))
    case FRestored(prev, next) => Stop(s, prev).(pc := FBarred(prev, next))
    case FBarred(prev, next) => Unblock(s).(pc := FDrained(prev, next))
    case FDrained(prev, next) => Enable(s, prev).(pc := FEnabled(prev, next))
    case FEnabled(prev, next) => Close(s, next, true).(pc := FClosed(prev, next))
    case FClosed(prev, next) => Destroy(s, next).(listener := if ok then Installed(prev) else s.listener, pc := Idle)
    case SLoaded(prev, next) => s.(pc := SWorkDrained(prev, next))
    case SWorkDrained(prev, next) => Stop(s, prev).(pc := SBarred(prev, next))
    case SBarred(prev, next) => Unblock(s).(pc := SDrained(prev, next))
    case SDrained(prev, next) => s.(stored := {}, pc := SUnstored(prev, next))
    case SUnstored(prev, next) => Close(s, prev, ok).(pc := SClosed(prev, next))
    case SClosed(prev, next) => Enable(s, next).(pc := SEnabled(prev, next))
    case SEnabled(prev, next) => Destroy(Close(s, prev, true), prev).(pc := Idle)
  }

  function SubmitState(s: State, t: ThreadId, admitted: bool): State
    requires t in s.threads && s.threads[t].Leased?
  {
    var p := s.threads[t];
    var freed := s.(threads := s.threads[t := Free]);
    if p.use.Command? then
      if admitted && s.blocked == 0 then freed.(queued := s.queued + multiset{p.mod}) else freed
    else if admitted then freed.(works := s.works + multiset{p.mod}) else freed
  }

  function BeginReloadState(s: State, ok: bool): State
  {
    var next := s.nextGen;
    if !ok then s.(nextGen := next + 1)
    else Enable(s, next).(loaded := s.loaded + {next}, nextGen := next + 1, pc := RPrepared(s.handle, next))
  }

  function LoadAgainState(s: State, ok: bool): State
  {
    if s.handle in s.loaded then s.(listener := Installed(s.handle))
    else if ok then Enable(s, s.handle).(loaded := s.loaded + {s.handle}, listener := Installed(s.handle))
    else s
  }

  function Step(s: State, e: Event): State
    requires Enabled(s, e)
  {
    match e
    case Deliver(t) => s.(threads := s.threads[t := Called(s.listener.mod)])
    case Look(t) => Probe(s, t, s.threads[t].mod, Command, false)
    case Ask(t, use) => if s.handle in s.loaded then Probe(s, t, s.handle, use, true) else s
    case PickCallback(t, code) => s.(threads := s.threads[t := Picked(code)])
    case AskForCallback(t) => Probe(s, t, s.handle, Callback(s.threads[t].code), true)
    case LockShared(t) =>
      var p := s.threads[t];
      s.(threads := s.threads[t := Locked(p.mod, p.use, p.mutexed)])
    case LookAgain(t) =>
      var p := s.threads[t];
      s.(threads := s.threads[t := if p.mod in s.accepting then Leased(p.mod, p.use) else Free])
    case Submit(t, admitted) => SubmitState(s, t, admitted)
    case Return(t) => s.(threads := s.threads[t := Free])
    case StartTask(g) => s.(queued := s.queued - multiset{g}, running := s.running + multiset{g})
    case FinishTask(g) => s.(running := s.running - multiset{g})
    case FinishWork(g) => s.(works := s.works - multiset{g})
    case Store(g) => s.(stored := s.stored + {g})
    case LoadAgain(ok) => LoadAgainState(s, ok)
    case BeginUnload => Stop(s, s.handle).(pc := UStopped(s.handle))
    case BeginReload(ok) => BeginReloadState(s, ok)
    case Advance(ok) => AdvanceState(s, ok)
  }

  // ----- where an operation stands -----

  predicate Reloading(pc: Pc)
  {
    !pc.Idle? && !Unloading(pc)
  }

  predicate Unloading(pc: Pc)
  {
    pc.UStopped? || pc.UUnlistened? || pc.UCancelled? || pc.UWorkDrained? || pc.UBarred? || pc.UDrained? || pc.UUnstored?
  }

  /** The replacement sits in the handle table. */
  predicate Swapped(pc: Pc)
  {
    pc.RSwapped? || pc.FFailed? || pc.SLoaded? || pc.SWorkDrained? || pc.SBarred? || pc.SDrained? || pc.SUnstored?
    || pc.SClosed? || pc.SEnabled?
  }

  /** Between cancel(owner) and its drain(owner). */
  predicate Blocking(pc: Pc)
  {
    pc.UCancelled? || pc.UWorkDrained? || pc.UBarred?
    || pc.RCancelled? || pc.RSwapped? || pc.FFailed? || pc.FRestored? || pc.FBarred?
    || pc.SLoaded? || pc.SWorkDrained? || pc.SBarred?
  }

  /** After the execution barrier and before executions are enabled again. */
  predicate Fencing(pc: Pc)
  {
    pc.UBarred? || pc.UDrained? || pc.UUnstored? || pc.FBarred? || pc.FDrained?
    || pc.SBarred? || pc.SDrained? || pc.SUnstored? || pc.SClosed?
  }

  /** After the stored callbacks of the owner were destroyed. */
  predicate Unstored(pc: Pc)
  {
    pc.UUnstored? || pc.SUnstored? || pc.SClosed?
  }

  predicate Unlistened(pc: Pc)
  {
    pc.UUnlistened? || pc.UCancelled? || pc.UWorkDrained? || pc.UBarred? || pc.UDrained? || pc.UUnstored?
    || pc.RUnlistened? || pc.RCancelled? || pc.RSwapped?
    || pc.FFailed? || pc.FRestored? || pc.FBarred? || pc.FDrained? || pc.FEnabled? || pc.FClosed?
  }

  /** The replacement's listener is in place. */
  predicate Registered(pc: Pc)
  {
    pc.SLoaded? || pc.SWorkDrained? || pc.SBarred? || pc.SDrained? || pc.SUnstored? || pc.SClosed? || pc.SEnabled?
  }

  /** The one generation whose code may be running or stored. */
  function Cur(s: State): Gen
  {
    if Reloading(s.pc) && !s.pc.SEnabled? then s.pc.prev else s.handle
  }

  /** The replacement before anything can reach it. */
  function CandidateOf(s: State): set<Gen>
  {
    if Reloading(s.pc) && !s.pc.SEnabled? then {s.pc.next} else {}
  }

  // ----- the invariant -----

  /** Between the two looks: under the mutex the module is that of the table, else this is a delivery. */
  ghost predicate InsideOk(s: State, mod: Gen, use: Use, mutexed: bool)
  {
    && mod < s.nextGen && mod !in CandidateOf(s) && (use.Callback? ==> use.code == mod == Cur(s))
    && (if mutexed then mod == s.handle else use == Command)
  }

  ghost predicate ThreadOk(s: State, p: Thread)
  {
    match p
    case Free => true
    case Picked(code) => code == Cur(s)
    case Called(mod) => mod < s.nextGen && (mod in CandidateOf(s) ==> Registered(s.pc))
    case Probing(mod, use, mutexed) => InsideOk(s, mod, use, mutexed)
    case Locked(mod, use, mutexed) => InsideOk(s, mod, use, mutexed)
    case Leased(mod, use) => mod == Cur(s) && (use.Callback? ==> use.code == mod)
  }

  ghost predicate Threads(s: State)
  {
    forall t :: t in s.threads ==> ThreadOk(s, s.threads[t])
  }

  /** Closures, work and stored callbacks are all of the current generation. */
  ghost predicate Closures(s: State)
  {
    && (forall g :: g in s.queued || g in s.running || g in s.works ==> g == Cur(s))
    && s.stored <= {Cur(s)}
  }

  ghost predicate Fenced(s: State)
  {
    && s.queued == s.running == s.works == multiset{}
    && forall t :: t in s.threads ==> !s.threads[t].Leased?
  }

  ghost predicate Barriers(s: State)
  {
    && (Fencing(s.pc) ==> Fenced(s))
    && (Unstored(s.pc) ==> s.stored == {} && DispatcherIdle(s))
    && s.blocked == (if Blocking(s.pc) then 1 else 0)
    && (s.blocked > 0 ==> s.queued == multiset{})
  }

  /** Who accepts executions at each point. */
  ghost predicate Flags(s: State)
  {
    match s.pc
    case Idle => s.accepting <= {s.handle}
    case RPrepared(prev, next) => s.accepting <= {prev, next} && next in s.accepting
    case RNewStopped(prev, _) => s.accepting <= {prev}
    case FEnabled(prev, _) => s.accepting == {prev}
    case FClosed(prev, _) => s.accepting == {prev}
    case SEnabled(_, next) => s.accepting == {next}
    case _ => s.accepting == {}
  }

  ghost predicate Shape(s: State)
  {
    && s.handle < s.nextGen
    && (Unloading(s.pc) ==> s.pc.g == s.handle)
    && (Reloading(s.pc) ==> ReloadShape(s))
  }

  ghost predicate ReloadShape(s: State)
    requires Reloading(s.pc)
  {
    && s.pc.prev != s.pc.next && s.pc.prev < s.nextGen && s.pc.next < s.nextGen
    && s.handle == (if Swapped(s.pc) then s.pc.next else s.pc.prev)
    && (s.pc.next in s.loaded <==> !s.pc.FClosed?)
  }

  /** A delivery is never pointed at anything but the handle in the table. */
  ghost predicate Listening(s: State)
  {
    && (s.listener.Installed? ==> s.listener.mod == s.handle)
    && (Unlistened(s.pc) ==> s.listener.NoListener?)
    && (Registered(s.pc) ==> s.listener == Installed(s.handle))
  }

  /** A closed image is out of everybody's hands and stays so until it is opened again. */
  ghost predicate Images(s: State)
  {
    && s.accepting <= s.loaded
    && (Cur(s) !in s.loaded ==>
          && (s.pc.Idle? || Unloading(s.pc) || s.pc.SClosed?)
          && Fenced(s) && s.stored == {} && DispatcherIdle(s))
    && (forall g :: g in s.loaded ==> g < s.nextGen)
  }

  /** A destroyed module object is out of the table, and of the pair under way. */
  ghost predicate Destroyed(s: State)
  {
    forall g :: g in s.destroyed ==>
      g < s.nextGen && g !in s.loaded && g != s.handle && (Reloading(s.pc) ==> g != s.pc.prev && g != s.pc.next)
  }

  ghost predicate Inv(s: State)
  {
    Threads(s) && Closures(s) && Barriers(s) && Flags(s) && Shape(s) && Listening(s) && Images(s)
    && Destroyed(s)
  }

  function Init(threads: set<ThreadId>): State
  {
    State(map t | t in threads :: Free, multiset{}, multiset{}, multiset{}, {}, 0, 0, Installed(0), {0}, {0}, {}, 1, Idle)
  }

  lemma InitInv(threads: set<ThreadId>)
    ensures Inv(Init(threads))
  {
  }

  // ----- the operation's own statements keep it -----

  lemma AdvanceFrame(s: State, ok: bool)
    requires Shape(s) && CanAdvance(s)
    ensures var t := AdvanceState(s, ok);
      && t.threads == s.threads && t.running == s.running && t.works == s.works && t.nextGen == s.nextGen
      && (t.queued == s.queued || t.queued == multiset{}) && (t.stored == s.stored || t.stored == {})
      && CandidateOf(t) <= CandidateOf(s)
      && (if s.pc.SClosed? then Cur(t) == s.pc.next else Cur(t) == Cur(s))
  {
    AdvanceIdentity(s, ok);
  }

  /** No statement but the last enabling changes which generation may be running. */
  lemma AdvanceIdentity(s: State, ok: bool)
    requires Shape(s) && CanAdvance(s)
    ensures CandidateOf(AdvanceState(s, ok)) <= CandidateOf(s)
    ensures Cur(AdvanceState(s, ok)) == if s.pc.SClosed? then s.pc.next else Cur(s)
  {
  }

  lemma AdvanceWaits(s: State, ok: bool)
    requires Shape(s) && CanAdvance(s)
    ensures var t := AdvanceState(s, ok);
      && (Unstored(t.pc) && !Unstored(s.pc) ==> t.stored == {} && DispatcherIdle(s))
      && (Fencing(t.pc) && !Fencing(s.pc) ==> !Held(s, Cur(s)))
  {
  }

  lemma UnheldIsFenced(s: State)
    requires Threads(s) && Closures(s) && !Held(s, Cur(s))
    ensures Fenced(s)
  {
    forall t | t in s.threads ensures !s.threads[t].Leased? {
      assert ThreadOk(s, s.threads[t]);
    }
    assert forall g :: g !in s.queued && g !in s.running && g !in s.works;
  }

  lemma AdvanceThreads(s: State, ok: bool)
    requires Threads(s) && Shape(s) && Barriers(s) && CanAdvance(s)
    ensures Threads(AdvanceState(s, ok))
  {
    AdvanceFrame(s, ok);
    var t := AdvanceState(s, ok);
    forall x | x in t.threads ensures ThreadOk(t, t.threads[x]) {
      assert ThreadOk(s, s.threads[x]);
      assert s.pc.SClosed? ==> !InDispatcher(s.threads[x]) && !s.threads[x].Leased?;
    }
  }

  lemma AdvanceClosures(s: State, ok: bool)
    requires Closures(s) && Shape(s) && Barriers(s) && CanAdvance(s)
    ensures Closures(AdvanceState(s, ok))
  {
    AdvanceFrame(s, ok);
  }

  lemma AdvanceBlocked(s: State, ok: bool)
    requires s.blocked == (if Blocking(s.pc) then 1 else 0) && (s.blocked > 0 ==> s.queued == multiset{}) && CanAdvance(s)
    ensures var t := AdvanceState(s, ok);
      t.blocked == (if Blocking(t.pc) then 1 else 0) && (t.blocked > 0 ==> t.queued == multiset{})
  {
  }

  lemma AdvanceBarriers(s: State, ok: bool)
    requires Threads(s) && Closures(s) && Shape(s) && Barriers(s) && CanAdvance(s)
    ensures Barriers(AdvanceState(s, ok))
  {
    var t := AdvanceState(s, ok);
    AdvanceFrame(s, ok);
    AdvanceWaits(s, ok);
    AdvanceBlocked(s, ok);
    if Fencing(t.pc) && !Fencing(s.pc) { UnheldIsFenced(s); }
    assert Unstored(t.pc) && Unstored(s.pc) ==> t.stored == {} && DispatcherIdle(t);
  }

  lemma AdvanceFlags(s: State, ok: bool)
    requires Flags(s) && Shape(s) && CanAdvance(s)
    ensures Flags(AdvanceState(s, ok))
  {
  }

  lemma AdvanceReloadShape(s: State, ok: bool)
    requires Reloading(s.pc) && ReloadShape(s) && CanAdvance(s)
    ensures var t := AdvanceState(s, ok); t.handle < t.nextGen && (t.pc.Idle? || (Reloading(t.pc) && ReloadShape(t)))
  {
    ReloadKeepsItsPair(s, ok);
  }

  /** A reload goes on with the same two generations, or is over. */
  lemma ReloadKeepsItsPair(s: State, ok: bool)
    requires Reloading(s.pc) && CanAdvance(s)
    ensures var t := AdvanceState(s, ok);
      t.pc.Idle? || (Reloading(t.pc) && t.pc.prev == s.pc.prev && t.pc.next == s.pc.next)
    ensures AdvanceState(s, ok).nextGen == s.nextGen
  {
  }

  lemma AdvanceShape(s: State, ok: bool)
    requires Shape(s) && CanAdvance(s)
    ensures Shape(AdvanceState(s, ok))
  {
    if Reloading(s.pc) { AdvanceReloadShape(s, ok); }
  }

  lemma AdvanceListening(s: State, ok: bool)
    requires Shape(s) && Listening(s) && CanAdvance(s)
    ensures Listening(AdvanceState(s, ok))
  {
  }

  lemma AdvanceImages(s: State, ok: bool)
    requires Images(s) && Flags(s) && Shape(s) && Barriers(s) && CanAdvance(s)
    ensures Images(AdvanceState(s, ok))
  {
    AdvanceFrame(s, ok);
  }

  lemma AdvanceDestroyed(s: State, ok: bool)
    requires Destroyed(s) && Images(s) && Shape(s) && CanAdvance(s)
    ensures Destroyed(AdvanceState(s, ok))
  {
  }

  lemma AdvanceKeeps(s: State, ok: bool)
    requires Inv(s) && CanAdvance(s)
    ensures Inv(AdvanceState(s, ok))
  {
    AdvanceThreads(s, ok);
    AdvanceClosures(s, ok);
    AdvanceBarriers(s, ok);
    AdvanceFlags(s, ok);
    AdvanceShape(s, ok);
    AdvanceListening(s, ok);
    AdvanceImages(s, ok);
    AdvanceDestroyed(s, ok);
  }

  // ----- everything that happens meanwhile keeps it -----

  /** Whoever accepts executions is the current generation, outside every fence, unless it is the unreachable replacement. */
  lemma AcceptingIsCurrent(s: State, g: Gen)
    requires Flags(s) && Shape(s) && Images(s) && g in s.accepting && g !in CandidateOf(s)
    ensures g == Cur(s) && !Fencing(s.pc) && !Unstored(s.pc) && Cur(s) in s.loaded && g < s.nextGen
  {
  }

  /** The candidate in the handle table accepts nothing until the previous generation is gone. */
  lemma CandidateIsSilent(s: State)
    requires Flags(s) && Shape(s) && s.handle in s.accepting
    ensures s.handle !in CandidateOf(s)
  {
  }

  /** A thread moved; closures, flags and the operation are untouched. */
  lemma ThreadMoves(s: State, t: ThreadId, p: Thread)
    requires Inv(s) && t in s.threads && ThreadOk(s, p)
    requires p.Leased? ==> !Fencing(s.pc) && Cur(s) in s.loaded
    requires InDispatcher(p) && !InDispatcher(s.threads[t]) ==> !Unstored(s.pc) && Cur(s) in s.loaded
    ensures Inv(s.(threads := s.threads[t := p]))
  {
    var u := s.(threads := s.threads[t := p]);
    forall x | x in u.threads ensures ThreadOk(u, u.threads[x]) {
      assert ThreadOk(s, if x == t then p else s.threads[x]);
    }
  }

  lemma ProbeKeeps(s: State, t: ThreadId, use: Use)
    requires Inv(s) && t in s.threads && (use.Callback? ==> s.threads[t] == Picked(use.code))
    ensures Inv(Probe(s, t, s.handle, use, true))
  {
    if use.Callback? { assert ThreadOk(s, s.threads[t]); }
    if s.handle in s.accepting {
      CandidateIsSilent(s);
      AcceptingIsCurrent(s, s.handle);
      ThreadMoves(s, t, Probing(s.handle, use, true));
    } else {
      ThreadMoves(s, t, Free);
    }
  }

  lemma DeliverKeeps(s: State, t: ThreadId)
    requires Inv(s) && Enabled(s, Deliver(t))
    ensures Inv(Step(s, Deliver(t)))
  {
    ThreadMoves(s, t, Called(s.listener.mod));
  }

  /** A delivery whose module accepts executions is one to the current generation. */
  lemma LookKeeps(s: State, t: ThreadId)
    requires Inv(s) && t in s.threads && s.threads[t].Called?
    ensures Inv(Step(s, Look(t)))
  {
    var mod := s.threads[t].mod;
    assert ThreadOk(s, s.threads[t]);
    if mod in s.accepting {
      assert mod !in CandidateOf(s);
      AcceptingIsCurrent(s, mod);
      ThreadMoves(s, t, Probing(mod, Command, false));
    } else {
      ThreadMoves(s, t, Free);
    }
  }

  lemma ThreadEventKeeps(s: State, e: Event)
    requires Inv(s) && Enabled(s, e)
    requires e.Deliver? || e.Look? || e.Ask? || e.PickCallback? || e.AskForCallback? || e.LockShared? || e.LookAgain? || e.Return?
    ensures Inv(Step(s, e))
  {
    match e
    case Deliver(t) => DeliverKeeps(s, t);
    case Look(t) => LookKeeps(s, t);
    case Ask(t, use) => if s.handle in s.loaded { ProbeKeeps(s, t, use); }
    case PickCallback(t, code) => ThreadMoves(s, t, Picked(code));
    case AskForCallback(t) => ProbeKeeps(s, t, Callback(s.threads[t].code));
    case LockShared(t) =>
      assert ThreadOk(s, s.threads[t]);
      ThreadMoves(s, t, Locked(s.threads[t].mod, s.threads[t].use, s.threads[t].mutexed));
    case LookAgain(t) => LookAgainKeeps(s, t);
    case Return(t) => ThreadMoves(s, t, Free);
  }

  lemma LookAgainKeeps(s: State, t: ThreadId)
    requires Inv(s) && t in s.threads && s.threads[t].Locked?
    ensures Inv(Step(s, LookAgain(t)))
  {
    var p := s.threads[t];
    assert ThreadOk(s, p);
    if p.mod in s.accepting {
      AcceptingIsCurrent(s, p.mod);
      ThreadMoves(s, t, Leased(p.mod, p.use));
    } else {
      ThreadMoves(s, t, Free);
    }
  }

  /** Closures come and go, all of the current generation, while some lease of it is held. */
  lemma ClosuresMove(s: State, t: State)
    requires Inv(s) && t == s.(queued := t.queued, running := t.running, works := t.works, stored := t.stored)
    requires forall g :: g in t.queued || g in t.running || g in t.works || g in t.stored ==> g == Cur(s)
    requires Fenced(s) ==> Fenced(t) && t.stored <= s.stored
    requires s.blocked > 0 ==> t.queued == multiset{}
    ensures Inv(t)
  {
    forall x | x in t.threads ensures ThreadOk(t, t.threads[x]) { assert ThreadOk(s, s.threads[x]); }
    assert Unstored(s.pc) ==> Fencing(s.pc);
  }

  lemma SubmitKeeps(s: State, t: ThreadId, admitted: bool)
    requires Inv(s) && Enabled(s, Submit(t, admitted))
    ensures Inv(SubmitState(s, t, admitted))
  {
    var u := SubmitState(s, t, admitted);
    var m := s.(queued := u.queued, works := u.works);
    assert ThreadOk(s, s.threads[t]);
    assert Inv(m) by { SubmitMoves(s, t, admitted); }
    assert ThreadOk(m, Free);
    ThreadMoves(m, t, Free);
    assert u == m.(threads := m.threads[t := Free]);
  }

  lemma SubmitMoves(s: State, t: ThreadId, admitted: bool)
    requires Inv(s) && t in s.threads && s.threads[t].Leased?
    ensures var u := SubmitState(s, t, admitted); Inv(s.(queued := u.queued, works := u.works))
  {
    var u := SubmitState(s, t, admitted);
    assert ThreadOk(s, s.threads[t]);
    ClosuresMove(s, s.(queued := u.queued, works := u.works));
  }

  lemma StoreKeeps(s: State, g: Gen)
    requires Inv(s) && Executing(s, g)
    ensures Inv(s.(stored := s.stored + {g}))
  {
    if g !in s.running && g !in s.works {
      var t :| t in s.threads && s.threads[t] == Leased(g, Callback(g));
      assert ThreadOk(s, s.threads[t]);
    }
    ClosuresMove(s, s.(stored := s.stored + {g}));
  }

  lemma TaskEventKeeps(s: State, e: Event)
    requires Inv(s) && Enabled(s, e) && (e.StartTask? || e.FinishTask? || e.FinishWork?)
    ensures Inv(Step(s, e))
  {
    var t := Step(s, e);
    TaskEventMoves(s, e);
    ClosuresMove(s, t);
  }

  lemma TaskEventMoves(s: State, e: Event)
    requires Enabled(s, e) && (e.StartTask? || e.FinishTask? || e.FinishWork?)
    ensures var t := Step(s, e);
      && t == s.(queued := t.queued, running := t.running, works := t.works)
      && (forall g :: g in t.queued || g in t.running || g in t.works ==> g in s.queued || g in s.running || g in s.works)
      && (s.queued == multiset{} ==> t.queued == multiset{})
      && (s.queued == s.running == s.works == multiset{} ==> t == s)
  {
  }

  lemma BeginUnloadKeeps(s: State)
    requires Inv(s) && s.pc.Idle?
    ensures Inv(Stop(s, s.handle).(pc := UStopped(s.handle)))
  {
    var t := Stop(s, s.handle).(pc := UStopped(s.handle));
    forall x | x in t.threads ensures ThreadOk(t, t.threads[x]) { assert ThreadOk(s, s.threads[x]); }
  }

  lemma BeginReloadThreads(s: State, ok: bool)
    requires Threads(s) && s.pc.Idle?
    ensures Threads(BeginReloadState(s, ok))
  {
    var t := BeginReloadState(s, ok);
    forall x | x in t.threads ensures ThreadOk(t, t.threads[x]) { assert ThreadOk(s, s.threads[x]); }
  }

  lemma BeginReloadImages(s: State, ok: bool)
    requires Images(s) && Destroyed(s) && Shape(s) && s.pc.Idle? && s.handle in s.loaded
    ensures Images(BeginReloadState(s, ok)) && Destroyed(BeginReloadState(s, ok)) && Shape(BeginReloadState(s, ok))
  {
    assert s.nextGen !in s.loaded;
  }

  lemma BeginReloadKeeps(s: State, ok: bool)
    requires Inv(s) && s.pc.Idle? && s.handle in s.loaded
    ensures Inv(BeginReloadState(s, ok))
  {
    BeginReloadThreads(s, ok);
    BeginReloadImages(s, ok);
    hide Threads, Images, Destroyed, Shape;
  }

  lemma LoadAgainThreads(s: State, ok: bool)
    requires Threads(s) && s.pc.Idle?
    ensures Threads(LoadAgainState(s, ok))
  {
    var t := LoadAgainState(s, ok);
    forall x | x in t.threads ensures ThreadOk(t, t.threads[x]) { assert ThreadOk(s, s.threads[x]); }
  }

  lemma LoadAgainImages(s: State, ok: bool)
    requires Images(s) && Destroyed(s) && Shape(s) && s.pc.Idle?
    ensures Images(LoadAgainState(s, ok)) && Destroyed(LoadAgainState(s, ok))
  {
  }

  lemma LoadAgainKeeps(s: State, ok: bool)
    requires Inv(s) && s.pc.Idle?
    ensures Inv(LoadAgainState(s, ok))
  {
    LoadAgainThreads(s, ok);
    LoadAgainImages(s, ok);
    hide Threads, Images, Destroyed;
  }

  lemma InvStep(s: State, e: Event)
    requires Inv(s) && Enabled(s, e)
    ensures Inv(Step(s, e))
  {
    if e.Advance? {
      AdvanceKeeps(s, e.ok);
    } else if e.LoadAgain? {
      LoadAgainKeeps(s, e.ok);
    } else if e.BeginUnload? {
      BeginUnloadKeeps(s);
    } else if e.BeginReload? {
      BeginReloadKeeps(s, e.ok);
    } else if e.StartTask? || e.FinishTask? || e.FinishWork? {
      TaskEventKeeps(s, e);
    } else if e.Store? {
      StoreKeeps(s, e.g);
    } else if e.Submit? {
      SubmitKeeps(s, e.t, e.admitted);
    } else {
      ThreadEventKeeps(s, e);
    }
  }

  // ----- runs -----

  /** The state after some events; an event that is not enabled leaves it unchanged. */
  function After(s: State, events: seq<Event>): State
  {
    if events == [] then s
    else
      var t := After(s, Front(events));
      if Enabled(t, Last(events)) then Step(t, Last(events)) else t
  }

  predicate Run(s: State, events: seq<Event>)
  {
    events == [] || (Run(s, Front(events)) && Enabled(After(s, Front(events)), Last(events)))
  }

  lemma {:induction false} ReachableInv(s: State, events: seq<Event>)
    requires Inv(s) && Run(s, events)
    ensures Inv(After(s, events))
  {
    if events != [] {
      ReachableInv(s, Front(events));
      InvStep(After(s, Front(events)), Last(events));
    }
  }

  /** The run goes on by one event. */
  lemma RunOn(s: State, events: seq<Event>, e: Event)
    requires Run(s, events) && Enabled(After(s, events), e)
    ensures Run(s, events + [e]) && After(s, events + [e]) == Step(After(s, events), e)
  {
    assert Front(events + [e]) == events && Last(events + [e]) == e;
  }

  /** Something that lives in, or keeps alive, code of this generation. */
  ghost predicate InUse(s: State, g: Gen)
  {
    || g in s.queued || g in s.running || g in s.works || g in s.stored
    || exists t :: t in s.threads && UsesGeneration(s.threads[t], g)
  }

  predicate UsesGeneration(p: Thread, g: Gen)
  {
    || (p.Leased? && p.mod == g)
    || p == Picked(g)
    || ((p.Probing? || p.Locked? || p.Leased?) && p.use == Callback(g))
  }

  /**
   In every interleaving, a generation of which a lease is held, or a closure queued, running, scheduled,
   stored or about to be called, has its image open.
   */
  lemma NothingOutlivesItsImage(s: State, events: seq<Event>, g: Gen)
    requires Inv(s) && Run(s, events) && InUse(After(s, events), g)
    ensures g in After(s, events).loaded
  {
    ReachableInv(s, events);
    var t := After(s, events);
    hide Run, After;
    if x :| x in t.threads && UsesGeneration(t.threads[x], g) {
      assert ThreadOk(t, t.threads[x]);
      assert InDispatcher(t.threads[x]) || t.threads[x].Leased?;
    } else {
      assert g == Cur(t);
    }
  }

  /**
   In every interleaving: two generations accept executions exactly while a replacement has been prepared,
   neither has been stopped, and the one it is to replace was accepting; and whatever accepts and can be
   reached through the handle table or the listener is the current generation.
   */
  lemma OneGenerationAccepts(s: State, events: seq<Event>)
    requires Inv(s) && Run(s, events)
    ensures var t := After(s, events);
      (exists g, h :: g != h && g in t.accepting && h in t.accepting) <==> t.pc.RPrepared? && t.pc.prev in t.accepting
    ensures var t := After(s, events);
      forall g :: g in t.accepting && (g == t.handle || t.listener == Installed(g)) ==> g == Cur(t)
  {
    ReachableInv(s, events);
    var t := After(s, events);
    assert Flags(t) && Shape(t) && Listening(t);
    hide Run, After, Inv;
    if t.pc.RPrepared? && t.pc.prev in t.accepting {
      assert t.pc.prev != t.pc.next && t.pc.next in t.accepting;
    }
  }

  /** That window exists: a freshly prepared replacement accepts beside the generation it is to replace. */
  lemma TwoGenerationsAcceptAtFirst(s: State)
    requires Inv(s) && s.pc.Idle? && s.handle in s.accepting && MutexFree(s)
    ensures Enabled(s, BeginReload(true))
    ensures var t := Step(s, BeginReload(true)); s.handle in t.accepting && s.nextGen in t.accepting && s.handle != s.nextGen
  {
  }

  /** A delivery that got its lease before the stop cannot enqueue while the owner is blocked. */
  lemma LateDeliveryIsRejected(s: State, t: ThreadId, admitted: bool)
    requires Inv(s) && Blocking(s.pc) && Enabled(s, Submit(t, admitted)) && s.threads[t].use.Command?
    ensures SubmitState(s, t, admitted).queued == multiset{} && SubmitState(s, t, admitted).threads[t].Free?
  {
  }

  /** From the execution barrier on, nothing of the generation is leased or in the executors until executions are enabled again. */
  lemma BarrierHolds(s: State, events: seq<Event>)
    requires Inv(s) && Run(s, events) && Fencing(After(s, events).pc)
    ensures var t := After(s, events); Fenced(t) && t.accepting == {}
  {
    ReachableInv(s, events);
  }

  /** When unload closes the image, nobody uses it; afterwards it is closed unless unload() itself failed. */
  lemma UnloadClosesAnUnusedImage(s: State, ok: bool)
    requires Inv(s) && s.pc.UUnstored? && CanAdvance(s)
    ensures var g, t := s.pc.g, AdvanceState(s, ok);
      && !InUse(s, g) && !InUse(t, g) && t.accepting == {} && t.blocked == 0 && t.listener.NoListener?
      && (ok ==> g !in t.loaded)
  {
    assert forall t :: t in s.threads ==> !UsesGeneration(s.threads[t], s.pc.g);
  }

  // ----- transactional reload -----

  /**
   How a reload that passed its preflight can end. The module object of the other generation is gone by
   then; deliveries may still be inside the old one's (ReloadIsTransactional tells which).
   */
  ghost predicate ReloadEnded(s: State, prev: Gen, next: Gen, replaced: bool)
  {
    if replaced then
      && s.handle == next && s.accepting == {next} && next in s.loaded && next !in s.destroyed
      && prev !in s.loaded && prev in s.destroyed && !InUse(s, prev) && OnlyDeliveriesInside(s, prev)
      && s.listener == Installed(next) && s.blocked == 0
    else
      && s.handle == prev && s.accepting == {prev} && prev in s.loaded && prev !in s.destroyed
      && next !in s.loaded && next in s.destroyed && !InUse(s, next) && NobodyInside(s, next)
      && s.blocked == 0
  }

  /** The thread is at or inside acquireExecutionLease of this generation's module object. */
  predicate Inside(s: State, x: ThreadId, g: Gen)
  {
    x in s.threads && (s.threads[x].Called? || s.threads[x].Probing? || s.threads[x].Locked?) && s.threads[x].mod == g
  }

  ghost predicate NobodyInside(s: State, g: Gen)
  {
    forall x :: x in s.threads ==> !Inside(s, x, g)
  }

  predicate IsDelivery(p: Thread)
  {
    p.Called? || ((p.Probing? || p.Locked?) && p.use == Command && !p.mutexed)
  }

  ghost predicate OnlyDeliveriesInside(s: State, g: Gen)
  {
    forall x :: x in s.threads && Inside(s, x, g) ==> IsDelivery(s.threads[x])
  }

  lemma ReloadContinues(s: State, ok: bool)
    requires Reloading(s.pc) && CanAdvance(s) && !s.pc.FClosed? && !s.pc.SEnabled?
    ensures var t := AdvanceState(s, ok); Reloading(t.pc) && t.pc.prev == s.pc.prev && t.pc.next == s.pc.next
  {
  }

  /** The last statement leaves one of the two generations installed, whole and alone. */
  lemma ReloadEnds(s: State, ok: bool)
    requires Inv(s) && CanAdvance(s) && (s.pc.FClosed? || s.pc.SEnabled?)
    ensures var t := AdvanceState(s, ok);
      && t.pc.Idle? && ReloadEnded(t, s.pc.prev, s.pc.next, s.pc.SEnabled?)
      && (s.pc.FClosed? && ok ==> t.listener == Installed(s.pc.prev))
  {
    assert forall x :: x in s.threads ==> ThreadOk(s, s.threads[x]);
  }

  lemma OnlyAdvanceMovesReload(s: State, e: Event)
    requires Enabled(s, e) && Reloading(s.pc) && !e.Advance?
    ensures Step(s, e).pc == s.pc
  {
  }

  lemma {:induction false} ReloadKeepsOrEnds(s: State, events: seq<Event>)
    requires Inv(s) && s.pc.RPrepared? && Run(s, events)
    requires forall n :: 0 <= n < |events| ==> !After(s, events[..n]).pc.Idle?
    ensures var t := After(s, events);
      if t.pc.Idle? then exists replaced :: ReloadEnded(t, s.pc.prev, s.pc.next, replaced)
      else Reloading(t.pc) && t.pc.prev == s.pc.prev && t.pc.next == s.pc.next
  {
    if events != [] {
      var front, e := Front(events), Last(events);
      forall n | 0 <= n < |front| ensures front[..n] == events[..n] {}
      ReloadKeepsOrEnds(s, front);
      var m := After(s, front);
      assert front == events[..|events| - 1] && !m.pc.Idle?;
      ReachableInv(s, front);
      if !e.Advance? {
        OnlyAdvanceMovesReload(m, e);
      } else if m.pc.FClosed? || m.pc.SEnabled? {
        ReloadEnds(m, e.ok);
      } else {
        ReloadContinues(m, e.ok);
      }
    }
  }

  // ----- a module that accepts does serve -----

  /** What a delivery does when nothing comes in between. */
  function Delivery(t: ThreadId): seq<Event>
  {
    [Deliver(t), Look(t), LockShared(t), LookAgain(t), Submit(t, true)]
  }

  function At(s: State, t: ThreadId, p: Thread): State { s.(threads := s.threads[t := p]) }

  lemma DeliverySteps(s: State, t: ThreadId)
    requires s.listener.Installed? && s.listener.mod in s.accepting && s.blocked == 0
    requires t in s.threads && s.threads[t] == Free
    ensures
      var g := s.listener.mod;
      && Enabled(s, Deliver(t)) && Step(s, Deliver(t)) == At(s, t, Called(g))
      && Enabled(At(s, t, Called(g)), Look(t))
      && Step(At(s, t, Called(g)), Look(t)) == At(s, t, Probing(g, Command, false))
      && Enabled(At(s, t, Probing(g, Command, false)), LockShared(t))
      && Step(At(s, t, Probing(g, Command, false)), LockShared(t)) == At(s, t, Locked(g, Command, false))
  {
  }

  lemma DeliveryEnds(s: State, t: ThreadId)
    requires s.listener.Installed? && s.listener.mod in s.accepting && s.blocked == 0
    requires t in s.threads && s.threads[t] == Free
    ensures
      var g := s.listener.mod;
      && Enabled(At(s, t, Locked(g, Command, false)), LookAgain(t))
      && Step(At(s, t, Locked(g, Command, false)), LookAgain(t)) == At(s, t, Leased(g, Command))
      && Enabled(At(s, t, Leased(g, Command)), Submit(t, true))
      && Step(At(s, t, Leased(g, Command)), Submit(t, true)) == s.(queued := s.queued + multiset{g})
  {
    assert s.threads[t := Leased(s.listener.mod, Command)][t := Free] == s.threads;
  }

  lemma DeliveryLocks(s: State, t: ThreadId)
    requires s.listener.Installed? && s.listener.mod in s.accepting && s.blocked == 0
    requires t in s.threads && s.threads[t] == Free
    ensures Run(s, Delivery(t)[..3])
    ensures After(s, Delivery(t)[..3]) == At(s, t, Locked(s.listener.mod, Command, false))
  {
    var d := Delivery(t);
    assert Run(s, d[..0]) && After(s, d[..0]) == s;
    DeliverySteps(s, t);
    hide Run, After, Enabled, Step, At;
    Goes(s, d, 0);
    Goes(s, d, 1);
    Goes(s, d, 2);
  }

  lemma UnblockedDelivery(s: State, t: ThreadId)
    requires s.listener.Installed? && s.listener.mod in s.accepting && s.blocked == 0
    requires t in s.threads && s.threads[t] == Free
    ensures Run(s, Delivery(t)) && After(s, Delivery(t)) == s.(queued := s.queued + multiset{s.listener.mod})
  {
    hide Run, After, Enabled, Step, At;
    var d := Delivery(t);
    DeliveryLocks(s, t);
    DeliveryEnds(s, t);
    Goes(s, d, 3);
    Goes(s, d, 4);
    assert d[..5] == d;
  }

  /** Outside every operation, a delivery to a module that accepts ends with its command in the queue. */
  lemma DeliveryIsServed(s: State, t: ThreadId)
    requires Inv(s) && s.pc.Idle? && s.handle in s.accepting && s.listener == Installed(s.handle)
    requires t in s.threads && s.threads[t] == Free
    ensures Run(s, Delivery(t))
    ensures After(s, Delivery(t)) == s.(queued := s.queued + multiset{s.handle})
  {
    assert Barriers(s);
    hide Run, After, Inv;
    UnblockedDelivery(s, t);
  }

  /** One more step of a run. */
  lemma Goes(s: State, d: seq<Event>, n: nat)
    requires n < |d| && Run(s, d[..n]) && Enabled(After(s, d[..n]), d[n])
    ensures Run(s, d[..n + 1]) && After(s, d[..n + 1]) == Step(After(s, d[..n]), d[n])
  {
    RunOn(s, d[..n], d[n]);
    assert d[..n] + [d[n]] == d[..n + 1];
  }

  /** What a submitter gets: a command is queued unless its owner is blocked or the executor refuses, work only needs the scheduler. */
  lemma SubmittedIff(s: State, t: ThreadId, admitted: bool)
    requires t in s.threads && s.threads[t].Leased?
    ensures
      var after, p := SubmitState(s, t, admitted), s.threads[t];
      && after.threads == s.threads[t := Free]
      && after.queued == (if p.use == Command && admitted && s.blocked == 0 then s.queued + multiset{p.mod} else s.queued)
      && after.works == (if p.use != Command && admitted then s.works + multiset{p.mod} else s.works)
  {
  }

  /** A reload whose preflight fails uses up a generation number and changes nothing else. */
  lemma FailedPreflightChangesNothing(s: State)
    ensures BeginReloadState(s, false) == s.(nextGen := s.nextGen + 1)
  {
  }

  /** Loading again opens a closed module, which then accepts, and gives an open one its listener back. */
  lemma LoadAgainOpens(s: State, ok: bool)
    requires Inv(s) && s.pc.Idle?
    ensures
      var t := LoadAgainState(s, ok);
      && (s.handle in t.loaded <==> s.handle in s.loaded || ok)
      && (s.handle in t.loaded ==> t.listener == Installed(s.handle))
      && (s.handle !in s.loaded && ok ==> s.handle in t.accepting)
      && (s.handle in s.loaded || !ok ==> t.accepting == s.accepting && t.loaded == s.loaded)
  {
  }

  // ----- deliveries to the generation that goes -----

  /** From the removal of the listener to the end of a reload whose registration did not fail. */
  predicate Retiring(pc: Pc)
  {
    pc.RUnlistened? || pc.RCancelled? || pc.RSwapped? || pc.SLoaded? || pc.SWorkDrained? || pc.SBarred? || pc.SDrained?
    || pc.SUnstored? || pc.SClosed? || pc.SEnabled?
  }

  predicate Restoring(pc: Pc)
  {
    pc.FFailed? || pc.FRestored? || pc.FBarred? || pc.FDrained? || pc.FEnabled? || pc.FClosed?
  }

  /** The reload goes on beyond the removal of its listener, or has ended. */
  predicate Beyond(pc: Pc, prev: Gen, next: Gen)
  {
    (Retiring(pc) || Restoring(pc)) && pc.prev == prev && pc.next == next
  }

  lemma RetiringIsClosed(s: State)
    requires Inv(s) && Retiring(s.pc)
    ensures s.pc.prev !in s.accepting && s.listener != Installed(s.pc.prev)
  {
  }

  /** While the previous generation is retired, threads only come out of it, each by its second look, or its first. */
  lemma RetiringStep(s: State, e: Event, x: ThreadId)
    requires Inv(s) && Retiring(s.pc) && Enabled(s, e)
    ensures Inside(Step(s, e), x, s.pc.prev) <==> Inside(s, x, s.pc.prev) && e != Look(x) && e != LookAgain(x)
  {
    RetiringIsClosed(s);
    if e.Advance? {
      AdvanceFrame(s, e.ok);
    } else {
      hide Inv;
      OtherRetiringStep(s, e, x);
    }
  }

  lemma OtherRetiringStep(s: State, e: Event, x: ThreadId)
    requires Retiring(s.pc) && Enabled(s, e) && !e.Advance?
    requires s.pc.prev !in s.accepting && s.listener != Installed(s.pc.prev)
    ensures Inside(Step(s, e), x, s.pc.prev) <==> Inside(s, x, s.pc.prev) && e != Look(x) && e != LookAgain(x)
  {
    hide AdvanceState, CanAdvance;
  }

  /** The reload has not failed, and if it is over, it has replaced the previous generation. */
  predicate Replacing(s: State, next: Gen)
  {
    Retiring(s.pc) || (s.pc.Idle? && s.handle == next)
  }

  lemma BeyondStep(s: State, e: Event)
    requires Inv(s) && (Retiring(s.pc) || Restoring(s.pc)) && Enabled(s, e)
    ensures var t := Step(s, e);
      (t.pc.Idle? || Beyond(t.pc, s.pc.prev, s.pc.next)) && (Replacing(t, s.pc.next) ==> Retiring(s.pc))
  {
    if e.Advance? {
      assert Shape(s);
      hide Inv, Enabled;
      BeyondAdvance(s, e.ok);
    } else {
      hide Inv, Step;
      OnlyAdvanceMovesReload(s, e);
    }
  }

  lemma BeyondAdvance(s: State, ok: bool)
    requires Shape(s) && (Retiring(s.pc) || Restoring(s.pc))
    ensures var t := AdvanceState(s, ok);
      (t.pc.Idle? || Beyond(t.pc, s.pc.prev, s.pc.next)) && (Replacing(t, s.pc.next) ==> Retiring(s.pc))
  {
    assert s.pc.prev != s.pc.next && (s.pc.FClosed? ==> s.handle == s.pc.prev);
    hide Shape;
    if Restoring(s.pc) {
      RestoringAdvance(s, ok);
    } else {
      RetiringAdvance(s, ok);
    }
  }

  lemma RestoringAdvance(s: State, ok: bool)
    requires Restoring(s.pc) && s.pc.prev != s.pc.next && (s.pc.FClosed? ==> s.handle == s.pc.prev)
    ensures var t := AdvanceState(s, ok);
      if t.pc.Idle? then t.handle != s.pc.next else Restoring(t.pc) && t.pc.prev == s.pc.prev && t.pc.next == s.pc.next
  {
  }

  lemma RetiringAdvance(s: State, ok: bool)
    requires Retiring(s.pc)
    ensures var t := AdvanceState(s, ok); t.pc.Idle? || Beyond(t.pc, s.pc.prev, s.pc.next)
  {
  }

  /** The thread has made the look that takes it out. */
  predicate CameOut(events: seq<Event>, x: ThreadId)
  {
    Look(x) in events || LookAgain(x) in events
  }

  /** `t` is reached by `events` from `s`: who is inside the previous generation was, and did not come out. */
  predicate StillInside(s: State, t: State, events: seq<Event>, x: ThreadId)
    requires Retiring(s.pc)
  {
    && (t.pc.Idle? || Beyond(t.pc, s.pc.prev, s.pc.next))
    && (Replacing(t, s.pc.next) ==> (Inside(t, x, s.pc.prev) <==> Inside(s, x, s.pc.prev) && !CameOut(events, x)))
  }

  lemma StillInsideStep(s: State, m: State, front: seq<Event>, e: Event, x: ThreadId)
    requires Retiring(s.pc) && StillInside(s, m, front, x)
    requires Inv(m) && !m.pc.Idle? && Enabled(m, e)
    ensures StillInside(s, Step(m, e), front + [e], x)
  {
    assert CameOut(front + [e], x) <==> CameOut(front, x) || e == Look(x) || e == LookAgain(x);
    hide Inv, Step, Enabled, Inside, CameOut, Replacing;
    BeyondStep(m, e);
    if Retiring(m.pc) {
      RetiringReplaces(m, s.pc.next);
      RetiringStep(m, e, x);
    }
  }

  /** From the removal of its listener on, a thread is still inside the previous generation if it was and did not come out. */
  lemma {:induction false} LeftInside(s: State, events: seq<Event>, x: ThreadId)
    requires Inv(s) && s.pc.RUnlistened? && Run(s, events)
    requires forall n :: 0 <= n < |events| ==> !After(s, events[..n]).pc.Idle?
    ensures StillInside(s, After(s, events), events, x)
  {
    if events != [] {
      hide StillInside;
      var front, e := Front(events), Last(events);
      assert front == events[..|events| - 1] && events == front + [e];
      forall n | 0 <= n < |front| ensures front[..n] == events[..n] {}
      LeftInside(s, front, x);
      ReachableInv(s, front);
      hide Inv, Step, Enabled;
      StillInsideStep(s, After(s, front), front, e, x);
    }
  }

  lemma RetiringReplaces(s: State, next: Gen)
    requires Retiring(s.pc)
    ensures Replacing(s, next)
  {
  }

  lemma {:induction false} RunSplits(s: State, events: seq<Event>, n: nat)
    requires Run(s, events) && n <= |events|
    ensures Run(s, events[..n]) && Run(After(s, events[..n]), events[n..])
    ensures After(After(s, events[..n]), events[n..]) == After(s, events)
  {
    if n == |events| {
      assert events[..n] == events && events[n..] == [];
    } else {
      var front := Front(events);
      RunSplits(s, front, n);
      assert front[..n] == events[..n];
      assert Front(events[n..]) == front[n..] && Last(events[n..]) == Last(events);
    }
  }

  /** No reload ends without having removed its listener. */
  lemma {:induction false} PassesUnlistened(s: State, events: seq<Event>)
    requires Inv(s) && s.pc.RPrepared? && Run(s, events)
    requires forall n :: 0 <= n < |events| ==> !After(s, events[..n]).pc.Idle?
    ensures var t := After(s, events);
      || t.pc == s.pc || t.pc == RNewStopped(s.pc.prev, s.pc.next) || t.pc == RBothStopped(s.pc.prev, s.pc.next)
      || exists n :: 0 <= n <= |events| && After(s, events[..n]).pc == RUnlistened(s.pc.prev, s.pc.next)
  {
    assert events[..|events|] == events;
    if events != [] {
      var front, e := Front(events), Last(events);
      forall n | 0 <= n <= |front| ensures front[..n] == events[..n] {}
      PassesUnlistened(s, front);
      var m := After(s, front);
      if Reloading(m.pc) && !e.Advance? {
        OnlyAdvanceMovesReload(m, e);
      }
    }
  }

  /** Who is left inside the previous generation, told from the moment `n` at which its listener was gone. */
  ghost predicate InsideSince(s: State, events: seq<Event>, n: nat, g: Gen)
    requires n <= |events|
  {
    forall x :: Inside(After(s, events), x, g) <==>
                Inside(After(s, events[..n]), x, g) && !CameOut(events[n..], x)
  }

  lemma InsideAtTheEnd(s: State, events: seq<Event>, n: nat)
    requires Inv(s) && s.pc.RPrepared? && Run(s, events)
    requires forall k :: 0 <= k < |events| ==> !After(s, events[..k]).pc.Idle?
    requires n <= |events| && After(s, events[..n]).pc == RUnlistened(s.pc.prev, s.pc.next)
    requires After(s, events).pc.Idle? && After(s, events).handle == s.pc.next
    ensures InsideSince(s, events, n, s.pc.prev)
  {
    hide Inv, Run, After, Inside;
    RunSplits(s, events, n);
    ReachableInv(s, events[..n]);
    var m := After(s, events[..n]);
    forall k | 0 <= k < |events[n..]| ensures !After(m, events[n..][..k]).pc.Idle? {
      RunSplits(s, events, n + k);
      RunSplits(s, events[..n + k], n);
      assert events[..n + k][..n] == events[..n] && events[..n + k][n..] == events[n..][..k];
    }
    forall x
      ensures Inside(After(s, events), x, s.pc.prev) <==>
              Inside(m, x, s.pc.prev) && !CameOut(events[n..], x)
    {
      LeftInside(m, events[n..], x);
      assert Replacing(After(m, events[n..]), s.pc.next);
    }
  }

  /**
   A reload that passed its preflight, interleaved with anything: when it is over, either the new
   generation is installed, listening and alone, and the old one closed and destroyed; or the old one is
   installed and alone, and the new one closed and destroyed.  The owner is unblocked again.  Nobody is
   inside a destroyed candidate; inside a destroyed old generation are exactly the threads that were there
   when its listener was removed and have not come out since.
   */
  lemma ReloadIsTransactional(s: State, events: seq<Event>)
    requires Inv(s) && s.pc.RPrepared? && Run(s, events)
    requires forall n :: 0 <= n < |events| ==> !After(s, events[..n]).pc.Idle?
    ensures var t := After(s, events);
      if t.pc.Idle? then exists replaced :: ReloadEnded(t, s.pc.prev, s.pc.next, replaced)
      else Reloading(t.pc) && t.pc.prev == s.pc.prev && t.pc.next == s.pc.next
    ensures After(s, events).pc.Idle? ==>
      exists n :: 0 <= n <= |events| && After(s, events[..n]).pc == RUnlistened(s.pc.prev, s.pc.next)
    ensures After(s, events).pc.Idle? && After(s, events).handle == s.pc.next ==>
      forall n :: 0 <= n <= |events| && After(s, events[..n]).pc == RUnlistened(s.pc.prev, s.pc.next) ==>
                  InsideSince(s, events, n, s.pc.prev)
  {
    ReloadKeepsOrEnds(s, events);
    PassesUnlistened(s, events);
    if After(s, events).pc.Idle? && After(s, events).handle == s.pc.next {
      forall n | 0 <= n <= |events| && After(s, events[..n]).pc == RUnlistened(s.pc.prev, s.pc.next)
        ensures InsideSince(s, events, n, s.pc.prev)
      {
        InsideAtTheEnd(s, events, n);
      }
    }
  }

  /** The generations whose module object an event reads or writes. */
  function Touched(s: State, e: Event): set<Gen>
    requires Enabled(s, e)
  {
    match e
    case Deliver(_) => {}
    case Look(t) => {s.threads[t].mod}
    case Ask(_, _) => {s.handle}
    case PickCallback(_, _) => {}
    case AskForCallback(_) => {s.handle}
    case LockShared(t) => {s.threads[t].mod}
    case LookAgain(t) => {s.threads[t].mod}
    case Submit(t, _) => {s.threads[t].mod}
    case Return(t) => {s.threads[t].mod}
    case StartTask(g) => {g}
    case FinishTask(g) => {g}
    case FinishWork(g) => {g}
    case Store(g) => {g}
    case LoadAgain(_) => {s.handle}
    case BeginUnload => {s.handle}
    case BeginReload(_) => {s.handle}
    case Advance(_) => if Unloading(s.pc) then {s.pc.g} else {s.pc.prev, s.pc.next}
  }

  /** In every interleaving a destroyed module object is touched exactly by the steps of deliveries still inside it. */
  lemma TouchedAfterDestruction(s: State, events: seq<Event>, e: Event)
    requires Inv(s) && Run(s, events) && Enabled(After(s, events), e)
    ensures var m := After(s, events);
      Touched(m, e) !! m.destroyed <==>
        !((e.Look? || e.LockShared? || e.LookAgain?) && IsDelivery(m.threads[e.t]) && m.threads[e.t].mod in m.destroyed)
  {
    ReachableInv(s, events);
    hide Run, After;
    TouchedNow(After(s, events), e);
  }

  lemma TouchedNow(m: State, e: Event)
    requires Inv(m) && Enabled(m, e)
    ensures
      Touched(m, e) !! m.destroyed <==>
        !((e.Look? || e.LockShared? || e.LookAgain?) && IsDelivery(m.threads[e.t]) && m.threads[e.t].mod in m.destroyed)
  {
    assert Cur(m) !in m.destroyed;
    if e.Look? || e.LockShared? || e.LookAgain? || e.Submit? || e.Return? {
      assert ThreadOk(m, m.threads[e.t]);
    }
    if e.Store? && e.g !in m.running && e.g !in m.works {
      var t :| t in m.threads && m.threads[t] == Leased(e.g, Callback(e.g));
      assert ThreadOk(m, m.threads[t]);
    }
  }

  // ----- a delivery that outlasts the module object -----

  /** Repeated statements of a reload, all of which succeed. */
  function Advances(n: nat): (es: seq<Event>)
    ensures |es| == n
  {
    if n == 0 then [] else Advances(n - 1) + [Advance(true)]
  }

  /** One delivery, inside the old generation, and nothing else. */
  predicate OneInside(s: State)
  {
    && s.threads == map[0 := Probing(0, Command, false)]
    && s.queued == s.running == s.works == multiset{}
  }

  lemma OneInsideAdvances(s: State)
    requires OneInside(s) && !s.pc.Idle? && !s.pc.FRestored?
    ensures CanAdvance(s) && OneInside(AdvanceState(s, true))
  {
  }

  /** How far a reload that succeeds has come. */
  function Rank(pc: Pc): (r: int)
    ensures r == 0 <==> pc.RPrepared?
    ensures r == 12 <==> pc.SEnabled?
    ensures r == 13 <==> pc.Idle?
  {
    match pc
    case RPrepared(_, _) => 0
    case RNewStopped(_, _) => 1
    case RBothStopped(_, _) => 2
    case RUnlistened(_, _) => 3
    case RCancelled(_, _) => 4
    case RSwapped(_, _) => 5
    case SLoaded(_, _) => 6
    case SWorkDrained(_, _) => 7
    case SBarred(_, _) => 8
    case SDrained(_, _) => 9
    case SUnstored(_, _) => 10
    case SClosed(_, _) => 11
    case SEnabled(_, _) => 12
    case Idle => 13
    case _ => -1
  }

  lemma RankAdvances(s: State)
    requires 0 <= Rank(s.pc) < 13
    ensures Rank(AdvanceState(s, true).pc) == Rank(s.pc) + 1
  {
  }

  lemma {:induction false} ReloadAround(s: State, n: nat)
    requires Inv(s) && OneInside(s) && s.pc == RPrepared(0, 1) && n <= 13
    ensures Run(s, Advances(n)) && OneInside(After(s, Advances(n))) && Rank(After(s, Advances(n)).pc) == n
    ensures n < 13 ==>
              Reloading(After(s, Advances(n)).pc) && After(s, Advances(n)).pc.prev == 0 && After(s, Advances(n)).pc.next == 1
  {
    if n > 0 {
      ReloadAround(s, n - 1);
      var m := After(s, Advances(n - 1));
      hide Inv, Run, After, Enabled, Rank, AdvanceState, OneInside, CanAdvance;
      OneInsideAdvances(m);
      RankAdvances(m);
      ReloadKeepsItsPair(m, true);
      assert Enabled(m, Advance(true)) by { AdvanceEnabled(m); }
      RunOn(s, Advances(n - 1), Advance(true));
      StepAdvances(m);
    }
  }

  lemma AdvanceEnabled(s: State)
    requires CanAdvance(s)
    ensures Enabled(s, Advance(true))
  {
  }

  lemma StepAdvances(s: State)
    requires Enabled(s, Advance(true))
    ensures Step(s, Advance(true)) == AdvanceState(s, true)
  {
  }

  lemma {:induction false} RunsJoin(s: State, a: seq<Event>, b: seq<Event>)
    requires Run(s, a) && Run(After(s, a), b)
    ensures Run(s, a + b) && After(s, a + b) == After(After(s, a), b)
  {
    if b == [] {
      assert a + b == a;
    } else {
      RunsJoin(s, a, Front(b));
      assert Front(a + b) == a + Front(b) && Last(a + b) == Last(b);
    }
  }

  const DeliveryInside := [Deliver(0), Look(0), BeginReload(true)]

  lemma DeliveryGetsInside()
    ensures Run(Init({0}), DeliveryInside)
    ensures OneInside(After(Init({0}), DeliveryInside)) && After(Init({0}), DeliveryInside).pc == RPrepared(0, 1)
  {
    var s := Init({0});
    RunOn(s, [], Deliver(0));
    assert [] + [Deliver(0)] == [Deliver(0)];
    var called := After(s, [Deliver(0)]);
    assert called.threads == map[0 := Called(0)];
    hide Run, After, Inv;
    RunOn(s, [Deliver(0)], Look(0));
    assert [Deliver(0)] + [Look(0)] == [Deliver(0), Look(0)];
    var probing := After(s, [Deliver(0), Look(0)]);
    assert probing.threads == map[0 := Probing(0, Command, false)];
    RunOn(s, [Deliver(0), Look(0)], BeginReload(true));
    assert [Deliver(0), Look(0)] + [BeginReload(true)] == DeliveryInside;
  }

  /**
   A delivery takes its first look; a reload replaces the module and is over; then the delivery locks
   the lock of a module object that is gone.
   */
  lemma DeliveryOutlastsItsModule()
    ensures var events := DeliveryInside + Advances(13);
      && Run(Init({0}), events)
      && var t := After(Init({0}), events);
         && t.pc.Idle? && ReloadEnded(t, 0, 1, true) && t.threads == map[0 := Probing(0, Command, false)]
         && Enabled(t, LockShared(0)) && Touched(t, LockShared(0)) == {0} <= t.destroyed
  {
    InitInv({0});
    hide Inv, Run, After, Advances, OneInside, ReloadEnded, Init;
    DeliveryGetsInside();
    ReachableInv(Init({0}), DeliveryInside);
    ReloadEndsAround(After(Init({0}), DeliveryInside));
    LocksADestroyedLock(After(After(Init({0}), DeliveryInside), Advances(13)));
    hide Enabled, Touched, Step;
    RunsJoin(Init({0}), DeliveryInside, Advances(13));
  }

  lemma LocksADestroyedLock(s: State)
    requires s.threads == map[0 := Probing(0, Command, false)] && 0 in s.destroyed
    ensures Enabled(s, LockShared(0)) && Touched(s, LockShared(0)) == {0} <= s.destroyed
  {
  }

  lemma ReloadEndsAround(s: State)
    requires Inv(s) && OneInside(s) && s.pc == RPrepared(0, 1)
    ensures Run(s, Advances(13))
    ensures var t := After(s, Advances(13));
      t.pc.Idle? && ReloadEnded(t, 0, 1, true) && t.threads == map[0 := Probing(0, Command, false)] && 0 in t.destroyed
  {
    ReloadAround(s, 12);
    ReloadAround(s, 13);
    var m := After(s, Advances(12));
    assert Advances(13) == Advances(12) + [Advance(true)];
    hide Inv, Run, After, Advances, Rank, AdvanceState, CanAdvance;
    ReachableInv(s, Advances(12));
    OneInsideAdvances(m);
    ReloadEnds(m, true);
    AdvanceEnabled(m);
    RunOn(s, Advances(12), Advance(true));
    StepAdvances(m);
  }
}
