/**
 unload and reload as they are written: one statement after the other on the fields of the
 module manager, with any run of the other threads between any two statements.
 A script tells what the others do; an operation whose wait is not over by the end of it is
 left waiting.
 */
module ModuleOperations {
  import opened ModuleLifecycle

  /** Unfinished: the operation is still inside one of its waits. */
  datatype Progress = Unfinished | Finished(ok: bool)

  /** What threads other than the one running lifecycle operations do. */
  predicate ByOthers(e: Event)
  {
    !e.Advance? && !e.LoadAgain? && !e.BeginUnload? && !e.BeginReload?
  }

  /** The part of the state that only lifecycle operations change. */
  predicate SameOperation(s: State, t: State)
  {
    && t.pc == s.pc && t.handle == s.handle && t.listener == s.listener && t.accepting == s.accepting
    && t.loaded == s.loaded && t.destroyed == s.destroyed && t.nextGen == s.nextGen && t.blocked == s.blocked
  }

  lemma OthersFrame(s: State, e: Event)
    requires Enabled(s, e) && ByOthers(e)
    ensures SameOperation(s, Step(s, e))
  {
    match e
    case Deliver(_) =>
    case Look(_) =>
    case Ask(_, _) =>
    case PickCallback(_, _) =>
    case AskForCallback(_) =>
    case LockShared(_) =>
    case LookAgain(_) =>
    case Submit(_, _) =>
    case Return(_) =>
    case StartTask(_) =>
    case FinishTask(_) =>
    case FinishWork(_) =>
    case Store(_) =>
  }

  /** Other threads know neither where the operation stands nor what is destroyed. */
  lemma OthersIgnorePc(s: State, e: Event)
    requires ByOthers(e)
    ensures Enabled(s.(destroyed := {}, pc := Idle), e) <==> Enabled(s, e)
    ensures Enabled(s, e) ==>
              Step(s.(destroyed := {}, pc := Idle), e) == Step(s, e).(destroyed := {}, pc := Idle)
  {
  }

  /** Whoever holds the manager's mutex gives it back by its own next steps. */
  lemma HolderGoesOn(s: State, t: ThreadId)
    requires t in s.threads && HoldsMutex(s.threads[t])
    ensures s.threads[t].Probing? ==>
              Enabled(s, LockShared(t)) && Holders(Step(s, LockShared(t)).threads) == Holders(s.threads)
              && Step(s, LockShared(t)).threads[t].Locked?
    ensures s.threads[t].Locked? ==>
              Enabled(s, LookAgain(t)) && Holders(Step(s, LookAgain(t)).threads) == Holders(s.threads) - {t}
  {
  }

  function Holders(threads: map<ThreadId, Thread>): set<ThreadId>
  {
    set t | t in threads && HoldsMutex(threads[t])
  }

  /** The operation's next statement was executed, and nothing else. */
  predicate Follows(s: State, t: State, ok: bool) { t == AdvanceState(s, ok) }

  class ModulesManagement {
    var threads: map<ThreadId, Thread>
    var queued: multiset<Gen>
    var running: multiset<Gen>
    var works: multiset<Gen>
    var stored: set<Gen>
    var blocked: nat
    var handle: Gen
    var listener: Listener
    var accepting: set<Gen>
    var loaded: set<Gen>
    ghost var destroyed: set<Gen>
    var nextGen: Gen
    ghost var pc: Pc

    ghost function Now(): State
      reads this
    {
      State(threads, queued, running, works, stored, blocked, handle, listener, accepting, loaded, destroyed, nextGen, pc)
    }

    constructor (workers: set<ThreadId>)
      ensures Now() == Init(workers) && Inv(Now())
    {
      threads := map t | t in workers :: Free;
      queued, running, works, stored, blocked := multiset{}, multiset{}, multiset{}, {}, 0;
      handle, listener, accepting, loaded, destroyed, nextGen, pc := 0, Installed(0), {0}, {0}, {}, 1, Idle;
      new;
      InitInv(workers);
    }

    /** The other threads run for a while; what is not enabled does not happen. */
    method Others(script: seq<Event>)
      requires Inv(Now())
      modifies `threads, `queued, `running, `works, `stored
      ensures Inv(Now())
    {
      hide Inv;
      for i := 0 to |script|
        invariant Inv(Now())
      {
        if ByOthers(script[i]) {
          OtherStep(script[i]);
        }
      }
    }

    method OtherStep(e: Event)
      requires Inv(Now()) && ByOthers(e)
      modifies `threads, `queued, `running, `works, `stored
      ensures Inv(Now())
      ensures Now() == if Enabled(old(Now()), e) then Step(old(Now()), e) else old(Now())
    {
      hide Inv;
      hide Step;
      hide Enabled;
      var s := State(threads, queued, running, works, stored, blocked, handle, listener, accepting, loaded, {}, nextGen, Idle);
      OthersIgnorePc(Now(), e);
      if Enabled(s, e) {
        InvStep(Now(), e);
        OthersFrame(Now(), e);
        var t := Step(s, e);
        threads, queued, running, works, stored := t.threads, t.queued, t.running, t.works, t.stored;
      }
    }

    /** std::lock_guard on the manager's mutex: its holder goes on until it has given the mutex back. */
    method AwaitMutex()
      requires Inv(Now())
      modifies `threads, `queued, `running, `works, `stored
      ensures Inv(Now()) && MutexFree(Now())
    {
      hide Inv;
      while exists t :: t in threads && HoldsMutex(threads[t])
        invariant Inv(Now())
        decreases Holders(threads)
      {
        hide Step, Enabled;
        var t :| t in threads && HoldsMutex(threads[t]);
        assert t in Holders(threads);
        HolderGoesOn(Now(), t);
        if threads[t].Probing? {
          OtherStep(LockShared(t));
          assert t in Holders(threads);
          HolderGoesOn(Now(), t);
        }
        OtherStep(LookAgain(t));
      }
    }

    // ----- The statements -----

    /** module->stopExecutions() under the mutex, the first statement of an unload. */
    method BeginUnload()
      requires Inv(Now()) && pc.Idle? && MutexFree(Now())
      modifies `accepting, `pc
      ensures Inv(Now()) && pc == UStopped(handle)
    {
      hide Inv;
      BeginUnloadKeeps(Now());
      accepting := accepting - {handle};
      pc := UStopped(handle);
    }

    /** makeReloadCandidate and the checks on it, the first statement of a reload. */
    method BeginReload(prepared: bool)
      requires Inv(Now()) && pc.Idle? && handle in loaded && MutexFree(Now())
      modifies `accepting, `loaded, `nextGen, `pc
      ensures Inv(Now()) && nextGen == old(nextGen) + 1
      ensures prepared ==> pc == RPrepared(handle, old(nextGen))
      ensures !prepared ==> pc.Idle? && accepting == old(accepting) && loaded == old(loaded)
    {
      hide Inv;
      BeginReloadKeeps(Now(), prepared);
      if prepared {
        accepting := accepting + {nextGen};
        loaded := loaded + {nextGen};
        pc := RPrepared(handle, nextGen);
      }
      nextGen := nextGen + 1;
    }

    /** stopExecutions of the replacement and then of the current module. */
    method StopExecutions(g: Gen)
      requires Inv(Now())
      requires (pc.RPrepared? && g == pc.next) || (pc.RNewStopped? && g == pc.prev)
      modifies `accepting, `pc
      ensures Inv(Now()) && Follows(old(Now()), Now(), true)
      ensures pc == if old(pc).RPrepared? then RNewStopped(old(pc).prev, old(pc).next)
                    else RBothStopped(old(pc).prev, old(pc).next)
    {
      hide Inv;
      AdvanceKeeps(Now(), true);
      accepting := accepting - {g};
      pc := if pc.RPrepared? then RNewStopped(pc.prev, pc.next) else RBothStopped(pc.prev, pc.next);
    }

    /** onCommand(name, {}). */
    method ClearListener()
      requires Inv(Now()) && (pc.UStopped? || pc.RBothStopped?)
      modifies `listener, `pc
      ensures Inv(Now()) && Follows(old(Now()), Now(), true)
      ensures pc == if old(pc).UStopped? then UUnlistened(old(pc).g) else RUnlistened(old(pc).prev, old(pc).next)
    {
      hide Inv;
      AdvanceKeeps(Now(), true);
      listener := NoListener;
      pc := if pc.UStopped? then UUnlistened(pc.g) else RUnlistened(pc.prev, pc.next);
    }

    /** commandAsync.cancel(name). */
    method CancelCommands()
      requires Inv(Now()) && (pc.UUnlistened? || pc.RUnlistened?)
      modifies `blocked, `queued, `pc
      ensures Inv(Now()) && Follows(old(Now()), Now(), true)
      ensures pc == if old(pc).UUnlistened? then UCancelled(old(pc).g) else RCancelled(old(pc).prev, old(pc).next)
    {
      hide Inv;
      AdvanceKeeps(Now(), true);
      blocked := blocked + 1;
      queued := multiset{};
      pc := if pc.UUnlistened? then UCancelled(pc.g) else RCancelled(pc.prev, pc.next);
    }

    /** workScheduler.cancelAndDrain(name); what is left of the work is waited for by the lease. */
    method DrainWork()
      requires Inv(Now()) && (pc.UCancelled? || pc.SLoaded?)
      modifies `pc
      ensures Inv(Now()) && Follows(old(Now()), Now(), true)
      ensures pc == if old(pc).UCancelled? then UWorkDrained(old(pc).g) else SWorkDrained(old(pc).prev, old(pc).next)
    {
      hide Inv;
      AdvanceKeeps(Now(), true);
      pc := if pc.UCancelled? then UWorkDrained(pc.g) else SWorkDrained(pc.prev, pc.next);
    }

    /** stopAndAcquireUnloadLease, given up again at once. */
    method PassBarrier(g: Gen) returns (passed: bool)
      requires Inv(Now())
      requires (pc.UWorkDrained? && g == pc.g) || ((pc.SWorkDrained? || pc.FRestored?) && g == pc.prev)
      modifies `accepting, `pc
      ensures Inv(Now())
      ensures !passed ==> pc == old(pc)
      ensures passed ==> !Held(old(Now()), g) && Follows(old(Now()), Now(), true)
      ensures passed ==> pc == if old(pc).UWorkDrained? then UBarred(old(pc).g)
                               else if old(pc).SWorkDrained? then SBarred(old(pc).prev, old(pc).next)
                               else FBarred(old(pc).prev, old(pc).next)
    {
      hide Inv;
      hide Held;
      var held := IsHeld(g);
      if held {
        return false;
      }
      AdvanceKeeps(Now(), true);
      accepting := accepting - {g};
      pc := if pc.UWorkDrained? then UBarred(pc.g)
            else if pc.SWorkDrained? then SBarred(pc.prev, pc.next) else FBarred(pc.prev, pc.next);
      return true;
    }

    /** commandAsync.drain(name). */
    method DrainCommands() returns (passed: bool)
      requires Inv(Now()) && (pc.UBarred? || pc.SBarred? || pc.FBarred?)
      modifies `blocked, `pc
      ensures Inv(Now())
      ensures !passed ==> pc == old(pc)
      ensures passed ==> running == multiset{} && Follows(old(Now()), Now(), true)
      ensures passed ==> pc == if old(pc).UBarred? then UDrained(old(pc).g)
                               else if old(pc).SBarred? then SDrained(old(pc).prev, old(pc).next)
                               else FDrained(old(pc).prev, old(pc).next)
    {
      hide Inv;
      if running != multiset{} {
        return false;
      }
      AdvanceKeeps(Now(), true);
      if blocked > 0 {
        blocked := blocked - 1;
      }
      pc := if pc.UBarred? then UDrained(pc.g)
            else if pc.SBarred? then SDrained(pc.prev, pc.next) else FDrained(pc.prev, pc.next);
      return true;
    }

    /** The lifecycle listeners and removeAnyMessageCallbacksForCommand. */
    method DestroyCallbacks() returns (passed: bool)
      requires Inv(Now()) && (pc.UDrained? || pc.SDrained?)
      modifies `stored, `pc
      ensures Inv(Now())
      ensures !passed ==> pc == old(pc)
      ensures passed ==> DispatcherIdle(old(Now())) && Follows(old(Now()), Now(), true)
      ensures passed ==> pc == if old(pc).UDrained? then UUnstored(old(pc).g)
                               else SUnstored(old(pc).prev, old(pc).next)
    {
      hide Inv;
      hide DispatcherIdle;
      var idle := IsDispatcherIdle();
      if !idle {
        return false;
      }
      AdvanceKeeps(Now(), true);
      stored := {};
      pc := if pc.UDrained? then UUnstored(pc.g) else SUnstored(pc.prev, pc.next);
      return true;
    }

    /**
     module->unload(): if the image is open, it waits for the lease itself, then closes the image or fails.
     At the end of a reload this is the destructor of the previous module object.
     */
    method CloseImage(g: Gen, closes: bool) returns (passed: bool)
      requires Inv(Now())
      requires (pc.UUnstored? && g == pc.g) || (pc.SUnstored? && g == pc.prev)
               || (pc.FEnabled? && g == pc.next && closes) || (pc.SEnabled? && g == pc.prev && closes)
      modifies `accepting, `loaded, `destroyed, `pc
      ensures Inv(Now())
      ensures !passed ==> pc == old(pc)
      ensures passed ==> CanAdvance(old(Now())) && Follows(old(Now()), Now(), closes)
      ensures passed ==> pc == if old(pc).SUnstored? then SClosed(old(pc).prev, old(pc).next)
                               else if old(pc).FEnabled? then FClosed(old(pc).prev, old(pc).next) else Idle
    {
      hide Inv;
      hide Held;
      hide AdvanceState;
      var held := IsHeld(g);
      if held && g in loaded {
        return false;
      }
      if pc.SUnstored? || pc.FEnabled? {
        ImageIsOpen(Now());
      }
      ClosedState(Now(), g, closes);
      AdvanceKeeps(Now(), closes);
      accepting := accepting - {g};
      if closes {
        loaded := loaded - {g};
      }
      if pc.SEnabled? {
        destroyed := destroyed + {g};
      }
      pc := if pc.SUnstored? then SClosed(pc.prev, pc.next)
            else if pc.FEnabled? then FClosed(pc.prev, pc.next) else Idle;
      return true;
    }

    /** found->second->enableExecutions(). */
    method EnableExecutions()
      requires Inv(Now()) && MutexFree(Now()) && (pc.FDrained? || pc.SClosed?)
      modifies `accepting, `pc
      ensures Inv(Now()) && Follows(old(Now()), Now(), true)
      ensures pc == if old(pc).FDrained? then FEnabled(old(pc).prev, old(pc).next)
                    else SEnabled(old(pc).prev, old(pc).next)
    {
      hide Inv;
      HandleIsEnabled(Now());
      AdvanceKeeps(Now(), true);
      accepting := accepting + {handle};
      pc := if pc.FDrained? then FEnabled(pc.prev, pc.next) else SEnabled(pc.prev, pc.next);
    }

    /** The entry of the handle table is replaced, or put back. */
    method SwapHandle(g: Gen)
      requires Inv(Now()) && MutexFree(Now()) && ((pc.RCancelled? && g == pc.next) || (pc.FFailed? && g == pc.prev))
      modifies `handle, `pc
      ensures Inv(Now()) && Follows(old(Now()), Now(), true)
      ensures pc == if old(pc).RCancelled? then RSwapped(old(pc).prev, old(pc).next)
                    else FRestored(old(pc).prev, old(pc).next)
    {
      hide Inv;
      AdvanceKeeps(Now(), true);
      handle := g;
      pc := if pc.RCancelled? then RSwapped(pc.prev, pc.next) else FRestored(pc.prev, pc.next);
    }

    /** load(name) inside a reload: the module is open already, so what is left is its listener. */
    method Register(ok: bool)
      requires Inv(Now()) && MutexFree(Now()) && (pc.RSwapped? || pc.FClosed?)
      modifies `listener, `destroyed, `pc
      ensures Inv(Now()) && CanAdvance(old(Now())) && Follows(old(Now()), Now(), ok)
      ensures pc == if old(pc).FClosed? then Idle
                    else if ok then SLoaded(old(pc).prev, old(pc).next) else FFailed(old(pc).prev, old(pc).next)
    {
      hide Inv;
      HandleIsRegistered(Now());
      AdvanceKeeps(Now(), ok);
      if ok {
        listener := Installed(handle);
      }
      if pc.FClosed? {
        destroyed := destroyed + {pc.next};
      }
      pc := if pc.FClosed? then Idle else if ok then SLoaded(pc.prev, pc.next) else FFailed(pc.prev, pc.next);
    }

    /** What the unload lease waits for. */
    method IsHeld(g: Gen) returns (held: bool)
      ensures held == Held(Now(), g)
    {
      held := g in queued || g in running || g in works
              || exists t :: t in threads && (threads[t].Locked? || threads[t].Leased?) && threads[t].mod == g;
    }

    /** What the removal of stored callbacks waits for. */
    method IsDispatcherIdle() returns (idle: bool)
      ensures idle == DispatcherIdle(Now())
    {
      idle := forall t :: t in threads ==> !InDispatcher(threads[t]);
    }

    // ----- unloadDirect -----

    method UnloadDirect(others: nat -> seq<Event>, closes: bool) returns (r: Progress)
      requires Inv(Now()) && pc.Idle?
      modifies this
      ensures Inv(Now())
      ensures r.Unfinished? ==> Unloading(pc)
      ensures r.Finished? ==> UnloadEnded(Now(), old(handle)) && (r.ok <==> old(handle) !in loaded)
    {
      hide Inv;
      hide AdvanceState;
      hide Follows;
      hide Held;
      hide DispatcherIdle;
      hide CanAdvance;
      hide UnloadEnded;
      AwaitMutex();
      var module' := handle;
      BeginUnload();
      Others(others(0));
      ClearListener();
      Others(others(1));
      CancelCommands();
      Others(others(2));
      DrainWork();
      Others(others(3));
      var passed := PassBarrier(module');
      if !passed {
        return Unfinished;
      }
      Others(others(4));
      passed := DrainCommands();
      if !passed {
        return Unfinished;
      }
      Others(others(5));
      passed := DestroyCallbacks();
      if !passed {
        return Unfinished;
      }
      Others(others(6));
      var ok := closes || module' !in loaded;
      ghost var before := Now();
      passed := CloseImage(module', closes);
      if !passed {
        return Unfinished;
      }
      UnloadEnds(before, Now(), closes);
      return Finished(ok);
    }

    // ----- reloadDirect -----

    /**
     prepared: a candidate was opened; registers: load(name) of the candidate succeeds; closes: the old
     image closes eagerly; restores: load(name) of the restored generation succeeds.
     */
    method ReloadDirect(others: nat -> seq<Event>, prepared: bool, registers: bool, closes: bool, restores: bool)
      returns (r: Progress)
      requires Inv(Now()) && pc.Idle?
      modifies this
      ensures Inv(Now())
      ensures r.Unfinished? ==> Reloading(pc)
      ensures r.Finished? ==> pc.Idle?
      ensures r.Finished? && old(handle) in old(loaded) && prepared ==>
                ReloadEnded(Now(), old(handle), old(nextGen), registers) && (r.ok <==> registers || restores)
      ensures old(handle) !in old(loaded) || !prepared ==>
                r == Finished(false) && handle == old(handle) && accepting == old(accepting) && loaded == old(loaded)
                && listener == old(listener) && blocked == old(blocked)
    {
      hide Inv;
      hide AdvanceState;
      hide Follows;
      hide Held;
      hide DispatcherIdle;
      hide CanAdvance;
      hide ReloadEnded;
      AwaitMutex();
      var current, replacement := handle, nextGen;
      if current !in loaded {
        return Finished(false);
      }
      BeginReload(prepared);
      if !prepared {
        return Finished(false);
      }
      Others(others(0));
      FenceAndSwap(current, replacement, others);
      AwaitMutex();
      Register(registers);
      Others(others(6));
      if registers {
        r := RetirePrevious(current, replacement, others, closes);
      } else {
        r := RestorePrevious(current, replacement, others, restores);
      }
    }

    /** Both generations stopped, no listener, the owner blocked, and then the handle replaced. */
    method FenceAndSwap(current: Gen, replacement: Gen, others: nat -> seq<Event>)
      requires Inv(Now()) && pc == RPrepared(current, replacement)
      modifies this
      ensures Inv(Now()) && pc == RSwapped(current, replacement)
    {
      hide Inv;
      hide AdvanceState;
      hide Follows;
      hide Held;
      hide DispatcherIdle;
      hide CanAdvance;
      StopExecutions(replacement);
      Others(others(1));
      StopExecutions(current);
      Others(others(2));
      ClearListener();
      Others(others(3));
      CancelCommands();
      Others(others(4));
      AwaitMutex();
      SwapHandle(replacement);
      Others(others(5));
    }

    /** After a failed registration. */
    method RestorePrevious(previous: Gen, candidate: Gen, others: nat -> seq<Event>, restores: bool)
      returns (r: Progress)
      requires Inv(Now()) && pc == FFailed(previous, candidate)
      modifies this
      ensures Inv(Now())
      ensures r.Unfinished? ==> Reloading(pc)
      ensures r.Finished? ==> pc.Idle? && ReloadEnded(Now(), previous, candidate, false) && r.ok == restores
    {
      hide Inv;
      hide AdvanceState;
      hide Follows;
      hide Held;
      hide DispatcherIdle;
      hide CanAdvance;
      hide ReloadEnded;
      AwaitMutex();
      SwapHandle(previous);
      Others(others(7));
      r := DrainRestored(previous, candidate, others, restores);
    }

    /** The restored generation stays stopped until its late deliveries and closures are gone. */
    method DrainRestored(previous: Gen, candidate: Gen, others: nat -> seq<Event>, restores: bool)
      returns (r: Progress)
      requires Inv(Now()) && pc == FRestored(previous, candidate)
      modifies this
      ensures Inv(Now())
      ensures r.Unfinished? ==> Reloading(pc)
      ensures r.Finished? ==> pc.Idle? && ReloadEnded(Now(), previous, candidate, false) && r.ok == restores
    {
      hide Inv;
      hide AdvanceState;
      hide Follows;
      hide Held;
      hide DispatcherIdle;
      hide CanAdvance;
      hide ReloadEnded;
      var passed := PassBarrier(previous);
      if !passed {
        return Unfinished;
      }
      Others(others(8));
      passed := DrainCommands();
      if !passed {
        return Unfinished;
      }
      Others(others(9));
      r := ReopenPrevious(previous, candidate, others, restores);
    }

    /** The previous generation goes on, and the candidate is closed. */
    method ReopenPrevious(previous: Gen, candidate: Gen, others: nat -> seq<Event>, restores: bool)
      returns (r: Progress)
      requires Inv(Now()) && pc == FDrained(previous, candidate)
      modifies this
      ensures Inv(Now())
      ensures r.Unfinished? ==> Reloading(pc)
      ensures r.Finished? ==> pc.Idle? && ReloadEnded(Now(), previous, candidate, false) && r.ok == restores
    {
      hide Inv;
      hide AdvanceState;
      hide Follows;
      hide Held;
      hide DispatcherIdle;
      hide CanAdvance;
      hide ReloadEnded;
      AwaitMutex();
      EnableExecutions();
      Others(others(10));
      var passed := CloseImage(candidate, true);
      if !passed {
        return Unfinished;
      }
      Others(others(11));
      AwaitMutex();
      ghost var before := Now();
      Register(restores);
      ReloadEndsHere(before, Now(), restores);
      return Finished(restores);
    }

    /** After a registration that succeeded. */
    method RetirePrevious(previous: Gen, replacement: Gen, others: nat -> seq<Event>, closes: bool)
      returns (r: Progress)
      requires Inv(Now()) && pc == SLoaded(previous, replacement)
      modifies this
      ensures Inv(Now())
      ensures r.Unfinished? ==> Reloading(pc)
      ensures r.Finished? ==> pc.Idle? && ReloadEnded(Now(), previous, replacement, true) && r.ok
    {
      hide Inv;
      hide AdvanceState;
      hide Follows;
      hide Held;
      hide DispatcherIdle;
      hide CanAdvance;
      hide ReloadEnded;
      DrainWork();
      Others(others(7));
      var passed := PassBarrier(previous);
      if !passed {
        return Unfinished;
      }
      Others(others(8));
      r := DrainPrevious(previous, replacement, others, closes);
    }

    /** The rest of the old generation's closures go. */
    method DrainPrevious(previous: Gen, replacement: Gen, others: nat -> seq<Event>, closes: bool)
      returns (r: Progress)
      requires Inv(Now()) && pc == SBarred(previous, replacement)
      modifies this
      ensures Inv(Now())
      ensures r.Unfinished? ==> Reloading(pc)
      ensures r.Finished? ==> pc.Idle? && ReloadEnded(Now(), previous, replacement, true) && r.ok
    {
      hide Inv;
      hide AdvanceState;
      hide Follows;
      hide Held;
      hide DispatcherIdle;
      hide CanAdvance;
      hide ReloadEnded;
      var passed := DrainCommands();
      if !passed {
        return Unfinished;
      }
      Others(others(9));
      passed := DestroyCallbacks();
      if !passed {
        return Unfinished;
      }
      Others(others(10));
      r := ClosePrevious(previous, replacement, others, closes);
    }

    /** The old image is closed, and the replacement let go. */
    method ClosePrevious(previous: Gen, replacement: Gen, others: nat -> seq<Event>, closes: bool)
      returns (r: Progress)
      requires Inv(Now()) && pc == SUnstored(previous, replacement)
      modifies this
      ensures Inv(Now())
      ensures r.Unfinished? ==> Reloading(pc)
      ensures r.Finished? ==> pc.Idle? && ReloadEnded(Now(), previous, replacement, true) && r.ok
    {
      hide Inv;
      hide AdvanceState;
      hide Follows;
      hide Held;
      hide DispatcherIdle;
      hide CanAdvance;
      hide ReloadEnded;
      var passed := CloseImage(previous, closes);
      if !passed {
        return Unfinished;
      }
      Others(others(11));
      AwaitMutex();
      EnableExecutions();
      Others(others(12));
      r := DropPrevious(previous, replacement);
    }

    /** The previous handle goes out of scope: its destructor closes the image at the latest. */
    method DropPrevious(previous: Gen, replacement: Gen) returns (r: Progress)
      requires Inv(Now()) && pc == SEnabled(previous, replacement)
      modifies `accepting, `loaded, `destroyed, `pc
      ensures Inv(Now())
      ensures r.Unfinished? ==> Reloading(pc)
      ensures r.Finished? ==> pc.Idle? && ReloadEnded(Now(), previous, replacement, true) && r.ok
    {
      hide Inv;
      hide AdvanceState;
      hide Follows;
      hide Held;
      hide DispatcherIdle;
      hide CanAdvance;
      hide ReloadEnded;
      ghost var before := Now();
      var passed := CloseImage(previous, true);
      if !passed {
        return Unfinished;
      }
      ReloadEndsHere(before, Now(), true);
      return Finished(true);
    }
  }

  // ----- What the operations rest on -----

  /** After an unload nobody uses the module, listens to it or is let into it. */
  ghost predicate UnloadEnded(s: State, g: Gen)
  {
    s.pc.Idle? && s.handle == g && !InUse(s, g) && s.accepting == {} && s.blocked == 0 && s.listener.NoListener?
  }

  lemma UnloadEnds(s: State, t: State, closes: bool)
    requires Inv(s) && s.pc.UUnstored? && CanAdvance(s) && Follows(s, t, closes)
    ensures UnloadEnded(t, s.pc.g)
    ensures s.pc.g !in t.loaded <==> closes || s.pc.g !in s.loaded
  {
    UnloadClosesAnUnusedImage(s, closes);
    assert Shape(s);
  }

  lemma ReloadEndsHere(s: State, t: State, ok: bool)
    requires Inv(s) && CanAdvance(s) && (s.pc.FClosed? || s.pc.SEnabled?) && Follows(s, t, ok)
    ensures ReloadEnded(t, s.pc.prev, s.pc.next, s.pc.SEnabled?)
  {
    ReloadEnds(s, ok);
  }

  /** What enableExecutions finds in the handle table is the generation that is to go on. */
  lemma HandleIsEnabled(s: State)
    requires Inv(s) && (s.pc.FDrained? || s.pc.SClosed?)
    ensures s.handle == if s.pc.FDrained? then s.pc.prev else s.pc.next
  {
  }

  /** The fields that the closing of an image changes. */
  lemma ClosedState(s: State, g: Gen, closes: bool)
    requires (s.pc.UUnstored? && g == s.pc.g) || (s.pc.SUnstored? && g == s.pc.prev)
             || (s.pc.FEnabled? && g == s.pc.next && closes) || (s.pc.SEnabled? && g == s.pc.prev && closes)
    ensures AdvanceState(s, closes) ==
            s.(accepting := s.accepting - {g}, loaded := if closes then s.loaded - {g} else s.loaded,
               destroyed := if s.pc.SEnabled? then s.destroyed + {g} else s.destroyed,
               pc := if s.pc.SUnstored? then SClosed(s.pc.prev, s.pc.next)
                     else if s.pc.FEnabled? then FClosed(s.pc.prev, s.pc.next) else Idle)
  {
  }

  lemma ImageIsOpen(s: State)
    requires Inv(s) && (s.pc.SUnstored? || s.pc.FEnabled?)
    ensures (if s.pc.SUnstored? then s.pc.prev else s.pc.next) in s.loaded
  {
  }

  lemma HandleIsRegistered(s: State)
    requires Inv(s) && (s.pc.RSwapped? || s.pc.FClosed?)
    ensures s.handle == if s.pc.RSwapped? then s.pc.next else s.pc.prev
  {
  }
}
