/**
 The table of interactive shell sessions: started, retired and cleaned up by many threads, each
 critical section being one step.  Sessions are known by numbers that are never used again.
 */
module BashSessions {
  import opened Wrappers
  import opened Sequences

  const MAX_SESSIONS: nat := 16

  type Key = int
  type Id = nat
  type ThreadId = nat

  datatype Table = Table(sessions: map<Key, Id>, retired: seq<Id>)

  /** The first critical section of startSession: the session under the key, or whether there is room for one. */
  function LookSpec(t: Table, key: Key): (Option<Id>, bool)
  {
    if key in t.sessions then (Some(t.sessions[key]), true) else (None, |t.sessions| < MAX_SESSIONS)
  }

  /** Retires what is under the key if it is still the session that was observed. */
  function RetireSeenSpec(t: Table, key: Key, expected: Id): (Table, bool)
  {
    if key in t.sessions && t.sessions[key] == expected then
      (Table(t.sessions - {key}, t.retired + [expected]), true)
    else (t, false)
  }

  /** Retires whatever is under the key. */
  function RetireKeySpec(t: Table, key: Key): (Table, bool)
  {
    if key in t.sessions then (Table(t.sessions - {key}, t.retired + [t.sessions[key]]), true) else (t, false)
  }

  /** The last critical section of startSession: both conditions are looked at again. */
  function PlaceSpec(t: Table, key: Key, session: Id): (Table, bool)
  {
    if |t.sessions| >= MAX_SESSIONS || key in t.sessions then (t.(retired := t.retired + [session]), false)
    else (t.(sessions := t.sessions[key := session]), true)
  }

  /** The two looks at the table agree: a session is placed exactly if the first look, made then, had found room. */
  lemma PlacedIfLookFoundRoom(t: Table, key: Key, session: Id)
    ensures PlaceSpec(t, key, session).1 <==> LookSpec(t, key) == (None, true)
    ensures PlaceSpec(t, key, session).1 <==> key !in t.sessions && |t.sessions| < 16
    ensures LookSpec(t, key).0.Some? ==> RetireSeenSpec(t, key, LookSpec(t, key).0.value) == RetireKeySpec(t, key)
    ensures LookSpec(PlaceSpec(t, key, session).0, key).0 ==
            if PlaceSpec(t, key, session).1 then Some(session) else LookSpec(t, key).0
  {
  }

  function Sessions(t: Table): set<Id> { set k | k in t.sessions :: t.sessions[k] }

  class InteractiveBashManager {
    var sessions: map<Key, Id>
    var retired: seq<Id>

    function State(): Table
      reads this
    {
      Table(sessions, retired)
    }

    constructor ()
      ensures State() == Table(map[], [])
    {
      sessions, retired := map[], [];
    }

    method Look(key: Key) returns (existing: Option<Id>, room: bool)
      ensures (existing, room) == LookSpec(State(), key)
    {
      existing, room := None, true;
      if key in sessions {
        existing := Some(sessions[key]);
      }
      if existing.None? && |sessions| >= MAX_SESSIONS {
        room := false;
      }
    }

    method RetireSeen(key: Key, expected: Id) returns (done: bool)
      modifies this
      ensures (State(), done) == RetireSeenSpec(old(State()), key, expected)
    {
      done := false;
      if key in sessions && sessions[key] == expected {
        retired := retired + [sessions[key]];
        sessions := sessions - {key};
        done := true;
      }
    }

    method RetireKey(key: Key) returns (done: bool)
      modifies this
      ensures (State(), done) == RetireKeySpec(old(State()), key)
    {
      if key !in sessions {
        return false;
      }
      var session := sessions[key];
      sessions := sessions - {key};
      retired := retired + [session];
      return true;
    }

    method Place(key: Key, session: Id) returns (done: bool)
      modifies this
      ensures (State(), done) == PlaceSpec(old(State()), key, session)
    {
      if |sessions| >= MAX_SESSIONS || key in sessions {
        retired := retired + [session];
        return false;
      }
      sessions := sessions[key := session];
      return true;
    }

    method GiveUp(session: Id)
      modifies this
      ensures State() == old(State()).(retired := old(retired) + [session])
    {
      retired := retired + [session];
    }

    /** Swaps the retired sessions out for cleaning. */
    method TakeRetired() returns (taken: seq<Id>)
      modifies this
      ensures taken == old(retired) && State() == old(State()).(retired := [])
    {
      taken, retired := retired, [];
    }

    /** Shutdown swaps out everything. */
    method TakeAll() returns (active: map<Key, Id>, taken: seq<Id>)
      modifies this
      ensures active == old(sessions) && taken == old(retired) && State() == Table(map[], [])
    {
      active, sessions := sessions, map[];
      taken, retired := retired, [];
    }
  }

  // ----- The protocol -----

  datatype State = State(
    table: Table,
    starting: map<ThreadId, (Key, Id)>,   // started, not yet placed
    observed: map<ThreadId, (Key, Id)>,   // seen under a key by a thread that may retire it
    taken: set<Id>,                       // swapped out for cleaning
    next: Id)                             // sessions below have been started

  datatype Event =
    | Observe(t: ThreadId, key: Key)      // startSession, executeCommand or the snapshot of expireIdle
    | RetireObserved(t: ThreadId)         // stopped, idle or failed: retire it if it is still there
    | Started(t: ThreadId, key: Key)      // BashSession::start succeeded
    | GiveUp(t: ThreadId)                 // deadline or stop seen after the start
    | Place(t: ThreadId)
    | RetireKey(key: Key)
    | TakeRetired                         // the reaper
    | TakeAll                             // shutdown

  predicate Enabled(s: State, e: Event)
  {
    match e
    case Observe(t, key) => key in s.table.sessions
    case RetireObserved(t) => t in s.observed
    case Started(t, _) => t !in s.starting
    case GiveUp(t) => t in s.starting
    case Place(t) => t in s.starting
    case RetireKey(_) => true
    case TakeRetired => true
    case TakeAll => true
  }

  function Step(s: State, e: Event): State
    requires Enabled(s, e)
  {
    match e
    case Observe(t, key) => s.(observed := s.observed[t := (key, s.table.sessions[key])])
    case RetireObserved(t) =>
      s.(table := RetireSeenSpec(s.table, s.observed[t].0, s.observed[t].1).0, observed := s.observed - {t})
    case Started(t, key) => s.(starting := s.starting[t := (key, s.next)], next := s.next + 1)
    case GiveUp(t) =>
      s.(table := s.table.(retired := s.table.retired + [s.starting[t].1]), starting := s.starting - {t})
    case Place(t) => s.(table := PlaceSpec(s.table, s.starting[t].0, s.starting[t].1).0, starting := s.starting - {t})
    case RetireKey(key) => s.(table := RetireKeySpec(s.table, key).0)
    case TakeRetired => s.(table := s.table.(retired := []), taken := s.taken + Members(s.table.retired))
    case TakeAll =>
      s.(table := Table(map[], []), taken := s.taken + Members(s.table.retired) + Sessions(s.table))
  }

  const INIT: State := State(Table(map[], []), map[], map[], {}, 0)

  ghost predicate Run(s: State, es: seq<Event>)
    decreases |es|
  {
    es == [] || (Enabled(s, es[0]) && Run(Step(s, es[0]), es[1..]))
  }

  function After(s: State, es: seq<Event>): State
    requires Run(s, es)
    decreases |es|
  {
    if es == [] then s else After(Step(s, es[0]), es[1..])
  }

  // ----- Where a session is -----

  ghost predicate InStarting(s: State, id: Id) { exists t :: t in s.starting && s.starting[t].1 == id }

  ghost predicate InTable(s: State, id: Id) { exists k :: k in s.table.sessions && s.table.sessions[k] == id }

  predicate InRetired(s: State, id: Id) { id in s.table.retired }

  predicate IsTaken(s: State, id: Id) { id in s.taken }

  function One(b: bool): nat { if b then 1 else 0 }

  /** In how many of the four places a session is. */
  ghost function Places(s: State, id: Id): nat
  {
    One(InStarting(s, id)) + One(InTable(s, id)) + One(InRetired(s, id)) + One(IsTaken(s, id))
  }

  /** No place holds a session twice. */
  ghost predicate NoneTwice(s: State)
  {
    && Distinct(s.table.retired)
    && (forall k, l :: k in s.table.sessions && l in s.table.sessions && k != l ==>
                         s.table.sessions[k] != s.table.sessions[l])
    && (forall t, u :: t in s.starting && u in s.starting && t != u ==> s.starting[t].1 != s.starting[u].1)
  }

  ghost predicate Conserved(s: State)
  {
    && (forall id: Id :: Places(s, id) == One(id < s.next))
    && NoneTwice(s)
    && |s.table.sessions| <= MAX_SESSIONS
  }

  /** One session moves out of the table, out of a thread's hands, or out of nothing. */
  lemma LeavesTable(s: State, key: Key, id: Id)
    requires Conserved(s) && key in s.table.sessions
    ensures
      var s' := s.(table := Table(s.table.sessions - {key}, s.table.retired));
      InTable(s', id) <==> InTable(s, id) && id != s.table.sessions[key]
  {
    var s' := s.(table := Table(s.table.sessions - {key}, s.table.retired));
    if InTable(s, id) && id != s.table.sessions[key] {
      var k :| k in s.table.sessions && s.table.sessions[k] == id;
      assert k in s'.table.sessions;
    }
  }

  lemma LeavesStarting(s: State, t: ThreadId, id: Id)
    requires Conserved(s) && t in s.starting
    ensures InStarting(s.(starting := s.starting - {t}), id) <==> InStarting(s, id) && id != s.starting[t].1
  {
    if InStarting(s, id) && id != s.starting[t].1 {
      var u :| u in s.starting && s.starting[u].1 == id;
      assert u in s.starting - {t};
    }
  }

  lemma RetireKeeps(s: State, key: Key)
    requires Conserved(s) && key in s.table.sessions
    ensures Conserved(s.(table := RetireKeySpec(s.table, key).0))
  {
    var s' := s.(table := RetireKeySpec(s.table, key).0);
    var gone := s.table.sessions[key];
    assert InTable(s, gone);
    assert Places(s, gone) == 1;
    forall id: Id ensures Places(s', id) == One(id < s'.next) {
      LeavesTable(s, key, id);
      assert Places(s, id) == One(id < s.next);
      assert InStarting(s', id) <==> InStarting(s, id);
      assert InTable(s', id) <==> InTable(s, id) && id != gone;
    }
    DistinctAppend(s.table.retired, gone);
    assert |s'.table.sessions| < |s.table.sessions| by {
      assert s.table.sessions.Keys == s'.table.sessions.Keys + {key};
    }
  }

  lemma StartedKeeps(s: State, t: ThreadId, key: Key)
    requires Conserved(s) && t !in s.starting
    ensures Conserved(Step(s, Started(t, key)))
  {
    var s' := Step(s, Started(t, key));
    forall id: Id ensures Places(s', id) == One(id < s'.next) {
      assert Places(s, id) == One(id < s.next);
      assert InTable(s', id) <==> InTable(s, id);
      if InStarting(s, id) {
        var u :| u in s.starting && s.starting[u].1 == id;
        assert u in s'.starting && s'.starting[u].1 == id;
      }
      assert t in s'.starting && s'.starting[t].1 == s.next;
      assert InStarting(s', id) <==> InStarting(s, id) || id == s.next;
    }
    forall u | u in s.starting ensures s.starting[u].1 != s.next {
      assert InStarting(s, s.starting[u].1);
      assert Places(s, s.starting[u].1) == One(s.starting[u].1 < s.next);
    }
  }

  /** A thread gives its session away, to the retired ones or to the table. */
  lemma HandsOver(s: State, t: ThreadId, s': State)
    requires Conserved(s) && t in s.starting
    requires s'.starting == s.starting - {t} && s'.taken == s.taken && s'.next == s.next
    requires
      || s'.table == s.table.(retired := s.table.retired + [s.starting[t].1])
      || (s.starting[t].0 !in s.table.sessions && |s.table.sessions| < MAX_SESSIONS
          && s'.table == s.table.(sessions := s.table.sessions[s.starting[t].0 := s.starting[t].1]))
    ensures Conserved(s')
  {
    var (key, mine) := s.starting[t];
    assert InStarting(s, mine);
    assert Places(s, mine) == 1;
    var placed := s'.table.retired == s.table.retired;
    forall id: Id ensures Places(s', id) == One(id < s'.next) {
      LeavesStarting(s, t, id);
      assert Places(s, id) == One(id < s.next);
      assert InStarting(s', id) <==> InStarting(s, id) && id != mine;
      TableGains(s, s', key, mine, id);
    }
    DistinctAppend(s.table.retired, mine);
    forall k | k in s.table.sessions ensures s.table.sessions[k] != mine {
      assert InTable(s, s.table.sessions[k]);
    }
  }

  lemma TableGains(s: State, s': State, key: Key, mine: Id, id: Id)
    requires
      || s'.table == s.table.(retired := s.table.retired + [mine])
      || (key !in s.table.sessions && s'.table == s.table.(sessions := s.table.sessions[key := mine]))
    requires !InTable(s, mine) && !InRetired(s, mine)
    ensures One(InTable(s', id)) + One(InRetired(s', id))
            == One(InTable(s, id)) + One(InRetired(s, id)) + One(id == mine)
  {
    if s'.table == s.table.(retired := s.table.retired + [mine]) {
      assert InTable(s', id) <==> InTable(s, id);
    } else {
      if InTable(s, id) {
        var k :| k in s.table.sessions && s.table.sessions[k] == id;
        assert k in s'.table.sessions && s'.table.sessions[k] == id;
      }
      assert key in s'.table.sessions && s'.table.sessions[key] == mine;
      assert InTable(s', id) <==> InTable(s, id) || id == mine;
    }
  }

  lemma ValuesAreTabled(s: State, id: Id)
    ensures id in Sessions(s.table) <==> InTable(s, id)
  {
  }

  lemma TakeKeeps(s: State, e: Event)
    requires Conserved(s) && (e.TakeRetired? || e.TakeAll?)
    ensures Conserved(Step(s, e))
  {
    var s' := Step(s, e);
    forall id: Id ensures Places(s', id) == One(id < s'.next) {
      assert Places(s, id) == One(id < s.next);
      assert InStarting(s', id) <==> InStarting(s, id);
      ValuesAreTabled(s, id);
      if e.TakeRetired? {
        assert InTable(s', id) <==> InTable(s, id);
      }
    }
  }

  lemma StepKeeps(s: State, e: Event)
    requires Conserved(s) && Enabled(s, e)
    ensures Conserved(Step(s, e))
  {
    var s' := Step(s, e);
    match e
    case Observe(_, _) => SamePlaces(s, s');
    case RetireObserved(t) =>
      var (key, id) := s.observed[t];
      if key in s.table.sessions && s.table.sessions[key] == id {
        RetireKeeps(s, key);
        SamePlaces(s.(table := RetireKeySpec(s.table, key).0), s');
      } else {
        SamePlaces(s, s');
      }
    case Started(t, key) => StartedKeeps(s, t, key);
    case GiveUp(t) => HandsOver(s, t, s');
    case Place(t) => HandsOver(s, t, s');
    case RetireKey(key) =>
      if key in s.table.sessions {
        RetireKeeps(s, key);
      }
    case TakeRetired => TakeKeeps(s, e);
    case TakeAll => TakeKeeps(s, e);
  }

  lemma SamePlaces(s: State, s': State)
    requires Conserved(s)
    requires s'.table == s.table && s'.starting == s.starting && s'.taken == s.taken && s'.next == s.next
    ensures Conserved(s')
  {
    forall id: Id ensures Places(s', id) == One(id < s'.next) {
      assert Places(s, id) == One(id < s.next);
      assert InStarting(s', id) <==> InStarting(s, id);
      assert InTable(s', id) <==> InTable(s, id);
    }
  }

  /**
   Conservation over every run: each started session is in exactly one place, held by the thread
   that starts it, in the table, retired or taken for cleaning, and never more than 16 are in the table.
   */
  lemma {:induction false} SessionsAreConserved(s: State, es: seq<Event>)
    requires Conserved(s) && Run(s, es)
    ensures Conserved(After(s, es))
    decreases |es|
  {
    if es != [] {
      StepKeeps(s, es[0]);
      SessionsAreConserved(Step(s, es[0]), es[1..]);
    }
  }

  lemma InitIsConserved()
    ensures Conserved(INIT)
  {
    forall id: Id ensures Places(INIT, id) == One(id < INIT.next) {
    }
  }

  // ----- Retirement -----

  /** Retiring an observed session takes that session or nothing off the table, and leaves all others in place. */
  lemma OnlyTheObservedIsRetired(s: State, t: ThreadId, key: Key)
    requires t in s.observed && key in s.table.sessions
    ensures
      var s' := Step(s, RetireObserved(t));
      key in s'.table.sessions <==> (key, s.table.sessions[key]) != s.observed[t]
    ensures
      var s' := Step(s, RetireObserved(t));
      key in s'.table.sessions ==> s'.table.sessions[key] == s.table.sessions[key]
  {
  }

  /** A session enters the table only from the thread that started it. */
  lemma EntersFromStart(s: State, e: Event, id: Id)
    requires Enabled(s, e) && id < s.next
    ensures InStarting(Step(s, e), id) ==> InStarting(s, id)
    ensures InTable(Step(s, e), id) ==> InTable(s, id) || InStarting(s, id)
  {
    var s' := Step(s, e);
    if t :| t in s'.starting && s'.starting[t].1 == id {
      assert t in s.starting && s.starting[t].1 == id;
    }
    if k :| k in s'.table.sessions && s'.table.sessions[k] == id {
      if k !in s.table.sessions || s.table.sessions[k] != id {
        assert e.Place? && s.starting[e.t].1 == id;
      }
    }
  }

  /** A session that has left the table, or has been given up, never comes back to it. */
  lemma {:induction false} GoneIsGone(s: State, es: seq<Event>, id: Id)
    requires Run(s, es) && id < s.next && !InTable(s, id) && !InStarting(s, id)
    ensures !InTable(After(s, es), id) && !InStarting(After(s, es), id)
    decreases |es|
  {
    if es != [] {
      EntersFromStart(s, es[0], id);
      GoneIsGone(Step(s, es[0]), es[1..], id);
    }
  }

  lemma {:induction false} NotStartedAgain(s: State, es: seq<Event>, id: Id)
    requires Run(s, es) && id < s.next && !InStarting(s, id)
    ensures !InStarting(After(s, es), id) && id < After(s, es).next
    decreases |es|
  {
    if es != [] {
      EntersFromStart(s, es[0], id);
      NotStartedAgain(Step(s, es[0]), es[1..], id);
    }
  }

  /**
   A thread observes a session; meanwhile that session leaves the table and any others come and go
   under the key.  When the thread then retires what it observed, whatever is in the table stays.
   */
  lemma NewerSessionsSurvive(s: State, es: seq<Event>, fs: seq<Event>, t: ThreadId, key: Key)
    requires Conserved(s) && key in s.table.sessions
    requires Run(s, es) && !InTable(After(s, es), s.table.sessions[key]) && Run(After(s, es), fs)
    requires
      var end := After(After(s, es), fs);
      t in end.observed && end.observed[t] == (key, s.table.sessions[key])
    ensures
      var end := After(After(s, es), fs);
      Step(end, RetireObserved(t)).table == end.table
  {
    var id := s.table.sessions[key];
    assert InTable(s, id);
    assert Places(s, id) == One(id < s.next);
    NotStartedAgain(s, es, id);
    GoneIsGone(After(s, es), fs, id);
  }

  /** After shutdown has swapped everything out, every session not in a starting thread's hands is taken. */
  lemma ShutdownTakesTheRest(s: State, id: Id)
    requires Conserved(s) && id < s.next && !InStarting(s, id)
    ensures IsTaken(Step(s, TakeAll), id)
  {
    assert Places(s, id) == 1;
    ValuesAreTabled(s, id);
  }
}
