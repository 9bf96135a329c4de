/** What every run of database operations keeps, whatever the file system does. */
module SnapshotTheorems {
  import opened Wrappers
  import opened Sequences
  import opened SnapshotDatabase

  // ----- Runs -----

  /** A public operation with its arguments; disk is whether a write of its snapshot would succeed. */
  datatype Op =
    | AddUser(t: ListType, user: UserId, disk: bool)
    | RemoveUser(t: ListType, user: UserId, disk: bool)
    | AddMedia(m: Media, disk: bool)
    | DeleteMedia(mediaId: string, disk: bool)
    | AddChat(c: Chat, disk: bool)
    | DeleteChat(id: ChatId, disk: bool)
    | ClaimOwner(user: UserId, disk: bool)
    | Load(path: string)
    | Unload(disk: bool)

  /** deleteMediaInfo is the one operation that must not be called without a loaded database. */
  predicate Callable(s: State, op: Op) { op.DeleteMedia? ==> s.info.Some? }

  function Apply(s: State, op: Op): (State, Outcome)
    requires Callable(s, op)
  {
    match op
    case AddUser(t, user, disk) => AddUserSpec(s, t, user, disk)
    case RemoveUser(t, user, disk) => RemoveUserSpec(s, t, user, disk)
    case AddMedia(m, disk) => AddMediaSpec(s, m, disk)
    case DeleteMedia(mediaId, disk) => DeleteMediaSpec(s, mediaId, disk)
    case AddChat(c, disk) => AddChatSpec(s, c, disk)
    case DeleteChat(id, disk) => DeleteChatSpec(s, id, disk)
    case ClaimOwner(user, disk) => ClaimOwnerSpec(s, user, disk)
    case Load(path) => LoadSpec(s, path)
    case Unload(disk) => UnloadSpec(s, disk)
  }

  predicate Mutator(op: Op) { !op.Load? && !op.Unload? }

  ghost predicate Run(s: State, ops: seq<Op>)
    decreases |ops|
  {
    ops == [] || (Callable(s, ops[0]) && Run(Apply(s, ops[0]).0, ops[1..]))
  }

  function After(s: State, ops: seq<Op>): State
    requires Run(s, ops)
    decreases |ops|
  {
    if ops == [] then s else After(Apply(s, ops[0]).0, ops[1..])
  }

  // ----- What is kept -----

  /** The two lists are duplicate-free and disjoint, the owner is not blacklisted, and keys are unique. */
  ghost predicate Sound(db: Database)
  {
    && Distinct(Ids(db.whitelist)) && Distinct(Ids(db.blacklist))
    && (forall u :: u in Ids(db.whitelist) ==> u !in Ids(db.blacklist))
    && (db.owner.Some? ==> db.owner.value !in Ids(db.blacklist))
    && Distinct(UniqueIds(db.media)) && Distinct(ChatIds(db.chats))
  }

  /** The same contents: set but empty lists count as unset ones. */
  predicate SameContents(a: Database, b: Database)
  {
    && a.owner == b.owner && a.media == b.media && a.chats == b.chats
    && Ids(a.whitelist) == Ids(b.whitelist) && Ids(a.blacklist) == Ids(b.blacklist)
  }

  /** What a load of this file gives. */
  function Contents(f: File): Database
    requires !f.Garbage?
  {
    if f.Snapshot? then f.db else EMPTY
  }

  /** The snapshot on disk is the database in memory. */
  predicate Agrees(s: State)
  {
    s.info.Some? && s.info.value.path != IN_MEMORY ==>
      var f := FileAt(s, s.info.value.path);
      !f.Garbage? && SameContents(s.info.value.data, Contents(f))
  }

  ghost predicate Good(s: State)
  {
    && Agrees(s)
    && (s.info.Some? ==> Sound(s.info.value.data))
    && forall p :: p in s.disk && s.disk[p].Snapshot? ==> Sound(s.disk[p].db)
  }

  lemma DropKeeps<T>(list: seq<T>, i: nat)
    requires i < |list| && Distinct(list)
    ensures Distinct(Drop(list, i))
    ensures forall x :: x in Drop(list, i) ==> x in list && x != list[i]
    ensures forall x :: x in list && x != list[i] ==> x in Drop(list, i)
  {
    var short := Drop(list, i);
    assert forall k :: 0 <= k < |short| ==> short[k] == if k < i then list[k] else list[k + 1];
    forall x | x in list && x != list[i] ensures x in short {
      var k :| 0 <= k < |list| && list[k] == x;
      assert short[if k < i then k else k - 1] == x;
    }
  }

  lemma CommitKeeps(s: State, db: Database)
    requires Good(s) && s.info.Some? && Sound(db)
    ensures Good(Committed(s, db))
  {
  }

  lemma TouchKeeps(s: State, t: ListType)
    requires Good(s) && s.info.Some?
    ensures
      var db := s.info.value.data;
      Good(WithObject(s, WithIds(db, t, Ids(ListOf(db, t)))))
  {
  }

  lemma ListChangeIsSound(db: Database, t: ListType, user: UserId)
    requires Sound(db)
    ensures
      var mine := Ids(ListOf(db, t));
      && (user in mine ==> Sound(WithIds(db, t, Drop(mine, Find(mine, user)))))
      && (user !in mine && user !in Ids(ListOf(db, Other(t))) && !(t == Blacklist && db.owner == Some(user)) ==>
            Sound(WithIds(db, t, mine + [user])))
  {
    var mine := Ids(ListOf(db, t));
    if user in mine {
      DropKeeps(mine, Find(mine, user));
    } else {
      DistinctAppend(mine, user);
    }
  }

  lemma EntryChangeIsSound(db: Database, m: Media, c: Chat, i: nat)
    requires Sound(db)
    ensures m.uniqueId !in UniqueIds(db.media) ==> Sound(db.(media := db.media + [m]))
    ensures i < |db.media| ==> Sound(db.(media := Drop(db.media, i)))
    ensures c.id !in ChatIds(db.chats) ==> Sound(db.(chats := db.chats + [c]))
    ensures i < |db.chats| ==> Sound(db.(chats := Drop(db.chats, i)))
  {
    assert UniqueIds(db.media + [m]) == UniqueIds(db.media) + [m.uniqueId];
    assert ChatIds(db.chats + [c]) == ChatIds(db.chats) + [c.id];
    if i < |db.media| {
      assert UniqueIds(Drop(db.media, i)) == Drop(UniqueIds(db.media), i);
      DropKeeps(UniqueIds(db.media), i);
    }
    if i < |db.chats| {
      assert ChatIds(Drop(db.chats, i)) == Drop(ChatIds(db.chats), i);
      DropKeeps(ChatIds(db.chats), i);
    }
  }

  lemma ListStepKeeps(s: State, op: Op)
    requires Good(s) && s.info.Some? && (op.AddUser? || op.RemoveUser?)
    ensures Good(Apply(s, op).0)
  {
    var db := s.info.value.data;
    var mine := Ids(ListOf(db, op.t));
    TouchKeeps(s, op.t);
    ListChangeIsSound(db, op.t, op.user);
    if Apply(s, op).1 == Done {
      CommitKeeps(s, WithIds(db, op.t, if op.AddUser? then mine + [op.user] else Drop(mine, Find(mine, op.user))));
    }
  }

  lemma EntryStepKeeps(s: State, op: Op)
    requires Good(s) && s.info.Some? && (op.AddMedia? || op.DeleteMedia? || op.AddChat? || op.DeleteChat?)
    ensures Good(Apply(s, op).0)
  {
    var db := s.info.value.data;
    var m := if op.AddMedia? then op.m else Media("", "", 0, []);
    var c := if op.AddChat? then op.c else Chat(0, "");
    EntryChangeIsSound(db, m, c, if op.DeleteMedia? then Find(MediaIds(db.media), op.mediaId)
                                 else if op.DeleteChat? then Find(ChatIds(db.chats), op.id) else 0);
    if Apply(s, op).1 == Done {
      CommitKeeps(s, Apply(s, op).0.info.value.data);
    }
  }

  lemma StepKeeps(s: State, op: Op)
    requires Good(s) && Callable(s, op)
    ensures Good(Apply(s, op).0)
  {
    if s.info.Some? {
      match op
      case AddUser(_, _, _) => ListStepKeeps(s, op);
      case RemoveUser(_, _, _) => ListStepKeeps(s, op);
      case AddMedia(_, _) => EntryStepKeeps(s, op);
      case DeleteMedia(_, _) => EntryStepKeeps(s, op);
      case AddChat(_, _) => EntryStepKeeps(s, op);
      case DeleteChat(_, _) => EntryStepKeeps(s, op);
      case ClaimOwner(_, _) =>
      case Load(_) =>
      case Unload(_) => CommitKeeps(s, s.info.value.data);
    }
  }

  /**
   Over every run, with any writes failing: memory and snapshot agree, the access lists stay
   duplicate-free and disjoint, and no owner is blacklisted.
   */
  lemma {:induction false} RunKeeps(s: State, ops: seq<Op>)
    requires Good(s) && Run(s, ops)
    ensures Good(After(s, ops))
    decreases |ops|
  {
    if ops != [] {
      StepKeeps(s, ops[0]);
      RunKeeps(Apply(s, ops[0]).0, ops[1..]);
    }
  }

  // ----- One operation -----

  /** A change that is reported done is on disk as it is in memory. */
  lemma DoneIsOnDisk(s: State, op: Op)
    requires Callable(s, op) && Mutator(op) && Apply(s, op).1 == Done
    ensures
      var s' := Apply(s, op).0;
      && s.info.Some? && s'.info.Some? && s'.info.value.path == s.info.value.path
      && (s.info.value.path != IN_MEMORY ==> FileAt(s', s.info.value.path) == Snapshot(s'.info.value.data))
      && forall p :: p != s.info.value.path ==> FileAt(s', p) == FileAt(s, p)
  {
  }

  /** The operation asked for a list to change that was never set, and then changed nothing. */
  predicate TouchesUnsetList(s: State, op: Op)
  {
    && s.info.Some?
    && ((op.RemoveUser? && ListOf(s.info.value.data, op.t).Unset?)
        || (op.AddUser? && ListOf(s.info.value.data, op.t).Unset?
            && !(op.t == Blacklist && s.info.value.data.owner == Some(op.user))
            && op.user !in Ids(ListOf(s.info.value.data, Other(op.t)))))
  }

  /**
   A change that is refused leaves the disk and the contents in memory as they were.  The object
   itself changes exactly when a list that was never set was asked for, and then only by that list
   now being set and empty, which the snapshot on disk does not have.
   */
  lemma RefusedChangesNothing(s: State, op: Op)
    requires Callable(s, op) && Mutator(op) && Apply(s, op).1 != Done
    ensures
      var s' := Apply(s, op).0;
      && s'.disk == s.disk
      && (s.info.None? ==> s' == s)
      && (s.info.Some? ==> s'.info.Some? && s'.info.value.path == s.info.value.path
                           && SameContents(s'.info.value.data, s.info.value.data))
      && (s' != s <==> TouchesUnsetList(s, op))
  {
    if s.info.Some? && (op.AddUser? || op.RemoveUser?) {
      var db := s.info.value.data;
      assert ListOf(db, op.t).Set? ==> WithIds(db, op.t, Ids(ListOf(db, op.t))) == db;
      assert ListOf(db, op.t).Unset? ==> WithIds(db, op.t, []) != db;
    }
  }

  /** So after such a refusal the object in memory is not, field for field, the one on disk. */
  lemma SnapshotCanLackAnEmptyList()
    ensures
      var s := State(None, map[]);
      var ops := [Load("db"), ClaimOwner(1, true), RemoveUser(Whitelist, 7, true)];
      && Good(s) && Run(s, ops)
      && After(s, ops).info.Some?
      && FileAt(After(s, ops), "db") == Snapshot(Database(Some(1), Unset, Unset, [], []))
      && After(s, ops).info.value.data == Database(Some(1), Set([]), Unset, [], [])
  {
    var s := State(None, map[]);
    var o3 := [RemoveUser(Whitelist, 7, true)];
    var o2 := [ClaimOwner(1, true)] + o3;
    var o1 := [Load("db")] + o2;
    var s1 := Apply(s, o1[0]).0;
    var s2 := Apply(s1, o2[0]).0;
    var s3 := Apply(s2, o3[0]).0;
    assert o1[1..] == o2 && o2[1..] == o3 && o3[1..] == [];
    assert Run(s3, []) && Run(s2, o3) && After(s2, o3) == s3;
    assert Run(s1, o2) && After(s1, o2) == s3;
    assert Run(s, o1) && After(s, o1) == s3;
    assert o1 == [Load("db"), ClaimOwner(1, true), RemoveUser(Whitelist, 7, true)];
  }

  /**
   Unloading and loading again gives back the same object, field for field, exactly unless it was an
   in-memory database that is not empty.
   */
  lemma UnloadThenLoad(s: State, disk: bool)
    requires s.info.Some? && UnloadSpec(s, disk).1 == Done
    ensures
      var path := s.info.value.path;
      var s' := LoadSpec(UnloadSpec(s, disk).0, path).0;
      && LoadSpec(UnloadSpec(s, disk).0, path).1 == Done
      && (s'.info == s.info <==> path != IN_MEMORY || s.info.value.data == EMPTY)
  {
  }

  /** A load succeeds exactly if nothing is loaded and the file can be read, and gives what is in the file. */
  lemma LoadGivesTheFile(s: State, path: string)
    ensures
      var (s', r) := LoadSpec(s, path);
      && s'.disk == s.disk
      && (r == Done <==> s.info == None && (path == IN_MEMORY || FileAt(s, path) != Garbage))
      && (r == Done ==> s'.info == Some(Info(if path == IN_MEMORY then EMPTY else Contents(FileAt(s, path)), path)))
      && (r != Done ==> s' == s)
  {
  }

  /** An unload succeeds exactly if something is loaded and its write succeeds, and leaves that in the file. */
  lemma UnloadWritesTheFile(s: State, disk: bool)
    ensures
      var (s', r) := UnloadSpec(s, disk);
      && (r == Done <==> s.info.Some? && Writes(s, disk))
      && (r != Done ==> s' == s)
      && (r == Done ==>
            && s'.info == None
            && (s.info.value.path != IN_MEMORY ==> FileAt(s', s.info.value.path) == Snapshot(s.info.value.data))
            && forall p :: p != s.info.value.path ==> FileAt(s', p) == FileAt(s, p))
  {
  }

  /** Taking a user off a list again undoes putting it on: the lists, the disk and the rest are as before. */
  lemma RemoveUndoesAdd(s: State, t: ListType, user: UserId)
    requires AddUserSpec(s, t, user, true).1 == Done
    ensures
      var added := AddUserSpec(s, t, user, true).0;
      && RemoveUserSpec(added, t, user, true).1 == Done
      && SameContents(RemoveUserSpec(added, t, user, true).0.info.value.data, s.info.value.data)
  {
    var mine := Ids(ListOf(s.info.value.data, t));
    var longer := mine + [user];
    assert longer[..|mine|] == mine;
    FindIs(longer, user, |mine|);
    assert Drop(longer, |mine|) == mine;
  }

  /**
   Adding says what checking said: it succeeds, the write succeeding, exactly for a user that is on neither
   list and, for the blacklist, is not the owner; afterwards the check finds the user, and everybody else
   where they were.
   */
  lemma AddAgreesWithCheck(s: State, t: ListType, user: UserId, disk: bool)
    requires Good(s) && s.info.Some?
    ensures
      var (s', r) := AddUserSpec(s, t, user, disk);
      && r == (if t == Blacklist && s.info.value.data.owner == Some(user) then AlreadyInOtherList
               else if CheckUserSpec(s, t, user) == Done then AlreadyInList
               else if CheckUserSpec(s, t, user) == AlreadyInOtherList then AlreadyInOtherList
               else if Writes(s, disk) then Done else BackendError)
      && (r == Done ==> CheckUserSpec(s', t, user) == Done)
      && (r == Done ==> CheckUserSpec(s', Other(t), user) == AlreadyInOtherList)
      && (r == Done ==> Ids(ListOf(s'.info.value.data, t)) == Ids(ListOf(s.info.value.data, t)) + [user])
      && (forall v, l :: v != user ==> CheckUserSpec(s', l, v) == CheckUserSpec(s, l, v))
  {
    assert Other(Other(t)) == t;
    if AddUserSpec(s, t, user, disk).1 == Done {
      var mine := Ids(ListOf(s.info.value.data, t));
      assert (mine + [user])[|mine|] == user;
    }
  }

  /** One element was taken out of a list: those before it and those behind it are as they were. */
  predicate WithoutOne<T(==)>(before: seq<T>, after: seq<T>, i: nat)
  {
    i < |before| && after == before[..i] + before[i + 1..]
  }

  /**
   Removing is for the user who was asked for: it succeeds exactly if the check finds that user on that
   list and the write succeeds. Then the check finds the user on neither list and everybody else where they
   were, the list has lost one entry, that user's, with the others in order, and the rest is as it was.
   */
  lemma RemovalTakesTheUser(s: State, t: ListType, user: UserId, disk: bool)
    requires Good(s) && s.info.Some?
    ensures RemoveUserSpec(s, t, user, disk).1 == Done <==> CheckUserSpec(s, t, user) == Done && Writes(s, disk)
    ensures RemoveUserSpec(s, t, user, disk).1 == NotInList <==> CheckUserSpec(s, t, user) != Done
    ensures RemoveUserSpec(s, t, user, disk).1 == Done ==>
      var s' := RemoveUserSpec(s, t, user, disk).0;
      var db, db' := s.info.value.data, s'.info.value.data;
      && CheckUserSpec(s', t, user) == CheckUserSpec(s', Other(t), user) == NotInList
      && (forall v, l :: v != user ==> CheckUserSpec(s', l, v) == CheckUserSpec(s, l, v))
      && (exists i: nat :: WithoutOne(Ids(ListOf(db, t)), Ids(ListOf(db', t)), i) && Ids(ListOf(db, t))[i] == user)
      && ListOf(db', Other(t)) == ListOf(db, Other(t))
      && db'.owner == db.owner && db'.media == db.media && db'.chats == db.chats
  {
    var mine := Ids(ListOf(s.info.value.data, t));
    if user in mine {
      var i := Find(mine, user);
      DropKeeps(mine, i);
      assert WithoutOne(mine, Drop(mine, i), i);
    }
  }

  /** A new media entry, if its key is free, comes behind the others, and nothing else changes. */
  lemma NewMediaComesLast(s: State, m: Media, disk: bool)
    requires s.info.Some?
    ensures
      var (s', r) := AddMediaSpec(s, m, disk);
      var db := s.info.value.data;
      && (r == Done <==> (forall i :: 0 <= i < |db.media| ==> db.media[i].uniqueId != m.uniqueId) && Writes(s, disk))
      && (r == Done ==> s'.info.value.data == db.(media := db.media + [m]))
  {
    var ids := UniqueIds(s.info.value.data.media);
    assert forall i :: 0 <= i < |ids| ==> ids[i] == s.info.value.data.media[i].uniqueId;
  }

  lemma NewChatComesLast(s: State, c: Chat, disk: bool)
    requires s.info.Some?
    ensures
      var (s', r) := AddChatSpec(s, c, disk);
      var db := s.info.value.data;
      && (r == Done <==> (forall i :: 0 <= i < |db.chats| ==> db.chats[i].id != c.id) && Writes(s, disk))
      && (r == Done ==> s'.info.value.data == db.(chats := db.chats + [c]))
  {
    var ids := ChatIds(s.info.value.data.chats);
    assert forall i :: 0 <= i < |ids| ==> ids[i] == s.info.value.data.chats[i].id;
  }

  /** Deleting takes out the first entry with the key and no other; the others stay in order. */
  lemma FirstMediaOfTheKeyGoes(s: State, mediaId: string, disk: bool)
    requires s.info.Some?
    ensures
      var (s', r) := DeleteMediaSpec(s, mediaId, disk);
      var media := s.info.value.data.media;
      && (r == Done <==> (exists i :: 0 <= i < |media| && media[i].mediaId == mediaId) && Writes(s, disk))
      && (r == Done ==>
            && s'.info.value.data == s.info.value.data.(media := s'.info.value.data.media)
            && exists i: nat :: WithoutOne(media, s'.info.value.data.media, i) && media[i].mediaId == mediaId
                           && forall j :: 0 <= j < i ==> media[j].mediaId != mediaId)
  {
    var media := s.info.value.data.media;
    var ids := MediaIds(media);
    var i := Find(ids, mediaId);
    assert forall j :: 0 <= j < |media| ==> ids[j] == media[j].mediaId;
    assert forall j :: 0 <= j < i ==> ids[..i][j] == ids[j] && ids[j] != mediaId;
    if i < |media| {
      assert WithoutOne(media, Drop(media, i), i);
    }
  }

  /** In a good database a chat's id is then gone altogether. */
  lemma ChatOfTheIdGoes(s: State, id: ChatId, disk: bool)
    requires Good(s) && s.info.Some?
    ensures
      var (s', r) := DeleteChatSpec(s, id, disk);
      var chats := s.info.value.data.chats;
      && (r == Done <==> (exists i :: 0 <= i < |chats| && chats[i].id == id) && Writes(s, disk))
      && (r == Done ==>
            && s'.info.value.data == s.info.value.data.(chats := s'.info.value.data.chats)
            && (exists i: nat :: WithoutOne(chats, s'.info.value.data.chats, i) && chats[i].id == id)
            && forall j :: 0 <= j < |s'.info.value.data.chats| ==> s'.info.value.data.chats[j].id != id)
  {
    var chats := s.info.value.data.chats;
    var ids := ChatIds(chats);
    var i := Find(ids, id);
    assert forall j :: 0 <= j < |chats| ==> ids[j] == chats[j].id;
    if i < |chats| {
      DropKeeps(ids, i);
      var left := Drop(chats, i);
      assert WithoutOne(chats, left, i);
      assert ChatIds(left) == Drop(ids, i);
      assert forall j :: 0 <= j < |left| ==> ChatIds(left)[j] == left[j].id;
    }
  }

  // ----- The owner -----

  /** An owner is claimed exactly once, by whoever is not blacklisted, and nothing else changes. */
  lemma ClaimMakesTheOwner(s: State, user: UserId, disk: bool)
    requires s.info.Some?
    ensures
      var (s', r) := ClaimOwnerSpec(s, user, disk);
      var db := s.info.value.data;
      && (r == Done <==> db.owner == None && CheckUserSpec(s, Blacklist, user) != Done && Writes(s, disk))
      && (r == Done ==> s'.info.value.data == db.(owner := Some(user)))
  {
  }

  /** The owner that a path's database has: in memory if it is loaded, else on disk. */
  function OwnerAt(s: State, path: string): Option<UserId>
  {
    if s.info.Some? && s.info.value.path == path then s.info.value.data.owner
    else match FileAt(s, path)
      case Snapshot(db) => db.owner
      case _ => None
  }

  lemma OwnerStaysOneStep(s: State, op: Op, path: string)
    requires Agrees(s) && Callable(s, op) && path != IN_MEMORY
    ensures OwnerAt(s, path).Some? ==> OwnerAt(Apply(s, op).0, path) == OwnerAt(s, path)
  {
  }

  /** Once a database file has an owner, that owner stays, in memory and on disk, over every run. */
  lemma {:induction false} OwnerNeverChanges(s: State, ops: seq<Op>, path: string)
    requires Good(s) && Run(s, ops) && path != IN_MEMORY && OwnerAt(s, path).Some?
    ensures OwnerAt(After(s, ops), path) == OwnerAt(s, path)
    ensures FileAt(After(s, ops), path).Snapshot? && FileAt(After(s, ops), path).db.owner == OwnerAt(s, path)
    decreases |ops|
  {
    if ops != [] {
      StepKeeps(s, ops[0]);
      OwnerStaysOneStep(s, ops[0], path);
      OwnerNeverChanges(Apply(s, ops[0]).0, ops[1..], path);
    }
  }
}
