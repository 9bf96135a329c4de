/**
 The protobuf-backed database: every change is made in memory, written out as a whole new
 snapshot, and taken back in memory when the write fails.
 */
module SnapshotDatabase {
  import opened Wrappers
  import opened Sequences

  type UserId = int
  type ChatId = int

  const IN_MEMORY: string := ":memory:"

  /** An optional message: it can be set and still hold nobody. */
  datatype PersonList = Unset | Set(ids: seq<UserId>)

  datatype Media = Media(mediaId: string, uniqueId: string, kind: int, names: seq<string>)

  datatype Chat = Chat(id: ChatId, name: string)

  datatype Database = Database(
    owner: Option<UserId>,
    whitelist: PersonList,
    blacklist: PersonList,
    media: seq<Media>,
    chats: seq<Chat>)

  const EMPTY: Database := Database(None, Unset, Unset, [], [])

  datatype File = Missing | Snapshot(db: Database) | Garbage

  datatype Info = Info(data: Database, path: string)

  /** The database object and the files around it. */
  datatype State = State(info: Option<Info>, disk: map<string, File>)

  datatype ListType = Whitelist | Blacklist

  datatype Outcome =
    | Done | BackendError | AlreadyInList | AlreadyInOtherList | NotInList | AlreadyExists | AlreadySet
    | Refused   // a plain false

  function Ids(l: PersonList): seq<UserId> { if l.Unset? then [] else l.ids }

  function ListOf(db: Database, t: ListType): PersonList
  {
    match t case Whitelist => db.whitelist case Blacklist => db.blacklist
  }

  function Other(t: ListType): ListType
  {
    match t case Whitelist => Blacklist case Blacklist => Whitelist
  }

  function WithIds(db: Database, t: ListType, ids: seq<UserId>): Database
  {
    match t case Whitelist => db.(whitelist := Set(ids)) case Blacklist => db.(blacklist := Set(ids))
  }

  function FileAt(s: State, path: string): File { if path in s.disk then s.disk[path] else Missing }

  /** The first place where a key stands in a list, or the length. */
  function Find<T(==)>(list: seq<T>, x: T): (i: nat)
    ensures i <= |list| && (i < |list| ==> list[i] == x)
    ensures i == |list| <==> x !in list
    ensures x !in list[..i]
  {
    if list == [] || list[0] == x then 0
    else
      var i := 1 + Find(list[1..], x);
      assert list[..i] == [list[0]] + list[1..][..i - 1];
      i
  }

  /** The list without its element i. */
  function Drop<T>(list: seq<T>, i: nat): seq<T>
    requires i < |list|
  {
    list[..i] + list[i + 1..]
  }

  function MediaIds(media: seq<Media>): seq<string> { seq(|media|, i requires 0 <= i < |media| => media[i].mediaId) }

  function UniqueIds(media: seq<Media>): seq<string> { seq(|media|, i requires 0 <= i < |media| => media[i].uniqueId) }

  function ChatIds(chats: seq<Chat>): seq<ChatId> { seq(|chats|, i requires 0 <= i < |chats| => chats[i].id) }

  // ----- What each operation does; `disk` tells whether the file system goes along -----

  /** A write that would succeed: always for the in-memory database. */
  predicate Writes(s: State, disk: bool)
    requires s.info.Some?
  {
    s.info.value.path == IN_MEMORY || disk
  }

  function WithObject(s: State, db: Database): State
    requires s.info.Some?
  {
    s.(info := Some(s.info.value.(data := db)))
  }

  /** The object replaced in memory and on disk. */
  function Committed(s: State, db: Database): State
    requires s.info.Some?
  {
    var path := s.info.value.path;
    State(Some(Info(db, path)), if path == IN_MEMORY then s.disk else s.disk[path := Snapshot(db)])
  }

  function AddUserSpec(s: State, t: ListType, user: UserId, disk: bool): (State, Outcome)
  {
    if s.info.None? then (s, BackendError)
    else
      var db := s.info.value.data;
      var mine := Ids(ListOf(db, t));
      if t == Blacklist && db.owner == Some(user) then (s, AlreadyInOtherList)
      else if user in Ids(ListOf(db, Other(t))) then (s, AlreadyInOtherList)
      else if user in mine then (s, AlreadyInList)
      else if Writes(s, disk) then (Committed(s, WithIds(db, t, mine + [user])), Done)
      else (WithObject(s, WithIds(db, t, mine)), BackendError)
  }

  function RemoveUserSpec(s: State, t: ListType, user: UserId, disk: bool): (State, Outcome)
  {
    if s.info.None? then (s, BackendError)
    else
      var db := s.info.value.data;
      var mine := Ids(ListOf(db, t));
      var i := Find(mine, user);
      if i == |mine| then (WithObject(s, WithIds(db, t, mine)), NotInList)
      else if Writes(s, disk) then (Committed(s, WithIds(db, t, Drop(mine, i))), Done)
      else (s, BackendError)
  }

  function CheckUserSpec(s: State, t: ListType, user: UserId): Outcome
    requires s.info.Some?
  {
    var db := s.info.value.data;
    if user in Ids(ListOf(db, t)) then Done
    else if user in Ids(ListOf(db, Other(t))) then AlreadyInOtherList
    else NotInList
  }

  function AddMediaSpec(s: State, m: Media, disk: bool): (State, Outcome)
  {
    if s.info.None? then (s, BackendError)
    else
      var db := s.info.value.data;
      if m.uniqueId in UniqueIds(db.media) then (s, AlreadyExists)
      else if Writes(s, disk) then (Committed(s, db.(media := db.media + [m])), Done)
      else (s, BackendError)
  }

  function DeleteMediaSpec(s: State, mediaId: string, disk: bool): (State, Outcome)
    requires s.info.Some?
  {
    var db := s.info.value.data;
    var i := Find(MediaIds(db.media), mediaId);
    if i == |db.media| || !Writes(s, disk) then (s, Refused)
    else (Committed(s, db.(media := Drop(db.media, i))), Done)
  }

  function AddChatSpec(s: State, c: Chat, disk: bool): (State, Outcome)
  {
    if s.info.None? then (s, BackendError)
    else
      var db := s.info.value.data;
      if c.id in ChatIds(db.chats) then (s, AlreadyExists)
      else if Writes(s, disk) then (Committed(s, db.(chats := db.chats + [c])), Done)
      else (s, BackendError)
  }

  function DeleteChatSpec(s: State, id: ChatId, disk: bool): (State, Outcome)
  {
    if s.info.None? then (s, Refused)
    else
      var db := s.info.value.data;
      var i := Find(ChatIds(db.chats), id);
      if i == |db.chats| || !Writes(s, disk) then (s, Refused)
      else (Committed(s, db.(chats := Drop(db.chats, i))), Done)
  }

  function ClaimOwnerSpec(s: State, user: UserId, disk: bool): (State, Outcome)
  {
    if s.info.None? then (s, BackendError)
    else
      var db := s.info.value.data;
      if db.owner.Some? then (s, AlreadySet)
      else if user in Ids(db.blacklist) then (s, BackendError)
      else if Writes(s, disk) then (Committed(s, db.(owner := Some(user))), Done)
      else (s, BackendError)
  }

  function LoadSpec(s: State, path: string): (State, Outcome)
  {
    if s.info.Some? then (s, Refused)
    else if path == IN_MEMORY then (s.(info := Some(Info(EMPTY, path))), Done)
    else match FileAt(s, path)
      case Missing => (s.(info := Some(Info(EMPTY, path))), Done)
      case Snapshot(db) => (s.(info := Some(Info(db, path))), Done)
      case Garbage => (s, Refused)
  }

  function UnloadSpec(s: State, disk: bool): (State, Outcome)
  {
    if s.info.None? || !Writes(s, disk) then (s, Refused)
    else (Committed(s, s.info.value.data).(info := None), Done)
  }

  // ----- The object -----

  class ProtoDatabase {
    var dbinfo: Option<Info>
    var disk: map<string, File>

    function Now(): State
      reads this
    {
      State(dbinfo, disk)
    }

    constructor (disk: map<string, File>)
      ensures Now() == State(None, disk)
    {
      this.dbinfo, this.disk := None, disk;
    }

    /** Writes a temporary file and renames it over the target, or leaves the target alone. */
    method PersistLocked(diskOk: bool) returns (ok: bool)
      modifies this`disk
      ensures ok <==> dbinfo.Some? && Writes(old(Now()), diskOk)
      ensures disk == if ok then Committed(old(Now()), dbinfo.value.data).disk else old(disk)
    {
      if dbinfo.None? {
        return false;
      }
      if dbinfo.value.path == IN_MEMORY {
        return true;
      }
      if !diskOk {
        return false;
      }
      disk := disk[dbinfo.value.path := Snapshot(dbinfo.value.data)];
      return true;
    }

    method SetObject(db: Database)
      requires dbinfo.Some?
      modifies this`dbinfo
      ensures dbinfo == Some(Info(db, old(dbinfo).value.path))
    {
      dbinfo := Some(dbinfo.value.(data := db));
    }

    /** Asking for a list to change it sets the message, even when nothing is changed after all. */
    method GetMutablePersonList(t: ListType) returns (ids: seq<UserId>)
      requires dbinfo.Some?
      modifies this`dbinfo
      ensures ids == Ids(ListOf(old(dbinfo).value.data, t))
      ensures Now() == WithObject(old(Now()), WithIds(old(dbinfo).value.data, t, ids))
    {
      ids := Ids(ListOf(dbinfo.value.data, t));
      SetObject(WithIds(dbinfo.value.data, t, ids));
    }

    method AddUserToList(t: ListType, user: UserId, diskOk: bool) returns (r: Outcome)
      modifies this
      ensures (Now(), r) == AddUserSpec(old(Now()), t, user, diskOk)
    {
      if dbinfo.None? {
        return BackendError;
      }
      if t == Blacklist && dbinfo.value.data.owner == Some(user) {
        return AlreadyInOtherList;
      }
      var at := FindByUid(Ids(ListOf(dbinfo.value.data, Other(t))), user);
      if at.Some? {
        return AlreadyInOtherList;
      }
      ghost var before := dbinfo.value.data;
      var mine := GetMutablePersonList(t);
      at := FindByUid(mine, user);
      if at.Some? {
        assert ListOf(before, t) == Set(mine);
        return AlreadyInList;
      }
      var previous := dbinfo.value.data;
      SetObject(WithIds(previous, t, mine + [user]));
      var persisted := PersistLocked(diskOk);
      if persisted {
        return Done;
      }
      SetObject(previous);
      return BackendError;
    }

    method RemoveUserFromList(t: ListType, user: UserId, diskOk: bool) returns (r: Outcome)
      modifies this
      ensures (Now(), r) == RemoveUserSpec(old(Now()), t, user, diskOk)
    {
      if dbinfo.None? {
        return BackendError;
      }
      ghost var before := dbinfo.value.data;
      var mine := GetMutablePersonList(t);
      var at := FindByUid(mine, user);
      if at.Some? {
        assert ListOf(before, t) == Set(mine);
        var previous := dbinfo.value.data;
        SetObject(WithIds(previous, t, mine[..at.value] + mine[at.value + 1..]));
        var persisted := PersistLocked(diskOk);
        if persisted {
          return Done;
        }
        SetObject(previous);
        return BackendError;
      }
      return NotInList;
    }

    method CheckUserInList(t: ListType, user: UserId) returns (r: Outcome)
      requires dbinfo.Some?
      ensures r == CheckUserSpec(Now(), t, user)
    {
      var at := FindByUid(Ids(ListOf(dbinfo.value.data, t)), user);
      if at.Some? {
        return Done;
      }
      at := FindByUid(Ids(ListOf(dbinfo.value.data, Other(t))), user);
      return if at.Some? then AlreadyInOtherList else NotInList;
    }

    method AddMediaInfo(m: Media, diskOk: bool) returns (r: Outcome)
      modifies this
      ensures (Now(), r) == AddMediaSpec(old(Now()), m, diskOk)
    {
      if dbinfo.None? {
        return BackendError;
      }
      var media := dbinfo.value.data.media;
      for i := 0 to |media|
        invariant m.uniqueId !in UniqueIds(media)[..i]
      {
        assert UniqueIds(media)[..i + 1] == UniqueIds(media)[..i] + [media[i].uniqueId];
        if media[i].uniqueId == m.uniqueId {
          assert UniqueIds(media)[i] == m.uniqueId;
          return AlreadyExists;
        }
      }
      assert UniqueIds(media)[..|media|] == UniqueIds(media);
      var previous := dbinfo.value.data;
      SetObject(previous.(media := media + [m]));
      var persisted := PersistLocked(diskOk);
      if persisted {
        return Done;
      }
      SetObject(previous);
      return BackendError;
    }

    method DeleteMediaInfo(mediaId: string, diskOk: bool) returns (r: Outcome)
      requires dbinfo.Some?
      modifies this
      ensures (Now(), r) == DeleteMediaSpec(old(Now()), mediaId, diskOk)
    {
      var media := dbinfo.value.data.media;
      for i := 0 to |media|
        invariant unchanged(this) && mediaId !in MediaIds(media)[..i]
      {
        if media[i].mediaId == mediaId {
          FindIs(MediaIds(media), mediaId, i);
          var previous := dbinfo.value.data;
          SetObject(previous.(media := media[..i] + media[i + 1..]));
          var persisted := PersistLocked(diskOk);
          if persisted {
            return Done;
          }
          SetObject(previous);
          return Refused;
        }
        assert MediaIds(media)[..i + 1] == MediaIds(media)[..i] + [media[i].mediaId];
      }
      assert MediaIds(media)[..|media|] == MediaIds(media);
      return Refused;
    }

    method AddChatInfo(c: Chat, diskOk: bool) returns (r: Outcome)
      modifies this
      ensures (Now(), r) == AddChatSpec(old(Now()), c, diskOk)
    {
      if dbinfo.None? {
        return BackendError;
      }
      var chats := dbinfo.value.data.chats;
      for i := 0 to |chats|
        invariant c.id !in ChatIds(chats)[..i]
      {
        assert ChatIds(chats)[..i + 1] == ChatIds(chats)[..i] + [chats[i].id];
        if chats[i].id == c.id {
          assert ChatIds(chats)[i] == c.id;
          return AlreadyExists;
        }
      }
      assert ChatIds(chats)[..|chats|] == ChatIds(chats);
      var previous := dbinfo.value.data;
      SetObject(previous.(chats := chats + [c]));
      var persisted := PersistLocked(diskOk);
      if persisted {
        return Done;
      }
      SetObject(previous);
      return BackendError;
    }

    method DeleteChatInfo(id: ChatId, diskOk: bool) returns (r: Outcome)
      modifies this
      ensures (Now(), r) == DeleteChatSpec(old(Now()), id, diskOk)
    {
      if dbinfo.None? {
        return Refused;
      }
      var chats := dbinfo.value.data.chats;
      for i := 0 to |chats|
        invariant unchanged(this) && id !in ChatIds(chats)[..i]
      {
        if chats[i].id == id {
          FindIs(ChatIds(chats), id, i);
          var previous := dbinfo.value.data;
          SetObject(previous.(chats := chats[..i] + chats[i + 1..]));
          var persisted := PersistLocked(diskOk);
          if persisted {
            return Done;
          }
          SetObject(previous);
          return Refused;
        }
        assert ChatIds(chats)[..i + 1] == ChatIds(chats)[..i] + [chats[i].id];
      }
      assert ChatIds(chats)[..|chats|] == ChatIds(chats);
      return Refused;
    }

    method ClaimOwnerUserId(user: UserId, diskOk: bool) returns (r: Outcome)
      modifies this
      ensures (Now(), r) == ClaimOwnerSpec(old(Now()), user, diskOk)
    {
      if dbinfo.None? {
        return BackendError;
      }
      if dbinfo.value.data.owner.Some? {
        return AlreadySet;
      }
      var at := FindByUid(Ids(dbinfo.value.data.blacklist), user);
      if at.Some? {
        return BackendError;
      }
      SetObject(dbinfo.value.data.(owner := Some(user)));
      var persisted := PersistLocked(diskOk);
      if persisted {
        return Done;
      }
      SetObject(dbinfo.value.data.(owner := None));
      return BackendError;
    }

    method Load(path: string) returns (r: Outcome)
      modifies this
      ensures (Now(), r) == LoadSpec(old(Now()), path)
    {
      if dbinfo.Some? {
        return Refused;
      }
      dbinfo := Some(Info(EMPTY, path));
      if path == IN_MEMORY {
        return Done;
      }
      match FileAt(Now(), path) {
        case Missing => return Done;
        case Snapshot(db) =>
          SetObject(db);
          return Done;
        case Garbage =>
          dbinfo := None;
          return Refused;
      }
    }

    method Unload(diskOk: bool) returns (r: Outcome)
      modifies this
      ensures (Now(), r) == UnloadSpec(old(Now()), diskOk)
    {
      if dbinfo.None? {
        return Refused;
      }
      var persisted := PersistLocked(diskOk);
      if !persisted {
        return Refused;
      }
      dbinfo := None;
      return Done;
    }
  }

  lemma InPrefix<T>(list: seq<T>, i: nat, j: nat)
    requires i <= |list|
    ensures j < i ==> list[j] in list[..i]
  {
    if j < i {
      assert list[..i][j] == list[j];
    }
  }

  lemma FindIs<T>(list: seq<T>, x: T, i: nat)
    requires i < |list| && list[i] == x && x !in list[..i]
    ensures Find(list, x) == i
  {
    InPrefix(list, i, Find(list, x));
    InPrefix(list, Find(list, x), i);
  }

  method FindByUid(list: seq<UserId>, uid: UserId) returns (r: Option<nat>)
    ensures r == if uid in list then Some(Find(list, uid)) else None
  {
    for i := 0 to |list|
      invariant uid !in list[..i]
    {
      if list[i] == uid {
        FindIs(list, uid, i);
        return Some(i);
      }
      assert list[..i + 1] == list[..i] + [list[i]];
    }
    assert list[..|list|] == list;
    return None;
  }
}
