/** The Room record of the room directory: its fields, which of them are
    required, the defaults the schema fills in, and the timestamps that
    every write maintains. */
module RoomSchema {
  import opened Js

  type RoomId = string
  /** The owner's user id, compared as the string form of the id. */
  type UserId = string

  datatype Room = Room(
    roomId: RoomId,
    createdBy: UserId,
    code: string,
    language: string,
    isLocked: bool,
    isReadOnly: bool,
    createdAt: nat,
    updatedAt: nat)

  const DefaultCode: string := ""
  const DefaultLanguage: string := "javascript"

  /** The fields a caller supplies for a new document; absent ones are `None`. */
  datatype RoomFields = RoomFields(
    roomId: Option<string>,
    createdBy: Option<UserId>,
    code: Option<string>,
    language: Option<string>,
    isLocked: Option<bool>,
    isReadOnly: Option<bool>)

  predicate Present<T>(x: Option<T>)
  {
    x.Some?
  }

  function Default<T>(x: Option<T>, d: T): T
  {
    if x.Some? then x.value else d
  }

  /** A record the schema accepts has a non-empty `roomId`. */
  predicate WellFormed(r: Room)
  {
    r.roomId != ""
  }

  /** The store holds each record under its own `roomId`, so no two records
      share one: the unique index on `roomId`. */
  ghost predicate Keyed(records: map<RoomId, Room>)
  {
    forall k :: k in records ==> records[k].roomId == k && WellFormed(records[k])
  }

  /** Validating and inserting a new document at time `now`: `None` is the
      validation error for a missing required field. A required string must
      be present and non-empty, that is, truthy. */
  function Construct(f: RoomFields, now: nat): (r: Option<Room>)
    ensures r.Some? <==> Truthy(f.roomId) && Present(f.createdBy)
    ensures r.Some? ==> WellFormed(r.value)
    ensures r.Some? ==> r.value.roomId == f.roomId.value && r.value.createdBy == f.createdBy.value
    ensures r.Some? ==> r.value.code == (if f.code.Some? then f.code.value else DefaultCode)
    ensures r.Some? ==> r.value.language == (if f.language.Some? then f.language.value else DefaultLanguage)
    ensures r.Some? ==> r.value.isLocked == (f.isLocked == Some(true))
    ensures r.Some? ==> r.value.isReadOnly == (f.isReadOnly == Some(true))
    ensures r.Some? ==> r.value.createdAt == now && r.value.updatedAt == now
  {
    if Truthy(f.roomId) && Present(f.createdBy) then
      Some(Room(f.roomId.value, f.createdBy.value,
                Default(f.code, DefaultCode), Default(f.language, DefaultLanguage),
                Default(f.isLocked, false), Default(f.isReadOnly, false),
                now, now))
    else None
  }

  /** Saving a record that already exists: the schema's
      timestamps refresh `updatedAt` and leave `createdAt` alone. */
  function Saved(r: Room, now: nat): (r': Room)
    ensures r'.updatedAt == now
    ensures r'.(updatedAt := r.updatedAt) == r
  {
    r.(updatedAt := now)
  }

  /** An edit of a stored record: the code is replaced, the language only
      when a non-empty one is given, and the record is saved. Both the socket
      edit path and the save route write this way. */
  function EditRecord(r: Room, code: string, language: Option<string>, now: nat): (r': Room)
    ensures r'.code == code
    ensures r'.language == (if Truthy(language) then language.value else r.language)
    ensures r'.updatedAt == now
    ensures r'.roomId == r.roomId && r'.createdBy == r.createdBy
    ensures r'.isLocked == r.isLocked && r'.isReadOnly == r.isReadOnly && r'.createdAt == r.createdAt
    ensures WellFormed(r) ==> WellFormed(r')
  {
    var edited := r.(code := code);
    var edited := if Truthy(language) then edited.(language := language.value) else edited;
    Saved(edited, now)
  }

  /** The read-only rule: a read-only room may be written only by the user
      who created it. `isLocked` plays no part. */
  predicate MayEdit(r: Room, user: UserId)
    ensures !r.isReadOnly ==> MayEdit(r, user)
    ensures r.createdBy == user ==> MayEdit(r, user)
    ensures r.isReadOnly && r.createdBy != user ==> !MayEdit(r, user)
  {
    !(r.isReadOnly && r.createdBy != user)
  }

  /** A fresh room carries the schema's defaults. */
  lemma DefaultsOfNewRoom(roomId: RoomId, owner: UserId, now: nat)
    requires roomId != ""
    ensures var r := Construct(RoomFields(Some(roomId), Some(owner), None, None, None, None), now);
      && r.Some?
      && r.value.code == "" && r.value.language == "javascript"
      && !r.value.isLocked && !r.value.isReadOnly
      && r.value.createdAt == now == r.value.updatedAt
  {
  }
}
