/** The room HTTP routes over the room directory: create, get, save and the
    list of a user's own rooms. The directory is a map from `roomId` to the
    record; every route runs as one atomic step. */
module RoomRoutes {
  import opened Js
  import opened RoomSchema

  datatype CreateResponse =
    | Created(roomId: RoomId, createdAt: nat)   // 201
    | CreateFailed                              // 500: validation or duplicate key

  datatype GetResponse =
    | Found(room: Room)                         // 200, every stored field
    | GetNotFound                               // 404

  datatype SaveResponse =
    | SavedAt(updatedAt: nat)                   // 200
    | SaveNotFound                              // 404
    | ReadOnly                                  // 403

  /** The fields the list of a user's rooms projects each record to. */
  datatype RoomSummary = RoomSummary(roomId: RoomId, code: string, language: string, createdAt: nat, updatedAt: nat)

  function Summarize(r: Room): RoomSummary
  {
    RoomSummary(r.roomId, r.code, r.language, r.createdAt, r.updatedAt)
  }

  /** The room directory, written in place by create and save. */
  class RoomStore {
    var records: map<RoomId, Room>

    ghost predicate Valid()
      reads this
    {
      Keyed(records)
    }

    constructor ()
      ensures Valid() && records == map[]
    {
      records := map[];
    }

    /** POST /create: a new record under the id `roomId` (a fresh UUID in the
        source) owned by `owner`, with empty code and language `javascript`.
        An id already taken fails on the unique index, and the store stays
        as it was. */
    method Create(roomId: RoomId, owner: UserId, now: nat) returns (res: CreateResponse)
      requires Valid()
      modifies this
      ensures Valid()
      ensures (roomId in old(records) || roomId == "") <==> res == CreateFailed
      ensures res == CreateFailed ==> records == old(records)
      ensures res.Created? ==>
        && res == Created(roomId, now)
        && records == old(records)[roomId := Room(roomId, owner, "", "javascript", false, false, now, now)]
    {
      var doc := Construct(RoomFields(Some(roomId), Some(owner), Some(""), Some("javascript"), None, None), now);
      if doc.None? || roomId in records {
        return CreateFailed;
      }
      records := records[roomId := doc.value];
      res := Created(roomId, now);
    }

    /** POST /:roomId/save: 404 for an unknown room, 403 for a non-owner on a
        read-only room, otherwise the supplied code replaces the stored one
        unless it is empty or missing, and the language changes only when a
        non-empty one is supplied. */
    method Save(roomId: RoomId, requester: UserId, code: Option<string>, language: Option<string>, now: nat)
      returns (res: SaveResponse)
      requires Valid()
      modifies this
      ensures Valid()
      ensures res == SaveNotFound <==> roomId !in old(records)
      ensures res == ReadOnly <==> roomId in old(records) && !MayEdit(old(records)[roomId], requester)
      ensures !res.SavedAt? ==> records == old(records)
      ensures res.SavedAt? ==>
        var r := old(records)[roomId];
        && res.updatedAt == now
        && records == old(records)[roomId := r.(code := Or(code, r.code),
                                                   language := Or(language, r.language),
                                                   updatedAt := now)]
    {
      if roomId !in records {
        return SaveNotFound;
      }
      var room := records[roomId];
      if !MayEdit(room, requester) {
        return ReadOnly;
      }
      room := EditRecord(room, Or(code, room.code), language, now);
      records := records[roomId := room];
      res := SavedAt(room.updatedAt);
    }
  }

  /** GET /:roomId: a read-only lookup. */
  function GetRoom(records: map<RoomId, Room>, roomId: RoomId): (res: GetResponse)
    ensures res == GetNotFound <==> roomId !in records
    ensures res.Found? ==> res.room == records[roomId]
  {
    if roomId in records then Found(records[roomId]) else GetNotFound
  }

  /** The ids of the rooms `owner` created. */
  function OwnedIds(records: map<RoomId, Room>, owner: UserId): (ids: set<RoomId>)
    ensures ids <= records.Keys
  {
    set k | k in records && records[k].createdBy == owner
  }

  function SummariesOf(records: map<RoomId, Room>, ids: set<RoomId>): set<RoomSummary>
    requires ids <= records.Keys
  {
    set k | k in ids :: Summarize(records[k])
  }

  /** The content of the reply to GET /user/rooms, as a set. */
  function OwnedSummaries(records: map<RoomId, Room>, owner: UserId): set<RoomSummary>
  {
    SummariesOf(records, OwnedIds(records, owner))
  }

  /** One more id adds its one summary, which is new when the records are
      keyed by `roomId`. */
  lemma SummariesOfAdd(records: map<RoomId, Room>, ids: set<RoomId>, k: RoomId)
    requires Keyed(records) && ids <= records.Keys && k in records && k !in ids
    ensures Summarize(records[k]) !in SummariesOf(records, ids)
    ensures SummariesOf(records, ids + {k}) == SummariesOf(records, ids) + {Summarize(records[k])}
    ensures multiset(SummariesOf(records, ids + {k})) == multiset(SummariesOf(records, ids)) + multiset{Summarize(records[k])}
  {
    assert SummariesOf(records, ids + {k}) == SummariesOf(records, ids) + {Summarize(records[k])};
  }

  ghost predicate SortedByUpdatedDesc(s: seq<RoomSummary>)
  {
    forall i, j :: 0 <= i < j < |s| ==> s[i].updatedAt >= s[j].updatedAt
  }

  lemma SortedCons(h: RoomSummary, t: seq<RoomSummary>)
    requires SortedByUpdatedDesc(t)
    requires forall j :: 0 <= j < |t| ==> h.updatedAt >= t[j].updatedAt
    ensures SortedByUpdatedDesc([h] + t)
  {
    var r := [h] + t;
    forall i, j | 0 <= i < j < |r| ensures r[i].updatedAt >= r[j].updatedAt {
      if i > 0 { assert r[i] == t[i - 1] && r[j] == t[j - 1]; }
    }
  }

  /** Inserts `x` in front of the first element that was updated earlier. */
  function InsertByUpdated(s: seq<RoomSummary>, x: RoomSummary): (r: seq<RoomSummary>)
    requires SortedByUpdatedDesc(s)
    ensures SortedByUpdatedDesc(r)
    ensures multiset(r) == multiset(s) + multiset{x}
  {
    if s == [] || x.updatedAt >= s[0].updatedAt then
      SortedCons(x, s);
      [x] + s
    else
      var rest := InsertByUpdated(s[1..], x);
      assert s == [s[0]] + s[1..];
      assert forall j :: 0 <= j < |rest| ==> s[0].updatedAt >= rest[j].updatedAt by {
        forall j | 0 <= j < |rest| ensures s[0].updatedAt >= rest[j].updatedAt {
          assert rest[j] in multiset(rest);
          if rest[j] != x {
            assert rest[j] in multiset(s[1..]);
            var i :| 0 <= i < |s[1..]| && s[1..][i] == rest[j];
            assert s[i + 1] == rest[j];
          }
        }
      }
      SortedCons(s[0], rest);
      [s[0]] + rest
  }

  /** GET /user/rooms: exactly the caller's rooms, newest update first.
      Rooms updated at the same instant come in no particular order, as
      with the database's sort. */
  method UserRooms(records: map<RoomId, Room>, owner: UserId) returns (rooms: seq<RoomSummary>)
    requires Keyed(records)
    ensures SortedByUpdatedDesc(rooms)
    ensures multiset(rooms) == multiset(OwnedSummaries(records, owner))
  {
    var owned := OwnedIds(records, owner);
    var todo := owned;
    rooms := [];
    while todo != {}
      invariant todo <= owned
      invariant SortedByUpdatedDesc(rooms)
      invariant multiset(rooms) == multiset(SummariesOf(records, owned - todo))
      decreases |todo|
    {
      var k :| k in todo;
      SummariesOfAdd(records, owned - todo, k);
      assert (owned - todo) + {k} == owned - (todo - {k});
      rooms := InsertByUpdated(rooms, Summarize(records[k]));
      todo := todo - {k};
    }
    assert owned - todo == owned;
  }
}
