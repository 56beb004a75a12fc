/** The process-wide `roomUsers` table: for each room id, a map from socket
    id to the member record `{userId, userName, socketId}`. Both levels are
    JavaScript `Map`s, so both keep insertion order. */
module Registry {
  import opened OrderedMap
  import opened RoomSchema

  type SocketId = string

  datatype User = User(userId: UserId, userName: string, socketId: SocketId)

  type Members = OMap<SocketId, User>
  type Table = OMap<RoomId, Members>

  /** Every member is filed under its own socket id. */
  ghost predicate WellKeyed(ms: Members)
  {
    Distinct(ms) && forall j :: 0 <= j < |ms| ==> ms[j].1.socketId == ms[j].0
  }

  ghost predicate Valid(t: Table)
  {
    Distinct(t) && forall i :: 0 <= i < |t| ==> WellKeyed(t[i].1)
  }

  /** The inner map of a room, empty when the room has none. */
  function MembersOf(t: Table, roomId: RoomId): Members
  {
    if Has(t, roomId) then Get(t, roomId) else []
  }

  /** Joining: the room gets an empty inner map if it has none, and the
      user is then stored in it under the user's socket id. */
  function Join(t: Table, roomId: RoomId, u: User): (t': Table)
    ensures Has(t', roomId)
    ensures Keys(t') == if Has(t, roomId) then Keys(t) else Keys(t) + [roomId]
  {
    Set(t, roomId, Set(MembersOf(t, roomId), u.socketId, u))
  }

  /** Leaving: a room the table holds loses the socket's entry; a room it
      does not hold is left alone. An emptied inner map stays in the table. */
  function Leave(t: Table, roomId: RoomId, s: SocketId): (t': Table)
    ensures Keys(t') == Keys(t)
  {
    if Has(t, roomId) then Set(t, roomId, Delete(Get(t, roomId), s)) else t
  }

  /** One step of disconnect's `forEach`: delete the socket from this room
      if it is there. */
  function DisconnectEntry(e: (RoomId, Members), s: SocketId): (e': (RoomId, Members))
    ensures e'.0 == e.0 && !Has(e'.1, s)
    ensures !Has(e.1, s) ==> e' == e
  {
    if Has(e.1, s) then (e.0, Delete(e.1, s)) else e
  }

  /** The table after disconnect's `forEach` over every room. */
  function Disconnect(t: Table, s: SocketId): (t': Table)
    ensures Keys(t') == Keys(t)
    ensures forall i :: 0 <= i < |t'| ==> !Has(t'[i].1, s)
  {
    seq(|t|, i requires 0 <= i < |t| => DisconnectEntry(t[i], s))
  }

  lemma MembersWellKeyed(t: Table, roomId: RoomId)
    requires Valid(t)
    ensures WellKeyed(MembersOf(t, roomId))
  {
    if Has(t, roomId) {
      var i :| 0 <= i < |t| && t[i] == (roomId, Get(t, roomId));
    }
  }

  lemma SetMemberWellKeyed(ms: Members, u: User)
    requires WellKeyed(ms)
    ensures WellKeyed(Set(ms, u.socketId, u))
  {
    SetSpec(ms, u.socketId, u);
  }

  lemma DeleteMemberWellKeyed(ms: Members, s: SocketId)
    requires WellKeyed(ms)
    ensures WellKeyed(Delete(ms, s))
  {
    var r := Delete(ms, s);
    forall j | 0 <= j < |r| ensures r[j].1.socketId == r[j].0 {
      var i :| 0 <= i < |ms| && ms[i] == r[j];
    }
  }

  /** Replacing one room's inner map by a well-keyed one keeps the table
      valid, and reads back as expected. */
  lemma SetRoomValid(t: Table, roomId: RoomId, ms: Members)
    requires Valid(t) && WellKeyed(ms)
    ensures Valid(Set(t, roomId, ms))
    ensures MembersOf(Set(t, roomId, ms), roomId) == ms
    ensures forall r :: r != roomId ==> MembersOf(Set(t, roomId, ms), r) == MembersOf(t, r)
    ensures Keys(Set(t, roomId, ms)) == if Has(t, roomId) then Keys(t) else Keys(t) + [roomId]
  {
    SetSpec(t, roomId, ms);
    var t' := Set(t, roomId, ms);
    forall i | 0 <= i < |t'| ensures WellKeyed(t'[i].1) {
      if i < |t| && t'[i] != (roomId, ms) {
        assert t'[i] == t[i];
      }
    }
  }

  /** A successful join: the room's inner map exists afterwards and holds the
      joining user under the socket id; a socket that was already there is
      overwritten in place, a new one is added at the end; the room's other
      members and every other room are unchanged. */
  lemma JoinSpec(t: Table, roomId: RoomId, u: User)
    requires Valid(t)
    ensures Valid(Join(t, roomId, u))
    ensures Has(Join(t, roomId, u), roomId)
    ensures Has(MembersOf(Join(t, roomId, u), roomId), u.socketId)
    ensures Get(MembersOf(Join(t, roomId, u), roomId), u.socketId) == u
    ensures Keys(MembersOf(Join(t, roomId, u), roomId)) ==
      if Has(MembersOf(t, roomId), u.socketId) then Keys(MembersOf(t, roomId))
      else Keys(MembersOf(t, roomId)) + [u.socketId]
    ensures forall s :: s != u.socketId && Has(MembersOf(t, roomId), s) ==>
      Has(MembersOf(Join(t, roomId, u), roomId), s) &&
      Get(MembersOf(Join(t, roomId, u), roomId), s) == Get(MembersOf(t, roomId), s)
    ensures forall s :: s != u.socketId && !Has(MembersOf(t, roomId), s) ==>
      !Has(MembersOf(Join(t, roomId, u), roomId), s)
    ensures forall r :: r != roomId ==> MembersOf(Join(t, roomId, u), r) == MembersOf(t, r)
  {
    var ms := MembersOf(t, roomId);
    MembersWellKeyed(t, roomId);
    SetSpec(ms, u.socketId, u);
    SetMemberWellKeyed(ms, u);
    SetRoomValid(t, roomId, Set(ms, u.socketId, u));
  }

  /** leave: an unknown room changes nothing; otherwise the socket's entry is
      gone, the room's other members and every other room are unchanged,
      and the room key stays, in its place, even when the map is empty. */
  lemma LeaveSpec(t: Table, roomId: RoomId, s: SocketId)
    requires Valid(t)
    ensures Valid(Leave(t, roomId, s))
    ensures !Has(t, roomId) ==> Leave(t, roomId, s) == t
    ensures Keys(Leave(t, roomId, s)) == Keys(t)
    ensures Has(t, roomId) ==> MembersOf(Leave(t, roomId, s), roomId) == Delete(MembersOf(t, roomId), s)
    ensures !Has(MembersOf(Leave(t, roomId, s), roomId), s)
    ensures forall s' :: s' != s ==>
      (Has(MembersOf(Leave(t, roomId, s), roomId), s') <==> Has(MembersOf(t, roomId), s'))
    ensures forall s' :: s' != s && Has(MembersOf(t, roomId), s') ==>
      Get(MembersOf(Leave(t, roomId, s), roomId), s') == Get(MembersOf(t, roomId), s')
    ensures forall r :: r != roomId ==> MembersOf(Leave(t, roomId, s), r) == MembersOf(t, r)
  {
    if Has(t, roomId) {
      var ms := MembersOf(t, roomId);
      MembersWellKeyed(t, roomId);
      DeleteSpec(ms, s);
      DeleteMemberWellKeyed(ms, s);
      SetRoomValid(t, roomId, Delete(ms, s));
    }
  }

  /** disconnect: the socket is removed from every room that held it, rooms
      that did not hold it keep their inner map as it was, no room key is
      added or removed, and the order of rooms is kept. */
  lemma DisconnectSpec(t: Table, s: SocketId)
    requires Valid(t)
    ensures Valid(Disconnect(t, s))
    ensures Keys(Disconnect(t, s)) == Keys(t)
    ensures forall r ::
              MembersOf(Disconnect(t, s), r) ==
              (if Has(MembersOf(t, r), s) then Delete(MembersOf(t, r), s) else MembersOf(t, r))
    ensures forall r :: !Has(MembersOf(Disconnect(t, s), r), s)
  {
    var d := Disconnect(t, s);
    assert Keys(d) == Keys(t);
    assert forall i :: 0 <= i < |d| ==> d[i].0 == Keys(d)[i];
    assert forall i :: 0 <= i < |t| ==> t[i].0 == Keys(t)[i];
    forall i | 0 <= i < |d| ensures WellKeyed(d[i].1) {
      if Has(t[i].1, s) { DeleteMemberWellKeyed(t[i].1, s); }
    }
    forall r ensures MembersOf(d, r) ==
      (if Has(MembersOf(t, r), s) then Delete(MembersOf(t, r), s) else MembersOf(t, r))
    {
      if Has(t, r) {
        var i :| 0 <= i < |t| && t[i] == (r, Get(t, r));
        EntryIsGet(d, r, d[i].1);
      }
    }
    forall r ensures !Has(MembersOf(d, r), s) {
      if Has(MembersOf(t, r), s) {
        MembersWellKeyed(t, r);
        DeleteSpec(MembersOf(t, r), s);
      }
    }
  }
}
