/** The room session engine of the socket server. Each socket event is one
    atomic step over three pieces of state: the `roomUsers` table, the room
    directory, and the list of events emitted so far. Emits name their
    recipients symbolically; how the transport fans them out is not part of
    this model. */
module SocketHandler {
  import opened Js
  import opened OrderedMap
  import opened RoomSchema
  import opened Registry
  import Debounce
  import RoomRoutes

  /** A connection after the handshake: its id and the identity attached to
      it for its whole lifetime. */
  datatype Conn = Conn(socketId: SocketId, userId: UserId, userName: string)

  /** The payload of a `code_change` event. */
  datatype CodeChangeData = CodeChangeData(roomId: RoomId, code: string, language: Option<string>)

  /** The arguments a debounced `code_change` run holds: the closure's
      socket and the event data. */
  datatype Call = Call(conn: Conn, data: CodeChangeData)

  datatype Recipient =
    | ToSocket(socketId: SocketId)                    // the one connection
    | ToRoom(roomId: RoomId)                          // every connection in the room
    | ToPeers(roomId: RoomId, except: SocketId)       // the room except the sender

  /** `cursorPos` is relayed unchanged and is modelled as uninterpreted text. */
  datatype Payload =
    | CodeUpdate(code: string, language: string)
    | UsersUpdate(users: seq<User>)
    | LanguageUpdate(language: string)
    | CursorUpdate(userId: UserId, userName: string, cursorPos: string)
    | Error(message: string)

  datatype Emit = Emit(to: Recipient, payload: Payload)

  const RoomNotFoundMessage: string := "Room not found"
  const ReadOnlyMessage: string := "Room is read-only"

  /** The authentication middleware: a missing or empty token is refused;
      otherwise `identify` stands for verifying the token and loading the
      user, and refuses by returning `None`. */
  function Handshake(socketId: SocketId, token: Option<string>, identify: string -> Option<(UserId, string)>): (c: Option<Conn>)
    ensures !Truthy(token) ==> c.None?
    ensures Truthy(token) ==> (c.Some? <==> identify(token.value).Some?)
    ensures c.Some? ==> c.value == Conn(socketId, identify(token.value).value.0, identify(token.value).value.1)
  {
    if !Truthy(token) then None
    else match identify(token.value)
      case None => None
      case Some(id) => Some(Conn(socketId, id.0, id.1))
  }

  /** The member record a connection files under its socket id. */
  function UserOf(c: Conn): (u: User)
  {
    User(c.userId, c.userName, c.socketId)
  }

  /** The `users_update` snapshot: every member of the inner map, in order,
      sent to the whole room. */
  function Announce(roomId: RoomId, ms: Members): (e: Emit)
    ensures e.to == ToRoom(roomId) && e.payload.UsersUpdate?
    ensures |e.payload.users| == |ms|
    ensures forall j :: 0 <= j < |ms| ==> e.payload.users[j] == ms[j].1
  {
    Emit(ToRoom(roomId), UsersUpdate(Values(ms)))
  }

  /** A step's effect on the room directory and the emits it makes. */
  datatype Outcome = Outcome(records: map<RoomId, Room>, emits: seq<Emit>)

  /** The body of the debounced `code_change` function, run when its timer
      fires: look the room up, enforce the read-only rule, write the record,
      then tell the sender's peers. */
  function CodeChangeStep(records: map<RoomId, Room>, c: Call, now: nat): (o: Outcome)
    ensures Keyed(records) ==> Keyed(o.records)
    ensures c.data.roomId !in records ==> o == Outcome(records, [])
    ensures c.data.roomId in records && !MayEdit(records[c.data.roomId], c.conn.userId) ==>
      o == Outcome(records, [Emit(ToSocket(c.conn.socketId), Error(ReadOnlyMessage))])
    ensures c.data.roomId in records && MayEdit(records[c.data.roomId], c.conn.userId) ==>
      o.records.Keys == records.Keys
    ensures c.data.roomId in records && MayEdit(records[c.data.roomId], c.conn.userId) ==>
      var before := records[c.data.roomId];
      var after := o.records[c.data.roomId];
      && (forall k :: k in records && k != c.data.roomId ==> o.records[k] == records[k])
      && after.code == c.data.code
      && after.language == (if Truthy(c.data.language) then c.data.language.value else before.language)
      && after.updatedAt == now
      && after.(code := before.code, language := before.language, updatedAt := before.updatedAt) == before
      && o.emits == [Emit(ToPeers(c.data.roomId, c.conn.socketId), CodeUpdate(after.code, after.language))]
  {
    var roomId := c.data.roomId;
    if roomId !in records then Outcome(records, [])
    else
      var room := records[roomId];
      if !MayEdit(room, c.conn.userId) then
        Outcome(records, [Emit(ToSocket(c.conn.socketId), Error(ReadOnlyMessage))])
      else
        var saved := EditRecord(room, c.data.code, c.data.language, now);
        Outcome(records[roomId := saved],
                [Emit(ToPeers(roomId, c.conn.socketId), CodeUpdate(c.data.code, Or(c.data.language, saved.language)))])
  }

  /** The `language_change` handler: no read-only check, the record's
      language is set to whatever was sent, and every member of the room,
      the sender included, hears of it. */
  function LanguageStep(records: map<RoomId, Room>, roomId: RoomId, language: string, now: nat): (o: Outcome)
    ensures Keyed(records) ==> Keyed(o.records)
    ensures roomId !in records ==> o == Outcome(records, [])
    ensures roomId in records ==> o.records.Keys == records.Keys
    ensures roomId in records ==>
      && (forall k :: k in records && k != roomId ==> o.records[k] == records[k])
      && o.records[roomId].language == language
      && o.records[roomId].updatedAt == now
      && o.records[roomId].(language := records[roomId].language, updatedAt := records[roomId].updatedAt) == records[roomId]
      && o.emits == [Emit(ToRoom(roomId), LanguageUpdate(language))]
  {
    if roomId !in records then Outcome(records, [])
    else
      var room := records[roomId];
      Outcome(records[roomId := Saved(room.(language := language), now)],
              [Emit(ToRoom(roomId), LanguageUpdate(language))])
  }

  /** The `users_update` emits of disconnect's `forEach`, in table order:
      one for each room that held the socket, listing the room after the
      deletion. */
  function DisconnectEmits(t: Table, s: SocketId): (es: seq<Emit>)
    ensures |es| <= |t|
    decreases |t|
  {
    if t == [] then []
    else
      var e := t[|t| - 1];
      DisconnectEmits(t[..|t| - 1], s) + (if Has(e.1, s) then [Announce(e.0, Delete(e.1, s))] else [])
  }

  function Recipients(es: seq<Emit>): seq<Recipient>
  {
    seq(|es|, j requires 0 <= j < |es| => es[j].to)
  }

  /** Reading a table whose last entry is `e` splits into reading the rest
      and reading `e`. */
  lemma MembersOfSnoc(p: Table, e: (RoomId, Members), r: RoomId)
    requires Valid(p + [e])
    ensures Valid(p) && !Has(p, e.0)
    ensures MembersOf(p + [e], r) == if r == e.0 then e.1 else MembersOf(p, r)
  {
    var t := p + [e];
    assert forall i :: 0 <= i < |p| ==> p[i] == t[i];
    assert Keys(t) == Keys(p) + [e.0];
    if r == e.0 {
      assert t[|p|] == (r, e.1);
      EntryIsGet(t, r, e.1);
    } else if Has(p, r) {
      var v := Get(p, r);
      assert (r, v) in t;
      EntryIsGet(t, r, v);
    } else {
      assert !Has(t, r);
    }
  }

  /** An emit of disconnect: the snapshot of a room that held the socket,
      taken after the deletion. */
  ghost predicate RemovalSnapshot(t: Table, s: SocketId, e: Emit)
  {
    && e.to.ToRoom?
    && Has(MembersOf(t, e.to.roomId), s)
    && e == Announce(e.to.roomId, Delete(MembersOf(t, e.to.roomId), s))
  }

  /** Peeling off the last room of the table. */
  lemma DisconnectEmitsSnoc(t: Table, s: SocketId)
    requires Valid(t) && t != []
    ensures Valid(t[..|t| - 1]) && !Has(t[..|t| - 1], t[|t| - 1].0)
    ensures forall r :: MembersOf(t, r) == if r == t[|t| - 1].0 then t[|t| - 1].1 else MembersOf(t[..|t| - 1], r)
    ensures DisconnectEmits(t, s) == DisconnectEmits(t[..|t| - 1], s) +
      (if Has(t[|t| - 1].1, s) then [Announce(t[|t| - 1].0, Delete(t[|t| - 1].1, s))] else [])
  {
    var p, e := t[..|t| - 1], t[|t| - 1];
    assert t == p + [e];
    forall r ensures MembersOf(t, r) == if r == e.0 then e.1 else MembersOf(p, r) {
      MembersOfSnoc(p, e, r);
    }
    MembersOfSnoc(p, e, e.0);
  }

  /** Every disconnect emit is a removal snapshot. */
  lemma {:induction false} DisconnectEmitsAreSnapshots(t: Table, s: SocketId)
    requires Valid(t)
    ensures forall j :: 0 <= j < |DisconnectEmits(t, s)| ==> RemovalSnapshot(t, s, DisconnectEmits(t, s)[j])
    decreases |t|
  {
    if t != [] {
      var p, e := t[..|t| - 1], t[|t| - 1];
      DisconnectEmitsSnoc(t, s);
      DisconnectEmitsAreSnapshots(p, s);
      var ep := DisconnectEmits(p, s);
      var es := DisconnectEmits(t, s);
      forall j | 0 <= j < |es| ensures RemovalSnapshot(t, s, es[j]) {
        if j < |ep| {
          assert es[j] == ep[j] && RemovalSnapshot(p, s, ep[j]);
          assert ep[j].to.roomId != e.0;
        }
      }
    }
  }

  /** Every room that held the socket is announced. */
  lemma {:induction false} DisconnectEmitsCover(t: Table, s: SocketId)
    requires Valid(t)
    ensures forall r :: Has(MembersOf(t, r), s) ==> ToRoom(r) in Recipients(DisconnectEmits(t, s))
    decreases |t|
  {
    if t != [] {
      var p, e := t[..|t| - 1], t[|t| - 1];
      DisconnectEmitsSnoc(t, s);
      DisconnectEmitsCover(p, s);
      var ep := DisconnectEmits(p, s);
      var es := DisconnectEmits(t, s);
      forall r | Has(MembersOf(t, r), s) ensures ToRoom(r) in Recipients(es) {
        if r == e.0 {
          assert Has(e.1, s);
          assert Recipients(es)[|es| - 1] == ToRoom(r);
        } else {
          assert Has(MembersOf(p, r), s);
          var j :| 0 <= j < |ep| && Recipients(ep)[j] == ToRoom(r);
          assert es[j] == ep[j];
          assert Recipients(es)[j] == ToRoom(r);
        }
      }
    }
  }

  /** No room is announced twice. */
  lemma {:induction false} DisconnectEmitsOncePerRoom(t: Table, s: SocketId)
    requires Valid(t)
    ensures forall i, j :: 0 <= i < j < |DisconnectEmits(t, s)| ==>
      DisconnectEmits(t, s)[i].to != DisconnectEmits(t, s)[j].to
    decreases |t|
  {
    if t != [] {
      var p, e := t[..|t| - 1], t[|t| - 1];
      DisconnectEmitsSnoc(t, s);
      DisconnectEmitsOncePerRoom(p, s);
      DisconnectEmitsAreSnapshots(p, s);
      var ep := DisconnectEmits(p, s);
      assert forall j :: 0 <= j < |ep| ==> ep[j].to != ToRoom(e.0) by {
        forall j | 0 <= j < |ep| ensures ep[j].to != ToRoom(e.0) {
          assert RemovalSnapshot(p, s, ep[j]);
        }
      }
    }
  }

  /** What disconnect announces, in terms of the table it leaves behind:
      exactly the rooms that held the socket, each once, each with its
      membership after the removal. */
  lemma DisconnectAnnouncesExactly(t: Table, s: SocketId)
    requires Valid(t)
    ensures forall j :: 0 <= j < |DisconnectEmits(t, s)| ==>
      var e := DisconnectEmits(t, s)[j];
      && e.to.ToRoom?
      && Has(MembersOf(t, e.to.roomId), s)
      && e == Announce(e.to.roomId, MembersOf(Registry.Disconnect(t, s), e.to.roomId))
    ensures forall r :: ToRoom(r) in Recipients(DisconnectEmits(t, s)) <==> Has(MembersOf(t, r), s)
    ensures forall i, j :: 0 <= i < j < |DisconnectEmits(t, s)| ==>
      DisconnectEmits(t, s)[i].to != DisconnectEmits(t, s)[j].to
  {
    DisconnectEmitsAreSnapshots(t, s);
    DisconnectEmitsCover(t, s);
    DisconnectEmitsOncePerRoom(t, s);
    DisconnectSpec(t, s);
    var es := DisconnectEmits(t, s);
    forall r | ToRoom(r) in Recipients(es) ensures Has(MembersOf(t, r), s) {
      var j :| 0 <= j < |es| && Recipients(es)[j] == ToRoom(r);
      assert RemovalSnapshot(t, s, es[j]);
    }
  }

  /** The per-connection debounce slot; a connection that never sent
      `code_change` has an idle one. */
  function TimerOf(timers: map<SocketId, Debounce.Timer<Call>>, s: SocketId): Debounce.Timer<Call>
  {
    if s in timers then timers[s] else Debounce.Idle
  }

  class Server {
    /** The room directory, shared with the HTTP routes. */
    const store: RoomRoutes.RoomStore
    /** `roomUsers`. */
    var users: Table
    /** One debounced `code_change` per connection, keyed by socket id. */
    var timers: map<SocketId, Debounce.Timer<Call>>
    /** Every event emitted so far, oldest first. */
    var outbox: seq<Emit>

    ghost predicate Valid()
      reads this, store
    {
      store.Valid() && Registry.Valid(users)
    }

    constructor (store: RoomRoutes.RoomStore)
      requires store.Valid()
      ensures Valid() && this.store == store
      ensures users == [] && timers == map[] && outbox == []
    {
      this.store := store;
      users := [];
      timers := map[];
      outbox := [];
    }

    /** `join_room`. */
    method JoinRoom(c: Conn, roomId: RoomId)
      requires Valid()
      modifies this
      ensures Valid()
      ensures timers == old(timers)
      ensures roomId !in store.records ==>
        && users == old(users)
        && outbox == old(outbox) + [Emit(ToSocket(c.socketId), Error(RoomNotFoundMessage))]
      ensures roomId in store.records ==>
        && users == Registry.Join(old(users), roomId, UserOf(c))
        && outbox == old(outbox) + [
             Emit(ToSocket(c.socketId), CodeUpdate(store.records[roomId].code, store.records[roomId].language)),
             Announce(roomId, MembersOf(users, roomId))]
    {
      if roomId !in store.records {
        outbox := outbox + [Emit(ToSocket(c.socketId), Error(RoomNotFoundMessage))];
        return;
      }
      var room := store.records[roomId];
      JoinSpec(users, roomId, UserOf(c));
      users := Registry.Join(users, roomId, UserOf(c));
      outbox := outbox + [Emit(ToSocket(c.socketId), CodeUpdate(room.code, room.language))];
      outbox := outbox + [Announce(roomId, MembersOf(users, roomId))];
    }

    /** `leave_room`: for a room the table does not know nothing happens;
        otherwise the room is announced even if the socket was not in it. */
    method LeaveRoom(c: Conn, roomId: RoomId)
      requires Valid()
      modifies this
      ensures Valid()
      ensures timers == old(timers)
      ensures users == Registry.Leave(old(users), roomId, c.socketId)
      ensures outbox == old(outbox) +
        (if Has(old(users), roomId) then [Announce(roomId, MembersOf(users, roomId))] else [])
    {
      LeaveSpec(users, roomId, c.socketId);
      if Has(users, roomId) {
        users := Registry.Leave(users, roomId, c.socketId);
        outbox := outbox + [Announce(roomId, MembersOf(users, roomId))];
      }
    }

    /** `disconnect`: the `forEach` over every room of the table. A pending
        debounced edit of this connection stays scheduled. */
    method Disconnect(s: SocketId)
      requires Valid()
      modifies this
      ensures Valid()
      ensures timers == old(timers)
      ensures users == Registry.Disconnect(old(users), s)
      ensures outbox == old(outbox) + DisconnectEmits(old(users), s)
    {
      var i := 0;
      while i < |users|
        invariant 0 <= i <= |users| == |old(users)|
        invariant forall j :: 0 <= j < i ==> users[j] == DisconnectEntry(old(users)[j], s)
        invariant forall j :: i <= j < |users| ==> users[j] == old(users)[j]
        invariant outbox == old(outbox) + DisconnectEmits(old(users)[..i], s)
        invariant timers == old(timers)
      {
        var (roomId, ms) := users[i];
        if Has(ms, s) {
          ms := Delete(ms, s);
          users := users[i := (roomId, ms)];
          outbox := outbox + [Announce(roomId, ms)];
        }
        assert old(users)[..i + 1][..i] == old(users)[..i];
        i := i + 1;
      }
      assert old(users)[..i] == old(users);
      assert users == Registry.Disconnect(old(users), s);
      DisconnectSpec(old(users), s);
    }

    /** `code_change`: hands the data to this connection's debounced
        function; nothing is written or sent until its timer fires. */
    method CodeChange(c: Conn, data: CodeChangeData)
      requires Valid()
      modifies this
      ensures Valid()
      ensures users == old(users) && outbox == old(outbox)
      ensures timers == old(timers)[c.socketId := Debounce.Call(TimerOf(old(timers), c.socketId), Call(c, data))]
    {
      timers := timers[c.socketId := Debounce.Call(TimerOf(timers, c.socketId), Call(c, data))];
    }

    /** The debounce timer of connection `s` elapses at time `now`. */
    method FireCodeChange(s: SocketId, now: nat)
      requires Valid()
      modifies this, store
      ensures Valid()
      ensures users == old(users)
      ensures timers == old(timers)[s := Debounce.Idle]
      ensures TimerOf(old(timers), s).Idle? ==>
        store.records == old(store.records) && outbox == old(outbox)
      ensures TimerOf(old(timers), s).Scheduled? ==>
        var o := CodeChangeStep(old(store.records), TimerOf(old(timers), s).args, now);
        store.records == o.records && outbox == old(outbox) + o.emits
    {
      var f := Debounce.Fire(TimerOf(timers, s));
      timers := timers[s := f.after];
      if f.run.Some? {
        var o := CodeChangeStep(store.records, f.run.value, now);
        store.records := o.records;
        outbox := outbox + o.emits;
      }
    }

    /** `cursor_move`: relayed to the sender's peers, with no check and no
        state kept. */
    method CursorMove(c: Conn, roomId: RoomId, cursorPos: string)
      requires Valid()
      modifies this
      ensures Valid()
      ensures users == old(users) && timers == old(timers)
      ensures outbox == old(outbox) + [Emit(ToPeers(roomId, c.socketId), CursorUpdate(c.userId, c.userName, cursorPos))]
    {
      outbox := outbox + [Emit(ToPeers(roomId, c.socketId), CursorUpdate(c.userId, c.userName, cursorPos))];
    }

    /** `language_change` at time `now`. */
    method LanguageChange(c: Conn, roomId: RoomId, language: string, now: nat)
      requires Valid()
      modifies this, store
      ensures Valid()
      ensures users == old(users) && timers == old(timers)
      ensures var o := LanguageStep(old(store.records), roomId, language, now);
        store.records == o.records && outbox == old(outbox) + o.emits
    {
      var o := LanguageStep(store.records, roomId, language, now);
      store.records := o.records;
      outbox := outbox + o.emits;
    }
  }
}
