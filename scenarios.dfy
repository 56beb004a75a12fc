/** Clients of the engine: short runs of events whose outcome follows from
    the operations' contracts alone. */
module Scenarios {
  import opened Js
  import opened OrderedMap
  import opened SocketHandler
  import RoomRoutes
  import Debounce

  /** Two connections join a fresh room; one edits. Nothing is sent before
      its timer fires; then only the other connection's peers-broadcast is
      made and the record holds the edit. */
  method TwoPeersEdit()
  {
    var store := new RoomRoutes.RoomStore();
    var created := store.Create("r1", "alice", 0);
    assert created == RoomRoutes.Created("r1", 0);
    var server := new Server(store);
    var a := Conn("sa", "alice", "Alice");
    var b := Conn("sb", "bob", "Bob");
    server.JoinRoom(a, "r1");
    server.JoinRoom(b, "r1");
    var before := |server.outbox|;
    server.CodeChange(a, CodeChangeData("r1", "x=1", None));
    assert |server.outbox| == before;
    server.FireCodeChange("sa", 1);
    assert server.outbox[before..] == [Emit(ToPeers("r1", "sa"), CodeUpdate("x=1", "javascript"))];
    assert store.records["r1"].code == "x=1" && store.records["r1"].updatedAt == 1;
  }

  /** Three quick edits before the timer fires: nothing is written until
      it fires, then the one write stores the last edit. */
  method BurstOfEdits()
  {
    var store := new RoomRoutes.RoomStore();
    var created := store.Create("r1", "alice", 0);
    assert created.Created? && store.records["r1"].code == "";
    var server := new Server(store);
    var a := Conn("sa", "alice", "Alice");
    server.JoinRoom(a, "r1");
    server.CodeChange(a, CodeChangeData("r1", "1", None));
    server.CodeChange(a, CodeChangeData("r1", "2", None));
    server.CodeChange(a, CodeChangeData("r1", "3", None));
    assert TimerOf(server.timers, "sa") == Debounce.Scheduled(Call(a, CodeChangeData("r1", "3", None)));
    assert store.records["r1"].code == "";
    var before := |server.outbox|;
    server.FireCodeChange("sa", 5);
    assert store.records["r1"].code == "3";
    assert server.outbox[before..] == [Emit(ToPeers("r1", "sa"), CodeUpdate("3", "javascript"))];
  }

  /** A fire with nothing pending does nothing: the timer went idle at the
      first fire, so the second writes and sends nothing. */
  method SecondFireIsIdle()
  {
    var store := new RoomRoutes.RoomStore();
    var created := store.Create("r1", "alice", 0);
    assert created.Created?;
    var server := new Server(store);
    var a := Conn("sa", "alice", "Alice");
    server.JoinRoom(a, "r1");
    server.CodeChange(a, CodeChangeData("r1", "1", None));
    server.FireCodeChange("sa", 5);
    assert store.records["r1"].code == "1" && store.records["r1"].updatedAt == 5;
    var before := |server.outbox|;
    server.FireCodeChange("sa", 6);
    assert server.outbox[before..] == [] && store.records["r1"].updatedAt == 5;
  }

  /** An edit still pending when its connection disconnects: disconnecting
      leaves the timer and the record alone, and the later fire writes the
      edit. */
  method EditThenDisconnect()
  {
    var store := new RoomRoutes.RoomStore();
    var created := store.Create("r1", "alice", 0);
    assert created.Created? && store.records["r1"].code == "";
    var server := new Server(store);
    var a := Conn("sa", "alice", "Alice");
    server.CodeChange(a, CodeChangeData("r1", "x", None));
    ghost var pending := Debounce.Scheduled(Call(a, CodeChangeData("r1", "x", None)));
    assert TimerOf(server.timers, "sa") == pending;
    server.Disconnect("sa");
    assert TimerOf(server.timers, "sa") == pending;
    assert store.records["r1"].code == "";
    server.FireCodeChange("sa", 5);
    assert store.records["r1"].code == "x";
  }

  /** Joining a room the directory does not hold: one error to the sender,
      the table unchanged. */
  method JoinUnknownRoom()
  {
    var store := new RoomRoutes.RoomStore();
    var server := new Server(store);
    server.JoinRoom(Conn("sa", "alice", "Alice"), "nope");
    assert server.outbox == [Emit(ToSocket("sa"), Error("Room not found"))];
    assert server.users == [];
  }
}
