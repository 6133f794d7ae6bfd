/**
 * The module-level rooms Map of utils/game_state.ts as an object whose
 * fields the functions of that file and the message and close handlers of
 * routes/api/ws.ts reassign. Each method is proved to leave the registry as
 * the matching function of module Registry says, and to keep it well formed.
 */
module Server {
  import opened Wrappers
  import opened GameTypes
  import opened Broadcast
  import Transitions
  import Registry

  class RoomTable {
    /** The ids in insertion order, the iteration order of the Map. */
    var order: seq<string>
    /** The rooms by id. */
    var rooms: map<string, RoomState>

    /** The registry's current value. */
    function Value(): Registry.Table
      reads this
    {
      Registry.Table(order, rooms)
    }

    ghost predicate Valid()
      reads this
    {
      Registry.TableOk(Value())
    }

    /** The empty Map the server starts with. */
    constructor ()
      ensures Value() == Registry.Table([], map[])
      ensures Valid()
    {
      order := [];
      rooms := map[];
    }

    /** getRoom: the room under `roomId`, if there is one; a room found sits under its own id and is well formed. */
    method GetRoom(roomId: string) returns (room: Option<RoomState>)
      requires Valid()
      ensures room.Some? <==> roomId in rooms
      ensures room.Some? ==> room.value == rooms[roomId] && room.value.id == roomId && WellFormed(room.value)
    {
      if roomId in rooms {
        room := Some(rooms[roomId]);
      } else {
        room := None;
      }
    }

    /** createRoom: a fresh room under `roomId`, replacing any room already there. */
    method CreateRoom(roomId: string, hostName: string, hostId: string)
      requires Valid()
      modifies this
      ensures Value() == Registry.CreateRoom(old(Value()), roomId, hostName, hostId)
      ensures Valid()
    {
      Registry.CreateRoomKeepsTableOk(Value(), roomId, hostName, hostId);
      if roomId !in rooms {
        order := order + [roomId];
      }
      rooms := rooms[roomId := Transitions.NewRoom(roomId, hostName, hostId)];
    }

    /** joinRoom: nothing for an unknown id; otherwise the new player, added to that room. */
    method JoinRoom(roomId: string, playerName: string, conn: Conn, playerId: string) returns (player: Option<Player>)
      requires Valid() && Registry.FreshIn(Value(), roomId, playerId)
      modifies this
      ensures (Value(), player) == Registry.JoinRoom(old(Value()), roomId, playerName, conn, playerId)
      ensures Valid()
    {
      Registry.JoinRoomAdds(Value(), roomId, playerName, conn, playerId);
      var room := GetRoom(roomId);
      if room.None? {
        return None;
      }
      var joined := Transitions.AddPlayer(room.value, playerId, playerName, conn);
      rooms := rooms[roomId := joined];
      player := Some(joined.players[playerId]);
    }

    /** removePlayer: `true` exactly when the room was left empty and deleted. */
    method RemovePlayer(roomId: string, playerId: string) returns (deleted: bool)
      requires Valid()
      modifies this
      ensures (Value(), deleted) == Registry.RemovePlayer(old(Value()), roomId, playerId)
      ensures Valid()
    {
      Registry.RemovePlayerKeepsTableOk(Value(), roomId, playerId);
      var room := GetRoom(roomId);
      if room.None? {
        return false;
      }
      var left := Transitions.RemovePlayer(room.value, playerId);
      deleted := |left.players| == 0;
      if deleted {
        rooms := rooms - {roomId};
        order := Transitions.Without(order, roomId);
      } else {
        rooms := rooms[roomId := left];
      }
    }

    /** The inner search of handleMessage and onclose: the first player of `room`, in join order, bound to `conn`. */
    static method FindBound(room: RoomState, conn: Conn) returns (pid: Option<string>)
      ensures pid == Registry.BoundFrom(room, conn, 0)
    {
      var j := 0;
      while j < |room.order|
        invariant 0 <= j <= |room.order|
        invariant Registry.BoundFrom(room, conn, j) == Registry.BoundFrom(room, conn, 0)
      {
        var p := room.order[j];
        if p in room.players && room.players[p].socket == Some(conn) {
          return Some(p);
        }
        j := j + 1;
      }
      return None;
    }

    /** The nested search of handleMessage and onclose: the first room, in insertion order, with a player bound to `conn`. */
    method FindSender(conn: Conn) returns (b: Option<Registry.Binding>)
      requires Valid()
      ensures b == Registry.SenderOf(Value(), conn)
    {
      var i := 0;
      while i < |order|
        invariant 0 <= i <= |order|
        invariant Registry.SenderFrom(Value(), conn, i) == Registry.SenderOf(Value(), conn)
      {
        var pid := FindBound(rooms[order[i]], conn);
        if pid.Some? {
          return Some(Registry.Binding(order[i], pid.value));
        }
        i := i + 1;
      }
      return None;
    }

    /** The join case of handleMessage. */
    method Join(conn: Conn, roomId: string, playerName: string, freshId: string) returns (out: seq<Delivery>)
      requires Valid() && Registry.FreshIn(Value(), roomId, freshId)
      modifies this
      ensures Registry.Reply(Value(), out) == Registry.HandleJoin(old(Value()), conn, roomId, playerName, freshId)
      ensures Valid()
    {
      Registry.HandleJoinKeepsTableOk(Value(), conn, roomId, playerName, freshId);
      var room := GetRoom(roomId);
      if room.None? {
        CreateRoom(roomId, playerName, freshId);
        var bound := Transitions.BindSocket(rooms[roomId], freshId, conn);
        rooms := rooms[roomId := bound];
        out := StateDeliveries(bound);
      } else if room.value.phase != Lobby {
        out := [Delivery(conn, ErrorMessage(GameStartedError))];
      } else {
        Transitions.AddPlayerKeepsWellFormed(room.value, freshId, playerName, conn);
        var player := JoinRoom(roomId, playerName, conn, freshId);
        if player.Some? {
          out := StateDeliveries(rooms[roomId]);
        } else {
          out := [];
        }
      }
    }

    /**
     * handleMessage: a join goes to `Join`; any other message is handled by
     * the room of the player bound to the connection, if there is one, and
     * the step's effect is delivered.
     */
    method HandleMessage(conn: Conn, msg: Message, freshId: string, swaps: seq<nat>) returns (out: seq<Delivery>)
      requires Valid() && Transitions.SwapsOk(swaps)
      requires msg.Join? ==> Registry.FreshIn(Value(), msg.roomId, freshId)
      modifies this
      ensures Registry.Reply(Value(), out) == Registry.Handle(old(Value()), conn, msg, freshId, swaps)
      ensures Valid()
    {
      if msg.Join? {
        out := Join(conn, msg.roomId, msg.playerName, freshId);
        return;
      }
      ghost var t := Value();
      var info := FindSender(conn);
      if info.None? {
        return [];
      }
      var b := info.value;
      Registry.StepKeepsTableOk(t, b, msg, swaps);
      Transitions.StepKeepsWellFormed(rooms[b.roomId], b.playerId, msg, swaps);
      var o := Transitions.Step(rooms[b.roomId], b.playerId, msg, swaps);
      rooms := rooms[b.roomId := o.state];
      out := Registry.Deliver(o, msg);
      assert Value() == t.(rooms := t.rooms[b.roomId := o.state]);
    }

    /**
     * onclose: the first player bound to the closing connection leaves; when
     * its room survives, the others hear who left and get the new state.
     */
    method Close(conn: Conn) returns (out: seq<Delivery>)
      requires Valid()
      modifies this
      ensures Registry.Reply(Value(), out) == Registry.Close(old(Value()), conn)
      ensures Valid()
    {
      var info := FindSender(conn);
      if info.None? {
        return [];
      }
      var b := info.value;
      Transitions.RemovePlayerKeepsWellFormed(rooms[b.roomId], b.playerId);
      var deleted := RemovePlayer(b.roomId, b.playerId);
      if deleted {
        return [];
      }
      var room := rooms[b.roomId];
      out := RawDeliveries(room, PlayerLeft(b.playerId)) + StateDeliveries(room);
    }
  }
}
