/**
 * The room registry of utils/game_state.ts and the message handling of
 * routes/api/ws.ts, over values: the rooms Map with its insertion order,
 * createRoom, joinRoom and removePlayer, the lookup of the room and player a
 * connection is bound to, handleMessage and the removal when a connection
 * closes. The class in server.dfy is proved to do exactly this.
 */
module Registry {
  import opened Wrappers
  import opened GameTypes
  import opened Projection
  import opened Broadcast
  import Transitions

  /** The rooms Map; `order` lists its keys in insertion order. */
  datatype Table = Table(order: seq<string>, rooms: map<string, RoomState>)

  /** The room and the player a connection is bound to. */
  datatype Binding = Binding(roomId: string, playerId: string)

  /** The registry after a message, and what was handed to which connection. */
  datatype Reply = Reply(table: Table, out: seq<Delivery>)

  /** Every room sits under its own id, is well formed and has at least one player. */
  ghost predicate TableOk(t: Table) {
    && NoDup(t.order)
    && (forall k :: k in t.rooms <==> k in t.order)
    && (forall k :: k in t.rooms ==> t.rooms[k].id == k && WellFormed(t.rooms[k]) && |t.rooms[k].order| > 0)
  }

  /**
   * A freshly generated player id: unknown to the room it joins, and not the
   * id of its host either (a host that left keeps its id in `hostId`).
   */
  predicate FreshIn(t: Table, roomId: string, playerId: string) {
    roomId in t.rooms ==> playerId !in t.rooms[roomId].players && playerId != t.rooms[roomId].hostId
  }

  // ---------------------------------------------------------------------
  // createRoom, joinRoom, removePlayer
  // ---------------------------------------------------------------------

  /**
   * createRoom: a new room under `roomId` whose only player is its host. A
   * room already under that id is replaced, and the id keeps its place.
   */
  function CreateRoom(t: Table, roomId: string, hostName: string, hostId: string): (r: Table)
    ensures roomId in r.rooms && r.rooms[roomId] == Transitions.NewRoom(roomId, hostName, hostId)
    ensures forall k :: k != roomId ==> (k in r.rooms <==> k in t.rooms)
    ensures forall k :: k in t.rooms && k != roomId ==> r.rooms[k] == t.rooms[k]
  {
    Table(if roomId in t.rooms then t.order else t.order + [roomId],
          t.rooms[roomId := Transitions.NewRoom(roomId, hostName, hostId)])
  }

  lemma CreateRoomKeepsTableOk(t: Table, roomId: string, hostName: string, hostId: string)
    requires TableOk(t)
    ensures TableOk(CreateRoom(t, roomId, hostName, hostId))
    ensures CreateRoom(t, roomId, hostName, hostId).order
         == if roomId in t.rooms then t.order else t.order + [roomId]
  {
  }

  /**
   * joinRoom: nothing when no room has the id; otherwise a new non-host
   * player with score 0, bound to `conn`, is added at the end of the room's
   * players.
   */
  function JoinRoom(t: Table, roomId: string, playerName: string, conn: Conn, playerId: string): (Table, Option<Player>)
    requires FreshIn(t, roomId, playerId)
  {
    if roomId !in t.rooms then (t, None)
    else
      var s := Transitions.AddPlayer(t.rooms[roomId], playerId, playerName, conn);
      (t.(rooms := t.rooms[roomId := s]), Some(s.players[playerId]))
  }

  lemma JoinRoomAdds(t: Table, roomId: string, playerName: string, conn: Conn, playerId: string)
    requires TableOk(t) && FreshIn(t, roomId, playerId)
    ensures var (r, player) := JoinRoom(t, roomId, playerName, conn, playerId);
      && TableOk(r)
      && (player.None? <==> roomId !in t.rooms)
      && (player.None? ==> r == t)
      && (player.Some? ==>
            && player.value == Player(playerId, playerName, false, 0, Some(conn))
            && r.rooms[roomId].order == t.rooms[roomId].order + [playerId]
            && r.rooms[roomId].players[playerId] == player.value
            && r.order == t.order
            && forall k :: k in t.rooms && k != roomId ==> r.rooms[k] == t.rooms[k])
  {
    if roomId in t.rooms {
      Transitions.AddPlayerKeepsWellFormed(t.rooms[roomId], playerId, playerName, conn);
    }
  }

  /**
   * removePlayer: the player leaves the room; a room left empty is deleted
   * and `true` returned. An unknown room gives `false` and no change.
   */
  function RemovePlayer(t: Table, roomId: string, playerId: string): (r: (Table, bool))
    ensures r.1 <==> roomId in t.rooms && t.rooms[roomId].players.Keys <= {playerId}
    ensures r.1 ==> r.0 == Table(Transitions.Without(t.order, roomId), t.rooms - {roomId})
    ensures !r.1 && roomId in t.rooms ==>
      r.0 == t.(rooms := t.rooms[roomId := Transitions.RemovePlayer(t.rooms[roomId], playerId)])
    ensures roomId !in t.rooms ==> r.0 == t
  {
    if roomId !in t.rooms then (t, false)
    else
      var s := Transitions.RemovePlayer(t.rooms[roomId], playerId);
      if |s.players| == 0 then
        (Table(Transitions.Without(t.order, roomId), t.rooms - {roomId}), true)
      else
        assert s.players.Keys != {};
        (t.(rooms := t.rooms[roomId := s]), false)
  }

  lemma RemovePlayerKeepsTableOk(t: Table, roomId: string, playerId: string)
    requires TableOk(t)
    ensures TableOk(RemovePlayer(t, roomId, playerId).0)
  {
    if roomId in t.rooms {
      var s := Transitions.RemovePlayer(t.rooms[roomId], playerId);
      if |s.players| != 0 {
        Transitions.RemovePlayerKeepsWellFormed(t.rooms[roomId], playerId);
        Transitions.PlayerCount(s);
        RoomUpdateKeepsTableOk(t, roomId, s);
      }
    }
  }

  /** Replacing one room by a well formed room with players, under the same id, keeps the table well formed. */
  lemma RoomUpdateKeepsTableOk(t: Table, roomId: string, s: RoomState)
    requires TableOk(t) && roomId in t.rooms
    requires s.id == roomId && WellFormed(s) && |s.order| > 0
    ensures TableOk(t.(rooms := t.rooms[roomId := s]))
  {
  }

  // ---------------------------------------------------------------------
  // The lookup of a connection's room and player
  // ---------------------------------------------------------------------

  /** Whether the player `pid` of room `s` is bound to `conn`. */
  predicate BoundTo(s: RoomState, pid: string, conn: Conn) {
    pid in s.players && s.players[pid].socket == Some(conn)
  }

  /** The first player of `s`, in join order from position `j` on, that is bound to `conn`. */
  function BoundFrom(s: RoomState, conn: Conn, j: nat): (r: Option<string>)
    ensures r.Some? ==> BoundTo(s, r.value, conn)
    ensures r.Some? ==> exists k ::
      j <= k < |s.order| && s.order[k] == r.value &&
      forall m :: j <= m < k ==> !BoundTo(s, s.order[m], conn)
    ensures r.None? ==> forall k :: j <= k < |s.order| ==> !BoundTo(s, s.order[k], conn)
    decreases |s.order| - j
  {
    if j >= |s.order| then None
    else if BoundTo(s, s.order[j], conn) then
      Some(s.order[j])
    else BoundFrom(s, conn, j + 1)
  }

  /**
   * The first room, in insertion order from position `i` on, with a player
   * bound to `conn`, and that room's first such player.
   */
  function SenderFrom(t: Table, conn: Conn, i: nat): (r: Option<Binding>)
    requires forall k :: k in t.order ==> k in t.rooms
    ensures r.Some? ==> r.value.roomId in t.rooms && BoundTo(t.rooms[r.value.roomId], r.value.playerId, conn)
    ensures r.Some? ==> exists k ::
      i <= k < |t.order| && t.order[k] == r.value.roomId &&
      BoundFrom(t.rooms[t.order[k]], conn, 0) == Some(r.value.playerId) &&
      forall m :: i <= m < k ==> BoundFrom(t.rooms[t.order[m]], conn, 0).None?
    ensures r.None? ==> forall k :: i <= k < |t.order| ==> BoundFrom(t.rooms[t.order[k]], conn, 0).None?
    decreases |t.order| - i
  {
    if i >= |t.order| then None
    else match BoundFrom(t.rooms[t.order[i]], conn, 0)
      case Some(pid) =>
        Some(Binding(t.order[i], pid))
      case None => SenderFrom(t, conn, i + 1)
  }

  /** The lookup at the top of handleMessage and in the close handler. */
  function SenderOf(t: Table, conn: Conn): (r: Option<Binding>)
    requires forall k :: k in t.order ==> k in t.rooms
  {
    SenderFrom(t, conn, 0)
  }

  /** A connection has a sender exactly when some player of some room is bound to it, and that is the player found. */
  lemma SenderOfFindsBoundPlayer(t: Table, conn: Conn)
    requires TableOk(t)
    ensures SenderOf(t, conn).Some? ==>
      var b := SenderOf(t, conn).value;
      b.roomId in t.rooms && BoundTo(t.rooms[b.roomId], b.playerId, conn)
    ensures SenderOf(t, conn).None? <==>
      forall rid, pid :: rid in t.rooms ==> !BoundTo(t.rooms[rid], pid, conn)
  {
    if SenderOf(t, conn).None? {
      forall rid, pid | rid in t.rooms
        ensures !BoundTo(t.rooms[rid], pid, conn)
      {
        var k :| 0 <= k < |t.order| && t.order[k] == rid;
        assert BoundFrom(t.rooms[rid], conn, 0).None?;
      }
    }
  }

  // ---------------------------------------------------------------------
  // handleMessage and onclose
  // ---------------------------------------------------------------------

  /** What a room step sends: the state to every bound player, the message relayed verbatim, or nothing. */
  function Deliver(o: Transitions.Outcome, msg: Message): seq<Delivery>
    requires Consistent(o.state)
  {
    match o.effect
    case Silent => []
    case BroadcastState => StateDeliveries(o.state)
    case RelayRaw => RawDeliveries(o.state, Raw(msg))
  }

  /**
   * The join case: an unknown room id creates the room with the joiner as its
   * host, bound to the connection; a started game answers the connection
   * alone with an error; otherwise the joiner is added. Every change is
   * followed by the room's state.
   */
  function HandleJoin(t: Table, conn: Conn, roomId: string, playerName: string, freshId: string): Reply
    requires TableOk(t) && FreshIn(t, roomId, freshId)
  {
    if roomId !in t.rooms then
      var created := CreateRoom(t, roomId, playerName, freshId);
      var s := Transitions.BindSocket(created.rooms[roomId], freshId, conn);
      Reply(created.(rooms := created.rooms[roomId := s]), StateDeliveries(s))
    else if t.rooms[roomId].phase != Lobby then
      Reply(t, [Delivery(conn, ErrorMessage(GameStartedError))])
    else
      var (joined, player) := JoinRoom(t, roomId, playerName, conn, freshId);
      Transitions.AddPlayerKeepsWellFormed(t.rooms[roomId], freshId, playerName, conn);
      if player.Some? then Reply(joined, StateDeliveries(joined.rooms[roomId])) else Reply(joined, [])
  }

  /**
   * handleMessage: a join goes through `HandleJoin`; any other message from a
   * connection bound to no player is dropped; otherwise the sender's room
   * takes the step and the step's effect is delivered.
   */
  function Handle(t: Table, conn: Conn, msg: Message, freshId: string, swaps: seq<nat>): Reply
    requires TableOk(t) && Transitions.SwapsOk(swaps)
    requires msg.Join? ==> FreshIn(t, msg.roomId, freshId)
  {
    if msg.Join? then HandleJoin(t, conn, msg.roomId, msg.playerName, freshId)
    else match SenderOf(t, conn)
      case None => Reply(t, [])
      case Some(b) =>
        var s := t.rooms[b.roomId];
        var o := Transitions.Step(s, b.playerId, msg, swaps);
        Transitions.StepKeepsWellFormed(s, b.playerId, msg, swaps);
        Reply(t.(rooms := t.rooms[b.roomId := o.state]), Deliver(o, msg))
  }

  /**
   * onclose: the first player bound to the closing connection leaves; when
   * the room survives, its remaining players are told who left and then
   * receive the new state.
   */
  function Close(t: Table, conn: Conn): Reply
    requires TableOk(t)
  {
    match SenderOf(t, conn)
    case None => Reply(t, [])
    case Some(b) =>
      var (removed, deleted) := RemovePlayer(t, b.roomId, b.playerId);
      if deleted then Reply(removed, [])
      else
        Transitions.RemovePlayerKeepsWellFormed(t.rooms[b.roomId], b.playerId);
        var s := removed.rooms[b.roomId];
        Reply(removed, RawDeliveries(s, PlayerLeft(b.playerId)) + StateDeliveries(s))
  }

  // ---------------------------------------------------------------------
  // Properties of handleMessage and onclose
  // ---------------------------------------------------------------------

  /** The room a message may change: the joined room, the sender's room, or none. */
  function Target(t: Table, conn: Conn, msg: Message): Option<string>
    requires forall k :: k in t.order ==> k in t.rooms
  {
    if msg.Join? then Some(msg.roomId)
    else match SenderOf(t, conn)
      case None => None
      case Some(b) => Some(b.roomId)
  }

  /** The connections the players of `s` are bound to. */
  function BoundConns(s: RoomState): set<Conn> {
    set p | p in s.players && s.players[p].socket.Some? :: s.players[p].socket.value
  }

  /** Every delivery goes to a connection some player of `s` is bound to. */
  ghost predicate ReachesOnly(out: seq<Delivery>, s: RoomState) {
    forall i :: 0 <= i < |out| ==> out[i].to in BoundConns(s)
  }

  lemma StateDeliveriesReachOnly(s: RoomState)
    requires Consistent(s)
    ensures ReachesOnly(StateDeliveries(s), s)
  {
    var r := Recipients(s.order, s.players);
    forall i | 0 <= i < |StateDeliveries(s)|
      ensures StateDeliveries(s)[i].to in BoundConns(s)
    {
      assert BoundTo(s, r[i], StateDeliveries(s)[i].to);
    }
  }

  lemma RawDeliveriesReachOnly(s: RoomState, payload: Outbound)
    ensures ReachesOnly(RawDeliveries(s, payload), s)
  {
    var r := Recipients(s.order, s.players);
    forall i | 0 <= i < |RawDeliveries(s, payload)|
      ensures RawDeliveries(s, payload)[i].to in BoundConns(s)
    {
      assert BoundTo(s, r[i], RawDeliveries(s, payload)[i].to);
    }
  }

  /**
   * handleMessage keeps the registry well formed: no room is left empty, and
   * every room stays well formed under its own id.
   */
  lemma HandleKeepsTableOk(t: Table, conn: Conn, msg: Message, freshId: string, swaps: seq<nat>)
    requires TableOk(t) && Transitions.SwapsOk(swaps)
    requires msg.Join? ==> FreshIn(t, msg.roomId, freshId)
    ensures TableOk(Handle(t, conn, msg, freshId, swaps).table)
  {
    if msg.Join? {
      HandleJoinKeepsTableOk(t, conn, msg.roomId, msg.playerName, freshId);
    } else if SenderOf(t, conn).Some? {
      var b := SenderOf(t, conn).value;
      StepKeepsTableOk(t, b, msg, swaps);
    }
  }

  lemma HandleJoinKeepsTableOk(t: Table, conn: Conn, roomId: string, playerName: string, freshId: string)
    requires TableOk(t) && FreshIn(t, roomId, freshId)
    ensures TableOk(HandleJoin(t, conn, roomId, playerName, freshId).table)
  {
    if roomId !in t.rooms {
      var created := CreateRoom(t, roomId, playerName, freshId);
      CreateRoomKeepsTableOk(t, roomId, playerName, freshId);
      RoomUpdateKeepsTableOk(created, roomId, Transitions.BindSocket(created.rooms[roomId], freshId, conn));
    } else if t.rooms[roomId].phase == Lobby {
      JoinRoomAdds(t, roomId, playerName, conn, freshId);
    }
  }

  lemma StepKeepsTableOk(t: Table, b: Binding, msg: Message, swaps: seq<nat>)
    requires TableOk(t) && Transitions.SwapsOk(swaps) && !msg.Join?
    requires b.roomId in t.rooms && b.playerId in t.rooms[b.roomId].players
    ensures TableOk(t.(rooms := t.rooms[b.roomId := Transitions.Step(t.rooms[b.roomId], b.playerId, msg, swaps).state]))
  {
    var s := t.rooms[b.roomId];
    Transitions.StepKeepsWellFormed(s, b.playerId, msg, swaps);
    Transitions.StepKeepsRoster(s, b.playerId, msg, swaps);
    RoomUpdateKeepsTableOk(t, b.roomId, Transitions.Step(s, b.playerId, msg, swaps).state);
  }

  /**
   * A message changes at most one room, the target; rooms keep their order
   * except that a join on an unknown id appends it; and a message that is not
   * a join, from a connection bound to no player, changes nothing and sends
   * nothing.
   */
  lemma HandleTouchesOneRoom(t: Table, conn: Conn, msg: Message, freshId: string, swaps: seq<nat>)
    requires TableOk(t) && Transitions.SwapsOk(swaps)
    requires msg.Join? ==> FreshIn(t, msg.roomId, freshId)
    ensures var r := Handle(t, conn, msg, freshId, swaps).table;
      && (forall k :: k in t.rooms && Some(k) != Target(t, conn, msg) ==> k in r.rooms && r.rooms[k] == t.rooms[k])
      && (r.order == t.order || (msg.Join? && msg.roomId !in t.rooms && r.order == t.order + [msg.roomId]))
    ensures Target(t, conn, msg).None? ==> Handle(t, conn, msg, freshId, swaps) == Reply(t, [])
  {
    if msg.Join? && msg.roomId in t.rooms && t.rooms[msg.roomId].phase == Lobby {
      JoinRoomAdds(t, msg.roomId, msg.playerName, conn, freshId);
    }
  }

  /**
   * Messages never cross rooms: handleMessage sends nothing, or the join
   * error to the joining connection alone, or only to connections bound to
   * players of the target room as that room is after the message.
   */
  lemma RepliesStayInRoom(t: Table, conn: Conn, msg: Message, freshId: string, swaps: seq<nat>)
    requires TableOk(t) && Transitions.SwapsOk(swaps)
    requires msg.Join? ==> FreshIn(t, msg.roomId, freshId)
    ensures var r := Handle(t, conn, msg, freshId, swaps);
      || r.out == []
      || r.out == [Delivery(conn, ErrorMessage(GameStartedError))]
      || (Target(t, conn, msg).Some? && Target(t, conn, msg).value in r.table.rooms
          && ReachesOnly(r.out, r.table.rooms[Target(t, conn, msg).value]))
  {
    if msg.Join? {
      JoinRepliesStayInRoom(t, conn, msg.roomId, msg.playerName, freshId);
    } else if SenderOf(t, conn).Some? {
      var b := SenderOf(t, conn).value;
      var o := Transitions.Step(t.rooms[b.roomId], b.playerId, msg, swaps);
      Transitions.StepKeepsWellFormed(t.rooms[b.roomId], b.playerId, msg, swaps);
      DeliverReachesOnly(o, msg);
    }
  }

  lemma DeliverReachesOnly(o: Transitions.Outcome, msg: Message)
    requires Consistent(o.state)
    ensures ReachesOnly(Deliver(o, msg), o.state)
  {
    match o.effect
    case Silent =>
    case BroadcastState => StateDeliveriesReachOnly(o.state);
    case RelayRaw => RawDeliveriesReachOnly(o.state, Raw(msg));
  }

  lemma JoinRepliesStayInRoom(t: Table, conn: Conn, roomId: string, playerName: string, freshId: string)
    requires TableOk(t) && FreshIn(t, roomId, freshId)
    ensures var r := HandleJoin(t, conn, roomId, playerName, freshId);
      || (r.out == [Delivery(conn, ErrorMessage(GameStartedError))])
      || (roomId in r.table.rooms && ReachesOnly(r.out, r.table.rooms[roomId]))
  {
    var r := HandleJoin(t, conn, roomId, playerName, freshId);
    if roomId !in t.rooms || t.rooms[roomId].phase == Lobby {
      if roomId in t.rooms {
        JoinRoomAdds(t, roomId, playerName, conn, freshId);
      }
      StateDeliveriesReachOnly(r.table.rooms[roomId]);
    }
  }

  /** A join on a room whose game has started changes nothing and answers the joining connection alone. */
  lemma StartedGameRejectsJoin(t: Table, conn: Conn, roomId: string, playerName: string, freshId: string, swaps: seq<nat>)
    requires TableOk(t) && Transitions.SwapsOk(swaps) && FreshIn(t, roomId, freshId)
    requires roomId in t.rooms && t.rooms[roomId].phase != Lobby
    ensures var r := Handle(t, conn, Join(roomId, playerName), freshId, swaps);
      r.table == t && |r.out| == 1 && r.out[0].to == conn && r.out[0].payload.ErrorMessage?
  {
  }

  /**
   * A join on an unknown id creates the room in the lobby with the joiner as
   * its only player and host, bound to the joining connection, which is sent
   * its own view of the new room and nothing else is sent.
   */
  lemma JoinCreatesRoom(t: Table, conn: Conn, roomId: string, playerName: string, freshId: string, swaps: seq<nat>)
    requires TableOk(t) && Transitions.SwapsOk(swaps) && roomId !in t.rooms
    ensures var r := Handle(t, conn, Join(roomId, playerName), freshId, swaps);
      && roomId in r.table.rooms
      && var s := r.table.rooms[roomId];
      && s.phase == Lobby && s.order == [freshId] && s.hostId == freshId
      && s.players.Keys == {freshId} && s.players[freshId].isHost && s.players[freshId].socket == Some(conn)
      && r.table.order == t.order + [roomId]
      && r.out == [Delivery(conn, StateUpdate(PublicState(s, freshId)))]
  {
    var r := Handle(t, conn, Join(roomId, playerName), freshId, swaps);
    var s := r.table.rooms[roomId];
    assert Recipients(s.order[1..], s.players) == [];
    assert Recipients(s.order, s.players) == [freshId];
  }

  /**
   * A join on a room still in the lobby appends the joiner, bound to the
   * joining connection, and the joiner receives its own view of the room.
   */
  lemma JoinAddsToLobby(t: Table, conn: Conn, roomId: string, playerName: string, freshId: string, swaps: seq<nat>)
    requires TableOk(t) && Transitions.SwapsOk(swaps) && FreshIn(t, roomId, freshId)
    requires roomId in t.rooms && t.rooms[roomId].phase == Lobby
    ensures var r := Handle(t, conn, Join(roomId, playerName), freshId, swaps);
      && roomId in r.table.rooms
      && var s := r.table.rooms[roomId];
      && s.order == t.rooms[roomId].order + [freshId]
      && freshId in s.players && s.players[freshId] == Player(freshId, playerName, false, 0, Some(conn))
      && Delivery(conn, StateUpdate(PublicState(s, freshId))) in r.out
  {
    JoinRoomAdds(t, roomId, playerName, conn, freshId);
    var s := Handle(t, conn, Join(roomId, playerName), freshId, swaps).table.rooms[roomId];
    EveryBoundPlayerGetsOwnView(s, freshId);
  }

  /** onclose keeps the registry well formed. */
  lemma CloseKeepsTableOk(t: Table, conn: Conn)
    requires TableOk(t)
    ensures TableOk(Close(t, conn).table)
  {
    if SenderOf(t, conn).Some? {
      var b := SenderOf(t, conn).value;
      RemovePlayerKeepsTableOk(t, b.roomId, b.playerId);
    }
  }

  /** onclose on a connection bound to no player changes nothing and sends nothing. */
  lemma CloseUnboundIsNoop(t: Table, conn: Conn)
    requires TableOk(t) && SenderOf(t, conn).None?
    ensures Close(t, conn) == Reply(t, [])
  {
  }

  /**
   * onclose: the player `b` found for the connection leaves its room. If it
   * was the last one the room is deleted and nothing is sent; otherwise the
   * host id stays as it was, and every remaining bound player is first told
   * who left and then sent the new state.
   */
  lemma CloseRemovesPlayer(t: Table, conn: Conn, b: Binding)
    requires TableOk(t) && SenderOf(t, conn) == Some(b)
    ensures var r := Close(t, conn);
      && (b.roomId !in r.table.rooms <==> t.rooms[b.roomId].players.Keys == {b.playerId})
      && (b.roomId !in r.table.rooms ==> r.out == [] && b.roomId !in r.table.order)
      && (b.roomId in r.table.rooms ==>
            var s := r.table.rooms[b.roomId];
            var n := |Recipients(s.order, s.players)|;
            && b.playerId !in s.players
            && s.hostId == t.rooms[b.roomId].hostId
            && |r.out| == 2 * n
            && (forall i :: 0 <= i < n ==> r.out[i].payload == PlayerLeft(b.playerId))
            && (forall i :: n <= i < 2 * n ==> r.out[i].payload.StateUpdate?))
  {
    var (removed, deleted) := RemovePlayer(t, b.roomId, b.playerId);
    if !deleted {
      Transitions.RemovePlayerKeepsWellFormed(t.rooms[b.roomId], b.playerId);
      LeavingThenState(removed.rooms[b.roomId], b.playerId);
    }
  }

  /** The close notice: every bound player hears who left, and then every bound player gets the state. */
  lemma LeavingThenState(s: RoomState, pid: string)
    requires Consistent(s)
    ensures var out := RawDeliveries(s, PlayerLeft(pid)) + StateDeliveries(s);
      var n := |Recipients(s.order, s.players)|;
      && |out| == 2 * n
      && (forall i :: 0 <= i < n ==> out[i].payload == PlayerLeft(pid))
      && (forall i :: n <= i < 2 * n ==> out[i].payload.StateUpdate?)
  {
  }
}
