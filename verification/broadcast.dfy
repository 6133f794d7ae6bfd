/**
 * Who receives what (broadcastState and broadcast in routes/api/ws.ts).
 * Every player with a bound connection is treated as open; sending itself is
 * not modelled, only the list of (connection, message) pairs.
 */
module Broadcast {
  import opened Wrappers
  import opened GameTypes
  import opened Projection
  import Transitions

  /** Outbound messages. `Raw` is an inbound message relayed verbatim. */
  datatype Outbound =
    | StateUpdate(state: PublicRoom)
    | PlayerLeft(playerId: string)
    | ErrorMessage(message: string)
    | Raw(msg: Message)

  datatype Delivery = Delivery(to: Conn, payload: Outbound)

  /** The error a join receives once the game has started. */
  const GameStartedError: string := "Game has already started"

  /** The players, in join order, that have a bound connection. */
  function Recipients(order: seq<string>, players: map<string, Player>): (r: seq<string>)
    ensures forall p :: p in r <==> p in order && p in players && players[p].socket.Some?
    ensures forall i :: 0 <= i < |r| ==> r[i] in players && players[r[i]].socket.Some?
    ensures |r| <= |order|
  {
    if |order| == 0 then []
    else
      var rest := Recipients(order[1..], players);
      var p := order[0];
      if p in players && players[p].socket.Some? then [p] + rest else rest
  }

  /**
   * The recipients follow the Map's iteration order: in a join order without
   * repeats, each bound player appears once, and earlier joiners come first.
   */
  lemma {:induction false} RecipientsInJoinOrder(order: seq<string>, players: map<string, Player>)
    requires NoDup(order)
    ensures NoDup(Recipients(order, players))
    ensures forall i, j :: 0 <= i < j < |Recipients(order, players)| ==>
      Transitions.IndexOf(order, Recipients(order, players)[i]) < Transitions.IndexOf(order, Recipients(order, players)[j])
  {
    if |order| > 0 {
      var tail := order[1..];
      TailOfDistinct(order);
      RecipientsInJoinOrder(tail, players);
      var rest := Recipients(tail, players);
      var r := Recipients(order, players);
      forall k | 0 <= k < |rest|
        ensures rest[k] != order[0]
        ensures Transitions.IndexOf(order, rest[k]) == Transitions.IndexOf(tail, rest[k]) + 1
      {
        assert rest[k] in tail;
      }
      if order[0] in players && players[order[0]].socket.Some? {
        assert r == [order[0]] + rest;
        forall i, j | 0 <= i < j < |r|
          ensures r[i] != r[j]
          ensures Transitions.IndexOf(order, r[i]) < Transitions.IndexOf(order, r[j])
        {
          assert r[j] == rest[j - 1];
          if i > 0 {
            assert r[i] == rest[i - 1];
          }
        }
      } else {
        assert r == rest;
      }
    }
  }

  /** Dropping the first entry of a list without repeats leaves a list without repeats that lacks it. */
  lemma TailOfDistinct(xs: seq<string>)
    requires NoDup(xs) && |xs| > 0
    ensures NoDup(xs[1..]) && xs[0] !in xs[1..]
  {
    forall a, b | 0 <= a < b < |xs| - 1 ensures xs[1..][a] != xs[1..][b] {
      assert xs[1..][a] == xs[a + 1] && xs[1..][b] == xs[b + 1];
    }
    forall a | 0 <= a < |xs| - 1 ensures xs[1..][a] != xs[0] {
      assert xs[1..][a] == xs[a + 1];
    }
  }

  /** broadcastState: each bound player receives its own projection of the room. */
  function StateDeliveries(s: RoomState): (out: seq<Delivery>)
    requires Consistent(s)
    ensures |out| == |Recipients(s.order, s.players)|
    ensures forall i :: 0 <= i < |out| ==>
      var p := Recipients(s.order, s.players)[i];
      out[i] == Delivery(s.players[p].socket.value, StateUpdate(PublicState(s, p)))
  {
    var r := Recipients(s.order, s.players);
    seq(|r|, i requires 0 <= i < |r| => Delivery(s.players[r[i]].socket.value, StateUpdate(PublicState(s, r[i]))))
  }

  /** broadcast: the same message to every bound player, the sender included. */
  function RawDeliveries(s: RoomState, payload: Outbound): (out: seq<Delivery>)
    ensures |out| == |Recipients(s.order, s.players)|
    ensures forall i :: 0 <= i < |out| ==>
      out[i] == Delivery(s.players[Recipients(s.order, s.players)[i]].socket.value, payload)
  {
    var r := Recipients(s.order, s.players);
    seq(|r|, i requires 0 <= i < |r| => Delivery(s.players[r[i]].socket.value, payload))
  }

  /** Every bound player receives a snapshot built for it. */
  lemma EveryBoundPlayerGetsOwnView(s: RoomState, p: string)
    requires Consistent(s) && p in s.players
    ensures s.players[p].socket.Some? ==>
      Delivery(s.players[p].socket.value, StateUpdate(PublicState(s, p))) in StateDeliveries(s)
  {
    var r := Recipients(s.order, s.players);
    if s.players[p].socket.Some? {
      assert p in r;
      var i :| 0 <= i < |r| && r[i] == p;
      assert StateDeliveries(s)[i] == Delivery(s.players[p].socket.value, StateUpdate(PublicState(s, p)));
    }
  }
}
