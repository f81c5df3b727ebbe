/**
  The session state machine of server.js. The server keeps module-level
  state (the seated players, the observers, the readiness counter, the turn
  pointer and each seat's list of ship cells). Four handlers update it in
  place (`start`, `shipsPlaced`, `move` and `close`); `gameOver` only sends.
  A connection is a number; a handler returns the messages it sends, in
  the order it sends them.
 */
module Server {
  import opened Protocol

  type ConnId = nat

  /** One message sent to one connection. */
  datatype Outbound = Send(to: ConnId, msg: ServerMsg)

  /** `Array.prototype.indexOf`: the first position of `c` in `s`, or -1. */
  function IndexOf(s: seq<ConnId>, c: ConnId): (i: int)
    ensures -1 <= i < |s|
    ensures i == -1 <==> c !in s
    ensures 0 <= i ==> s[i] == c && c !in s[..i]
  {
    if s == [] then -1
    else if s[0] == c then 0
    else
      var k := IndexOf(s[1..], c);
      if k == -1 then -1
      else
        assert s[..k + 1] == [s[0]] + s[1..][..k];
        k + 1
  }

  /** `s.filter(x => x !== c)`. */
  function Without(s: seq<ConnId>, c: ConnId): (r: seq<ConnId>)
    ensures c !in r
    ensures forall x :: x != c ==> multiset(r)[x] == multiset(s)[x]
    ensures c !in s ==> r == s
  {
    if s == [] then []
    else
      assert s == [s[0]] + s[1..];
      if s[0] == c then Without(s[1..], c)
      else [s[0]] + Without(s[1..], c)
  }

  /** `r` can be obtained from `s` by deleting elements, keeping the order of the rest. */
  predicate Subsequence(r: seq<ConnId>, s: seq<ConnId>)
  {
    if r == [] then true
    else if s == [] then false
    else if r[0] == s[0] then Subsequence(r[1..], s[1..])
    else Subsequence(r, s[1..])
  }

  /** Removing a connection keeps every other connection in its original order. */
  lemma {:induction false} WithoutKeepsOrder(s: seq<ConnId>, c: ConnId)
    ensures Subsequence(Without(s, c), s)
  {
    if s != [] {
      WithoutKeepsOrder(s[1..], c);
    }
  }

  /** One copy of `msg` to each recipient, in order. */
  function SendToAll(recipients: seq<ConnId>, msg: ServerMsg): (out: seq<Outbound>)
    ensures |out| == |recipients|
    ensures forall i :: 0 <= i < |out| ==> out[i] == Send(recipients[i], msg)
  {
    if recipients == [] then []
    else [Send(recipients[0], msg)] + SendToAll(recipients[1..], msg)
  }

  /** `broadcastToPlayers`: every player, then every observer. */
  function Broadcast(players: seq<ConnId>, observers: seq<ConnId>, msg: ServerMsg): (out: seq<Outbound>)
    ensures |out| == |players| + |observers|
    ensures forall i :: 0 <= i < |players| ==> out[i] == Send(players[i], msg)
    ensures forall j :: 0 <= j < |observers| ==> out[|players| + j] == Send(observers[j], msg)
  {
    SendToAll(players, msg) + SendToAll(observers, msg)
  }

  /**
    The seat whose ship list a `move` is resolved against. The source takes
    the connection at the other seat and asks whether it is `players[0]`;
    with two distinct players that is the seat opposite the turn, and with
    one connection seated twice it is seat 0 whatever the turn.
   */
  function OpponentSeat(players: seq<ConnId>, turn: nat): (seat: nat)
    requires |players| == 2 && turn <= 1
    ensures seat <= 1
    ensures players[0] != players[1] ==> seat == 1 - turn
    ensures players[0] == players[1] ==> seat == 0
  {
    var opponent := players[if turn == 0 then 1 else 0];
    if opponent == players[0] then 0 else 1
  }

  class GameServer {
    var players: seq<ConnId>
    var observers: seq<ConnId>
    var playersReady: nat
    var currentTurn: nat
    var playerShips: seq<seq<int>>

    /** At most two seats, the readiness counter between messages is 0 or 1, the turn is a seat. */
    ghost predicate Valid()
      reads this
    {
      |players| <= 2 && playersReady <= 1 && currentTurn <= 1 && |playerShips| == 2
    }

    constructor ()
      ensures Valid()
      ensures players == [] && observers == []
      ensures playersReady == 0 && currentTurn == 0 && playerShips == [[], []]
    {
      players, observers := [], [];
      playersReady, currentTurn := 0, 0;
      playerShips := [[], []];
    }

    /**
      `start`: the first two connections take the seats, every later one
      observes. Filling the second seat tells everyone to place ships.
     */
    method Start(c: ConnId) returns (out: seq<Outbound>)
      requires Valid()
      modifies this
      ensures Valid()
      ensures old(|players|) < 2 ==>
        && players == old(players) + [c] && observers == old(observers)
        && out == [Send(c, GameStatus(WaitingForOpponent))]
                  + (if |players| == 2 then Broadcast(players, observers, GameStatus(PlaceYourShips)) else [])
      ensures old(|players|) >= 2 ==>
        && players == old(players) && observers == old(observers) + [c]
        && out == [Send(c, GameStatus(ObservingGame))]
      ensures playersReady == old(playersReady) && currentTurn == old(currentTurn)
      ensures playerShips == old(playerShips)
    {
      if |players| < 2 {
        players := players + [c];
        out := [Send(c, GameStatus(WaitingForOpponent))];
        if |players| == 2 {
          out := out + Broadcast(players, observers, GameStatus(PlaceYourShips));
        }
      } else {
        observers := observers + [c];
        out := [Send(c, GameStatus(ObservingGame))];
      }
    }

    /**
      `shipsPlaced`: store the sender's cells under its seat and count it as
      ready; the second submission resets the counter and gives seat 0 the
      turn. The counter counts submissions, not distinct seats: a sender
      without a seat (an observer) stores nothing, since `playerShips[-1]`
      is a property outside the two lists, yet is counted as ready.
     */
    method ShipsPlaced(c: ConnId, ships: seq<int>) returns (out: seq<Outbound>)
      requires Valid()
      requires playersReady == 1 ==> |players| == 2
      modifies this
      ensures Valid()
      ensures players == old(players) && observers == old(observers)
      ensures c in players ==> playerShips == old(playerShips)[IndexOf(old(players), c) := ships]
      ensures c !in players ==> playerShips == old(playerShips)
      ensures old(playersReady) == 0 ==>
        playersReady == 1 && currentTurn == old(currentTurn) && out == []
      ensures old(playersReady) == 1 ==>
        && playersReady == 0 && currentTurn == 0
        && out == [Send(players[0], GameStatus(GameStartedYourTurn)),
                   Send(players[1], GameStatus(GameStartedWaiting))]
    {
      var seat := IndexOf(players, c);
      if seat >= 0 {
        playerShips := playerShips[seat := ships];
      }
      playersReady := playersReady + 1;
      out := [];
      if playersReady == 2 {
        out := [Send(players[0], GameStatus(GameStartedYourTurn)),
                Send(players[1], GameStatus(GameStartedWaiting))];
        currentTurn := 0;
        playersReady := 0;
      }
    }

    /**
      `move`: ignored unless the sender holds the turn; otherwise the mover
      learns hit or miss, the opponent learns the position, and the turn
      passes.
     */
    method Move(c: ConnId, position: int) returns (out: seq<Outbound>)
      requires Valid()
      requires IndexOf(players, c) == currentTurn ==> |players| == 2
      modifies this
      ensures Valid()
      ensures players == old(players) && observers == old(observers)
      ensures playersReady == old(playersReady) && playerShips == old(playerShips)
      ensures IndexOf(old(players), c) != old(currentTurn) ==> out == [] && unchanged(this)
      ensures IndexOf(old(players), c) == old(currentTurn) ==>
        && currentTurn == 1 - old(currentTurn)
        && |out| == 2
        && out[0] == Send(c, if position in playerShips[OpponentSeat(players, old(currentTurn))]
                             then Hit(position) else Miss(position))
        && out[1] == Send(players[1 - old(currentTurn)], OpponentMove(position))
      ensures IndexOf(old(players), c) == old(currentTurn) && players[0] != players[1] ==>
        (out[0].msg == Hit(position) <==> position in playerShips[1 - old(currentTurn)])
    {
      if IndexOf(players, c) != currentTurn {
        return [];
      }
      var opponent := players[if currentTurn == 0 then 1 else 0];
      var hit := position in playerShips[if opponent == players[0] then 0 else 1];
      out := [Send(c, if hit then Hit(position) else Miss(position)),
              Send(opponent, OpponentMove(position))];
      currentTurn := if currentTurn == 0 then 1 else 0;
    }

    /**
      `gameOver`: the sender has lost. The other seat is told it won, the
      sender that it lost, and each observer which player (numbered from 1)
      won. No state changes.
     */
    method GameOver(c: ConnId) returns (out: seq<Outbound>)
      requires Valid()
      requires c in players && |players| == 2
      ensures |out| == 2 + |observers|
      ensures var loser := IndexOf(players, c);
        && out[..2] == [Send(players[1 - loser], Protocol.GameOver(Win)),
                        Send(players[loser], Protocol.GameOver(Lose))]
        && out[2..] == SendToAll(observers, GameOverNotice(1 - loser + 1))
    {
      var loser := IndexOf(players, c);
      var winner := if loser == 0 then 1 else 0;
      out := [Send(players[winner], Protocol.GameOver(Win)),
              Send(players[loser], Protocol.GameOver(Lose))];
      out := out + SendToAll(observers, GameOverNotice(winner + 1));
    }

    /**
      `close`: drop the connection from both lists, keep the others in
      order, and decrement the readiness counter without going below 0.
      While fewer than two players remain, everyone left is told the game
      ended. The turn and the stored ship lists are kept.
     */
    method Close(c: ConnId) returns (out: seq<Outbound>)
      requires Valid()
      modifies this
      ensures Valid()
      ensures players == Without(old(players), c) && observers == Without(old(observers), c)
      ensures c !in players && c !in observers
      ensures playersReady == if old(playersReady) == 0 then 0 else old(playersReady) - 1
      ensures out == if |players| < 2 then Broadcast(players, observers, GameStatus(OpponentDisconnected)) else []
      ensures currentTurn == old(currentTurn) && playerShips == old(playerShips)
    {
      WithoutShrinks(players, c);
      players := Without(players, c);
      observers := Without(observers, c);
      playersReady := if playersReady >= 1 then playersReady - 1 else 0;
      out := [];
      if |players| < 2 {
        out := Broadcast(players, observers, GameStatus(OpponentDisconnected));
      }
    }
  }

  lemma {:induction false} WithoutShrinks(s: seq<ConnId>, c: ConnId)
    ensures |Without(s, c)| <= |s|
  {
    if s != [] {
      WithoutShrinks(s[1..], c);
    }
  }
}
