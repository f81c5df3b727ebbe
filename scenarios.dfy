/**
  Handler sequences on the server whose outcomes follow from the handlers'
  contracts alone.
 */
module Scenarios {
  import opened Protocol
  import opened Server

  /**
    The readiness counter counts submissions rather than seats: seat 0
    submitting twice starts the game while seat 1's list is still empty.
   */
  method ReadinessCountsSubmissions()
  {
    var s := new GameServer();
    var out := s.Start(1);
    out := s.Start(2);
    assert s.players == [1, 2] && IndexOf(s.players, 1) == 0;
    out := s.ShipsPlaced(1, [0, 1, 2, 3]);
    assert out == [] && s.playersReady == 1;
    out := s.ShipsPlaced(1, [0, 1, 2, 3]);
    assert s.playersReady == 0 && s.currentTurn == 0 && s.playerShips[1] == [];
    assert out == [Send(1, GameStatus(GameStartedYourTurn)), Send(2, GameStatus(GameStartedWaiting))];
  }

  /** Shots out of turn are dropped; accepted shots are judged against the opponent's list and alternate. */
  method ShotsAlternate()
  {
    var s := new GameServer();
    var out := s.Start(1);
    out := s.Start(2);
    assert s.players == [1, 2] && IndexOf(s.players, 1) == 0 && IndexOf(s.players, 2) == 1;
    out := s.ShipsPlaced(1, [0, 1, 2, 3]);
    out := s.ShipsPlaced(2, [50, 51, 52, 53]);
    assert s.currentTurn == 0 && s.playerShips == [[0, 1, 2, 3], [50, 51, 52, 53]];

    out := s.Move(2, 0);
    assert out == [] && s.currentTurn == 0;
    out := s.Move(1, 50);
    assert out == [Send(1, Hit(50)), Send(2, OpponentMove(50))] && s.currentTurn == 1;
    out := s.Move(2, 9);
    assert out == [Send(2, Miss(9)), Send(1, OpponentMove(9))] && s.currentTurn == 0;
  }

  /** A third joiner observes; when a player leaves, everyone left hears the game ended. */
  method ObserverAndDisconnect()
  {
    var s := new GameServer();
    var out := s.Start(1);
    out := s.Start(2);
    out := s.Start(3);
    assert s.players == [1, 2] && s.observers == [3];
    assert out == [Send(3, GameStatus(ObservingGame))];
    out := s.Close(2);
    assert s.players == [1] && s.observers == [3];
    assert out == [Send(1, GameStatus(OpponentDisconnected)), Send(3, GameStatus(OpponentDisconnected))];
  }

  /**
    An observer's submission stores nothing but is counted as ready, so
    after seat 0 is ready it starts the game before seat 1 has placed.
   */
  method ObserverSubmissionStartsGame()
  {
    var s := new GameServer();
    var out := s.Start(1);
    out := s.Start(2);
    out := s.Start(3);
    assert s.players == [1, 2] && IndexOf(s.players, 1) == 0 && 3 !in s.players;
    out := s.ShipsPlaced(1, [0, 1, 2, 3]);
    out := s.ShipsPlaced(3, [50, 51, 52, 53]);
    assert s.playersReady == 0 && s.currentTurn == 0;
    assert s.playerShips == [[0, 1, 2, 3], []];
    assert out == [Send(1, GameStatus(GameStartedYourTurn)), Send(2, GameStatus(GameStartedWaiting))];
  }

  /**
    One connection seated twice always has seat index 0: its one move is
    judged against its own list, and after the turn passes to seat 1 its
    moves are dropped until a second readiness sets the turn back to 0.
   */
  method OneConnectionInBothSeats()
  {
    var s := new GameServer();
    var out := s.Start(1);
    out := s.Start(1);
    assert s.players == [1, 1] && IndexOf(s.players, 1) == 0;
    out := s.ShipsPlaced(1, [5]);
    out := s.ShipsPlaced(1, [5]);
    assert s.currentTurn == 0 && s.playerShips == [[5], []];
    out := s.Move(1, 5);
    assert out == [Send(1, Hit(5)), Send(1, OpponentMove(5))] && s.currentTurn == 1;
    out := s.Move(1, 7);
    assert out == [] && s.currentTurn == 1;
  }

  /**
    The same connection, once the turn has passed to seat 1: two more
    submissions complete a second readiness, the turn is back at seat 0 and
    its next move is accepted again.
   */
  method SecondReadinessGivesTurnBack()
  {
    var s := new GameServer();
    var out := s.Start(1);
    out := s.Start(1);
    out := s.ShipsPlaced(1, [5]);
    out := s.ShipsPlaced(1, [5]);
    out := s.Move(1, 5);
    assert s.currentTurn == 1;
    out := s.ShipsPlaced(1, [5]);
    out := s.ShipsPlaced(1, [5]);
    assert s.currentTurn == 0;
    out := s.Move(1, 7);
    assert out == [Send(1, Miss(7)), Send(1, OpponentMove(7))] && s.currentTurn == 1;
  }
}
