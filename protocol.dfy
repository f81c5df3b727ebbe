/**
  The messages exchanged between the browser client (game.js) and the
  server (server.js). On the wire each one is a JSON object with a `type`
  field; here each message shape is one constructor carrying only its
  fields. The server's `gameOver` type has two shapes, a result for a
  player and a winner notice for an observer.
 */
module Protocol {

  /** The texts the server puts in `gameStatus` messages. */
  const WaitingForOpponent: string := "Waiting for opponent..."
  const PlaceYourShips: string := "Place your ships!"
  const ObservingGame: string := "Observing game..."
  const GameStartedYourTurn: string := "Game started! Your turn!"
  const GameStartedWaiting: string := "Game started! Waiting for opponent..."
  const OpponentDisconnected: string := "Opponent disconnected. Game ended."

  /** Client to server. */
  datatype ClientMsg =
    | Start
    | ShipsPlaced(ships: seq<int>)
    | Move(position: int)
    | Resign(winner: string)          // `{ type: 'gameOver', winner }`

  datatype Result = Win | Lose

  /** Server to client. */
  datatype ServerMsg =
    | GameStatus(message: string)
    | Hit(position: int)
    | Miss(position: int)
    | OpponentMove(position: int)
    | GameOver(result: Result)        // `{ type: 'gameOver', result }`, to a player
    | GameOverNotice(winner: int)     // `{ type: 'gameOver', message: 'Player <winner> wins!' }`, to an observer
}
