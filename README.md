# Battleship: server session and client placement, modelled in Dafny

The repository is a two-player Battleship game played in the browser over a
WebSocket. Two pieces of it hold the game's logic and are modelled here:

- **The server session** (`server.js`). Module-level state: the seated
  `players` (at most two connections), the `observers`, the readiness counter
  `playersReady`, the turn pointer `currentTurn` and each seat's flat list of
  ship cells `playerShips`. Four handlers update it in place: `start`,
  `shipsPlaced`, `move` and `close`. A fifth, `gameOver`, only sends messages. Here this is the class
  `Server.GameServer`. Connections are numbers, and each handler is a method
  that returns the messages it sends, in order.
- **The client** (`game.js`, class `Battleship`). The fleet table
  `[[4,1],[3,2],[2,3],[1,4]]` and its 20-cell total. The 8-neighbourhood test
  on the 10×10 board. Horizontal ship placement with the fit, overlap and
  no-touching checks. The `myTurn` and `hitsRemaining` bookkeeping of
  `makeMove` and `handleMessage`. Here this is the class `Client.Battleship`.
  It carries a ghost list of the ships placed so far. Its invariant says that
  those ships are single-row runs that pairwise neither overlap nor touch, even
  diagonally. It also says that the placed cells plus the cells still to place
  always make 20.

`Protocol` holds the messages (one constructor per message shape; the server's `gameOver` type has two shapes, a result for a player and a winner notice for an observer) and the
server's status texts. `Board` holds the geometry: row, column, the reference
neighbourhood `Adjacent` and the client's table of eight offsets.

The server does no fleet validation. It has no per-ship hit sets, no sink
detection and no disclosure of the cells around a sunk ship. A disconnect does
not declare a winner; when fewer than two players remain, everyone left is
told the game ended. A third connection becomes an observer. Behaviour of the
code that the contracts make visible:

- `playersReady` counts submissions, not seats. A seat that sends
  `shipsPlaced` twice starts the game by itself (`Scenarios.ReadinessCountsSubmissions`).
  A connection without a seat, such as an observer, stores no cells when it
  sends `shipsPlaced` (`playerShips[-1]` lies outside the two lists), but it is
  still counted as ready. Once seat 0 is ready, such a submission starts the
  game before seat 1 has placed (`Scenarios.ObserverSubmissionStartsGame`).
- Every `close` decrements `playersReady`, down to 0. That includes the close
  of an observer or of a connection that never joined. `close` keeps
  `currentTurn` and the stored ship lists.
- `start` does not check for a repeat, so one connection can hold both seats.
  Its `indexOf` is then always 0, so it can move only while seat 0 holds the
  turn. That move is resolved against its own list, seat 0's
  (`Server.OpponentSeat`). After it the turn is 1, and its moves are dropped
  until a second readiness sets the turn back to 0
  (`Scenarios.OneConnectionInBothSeats`, `Scenarios.SecondReadinessGivesTurnBack`).
- The client's `hitsRemaining` is decremented on every `opponentMove` that
  lands on a ship cell, repeats included, so it can go below 0.
- `remainingShips` is a shallow copy of `shipsToPlace`, so placing ships also
  changes the inner pairs of the table. The total is computed in the
  constructor before any placement, so `hitsRemaining` starts at 20.

## Model

| member | source | states |
|---|---|---|
| `Board.DirectionOf` | game.js:67-71 | every neighbour of a cell is reached by one of the eight offsets in the client's table |
| `Board.AdjacentSymmetric` | game.js:64-82 | the neighbour relation is symmetric |
| `Board.NoWrapAcrossEdges` | game.js:76 | the neighbourhood does not wrap: the last cell of a row is not next to the first cell of the next row, nor the reverse |
| `Client.TotalShipCells` | game.js:26-28 | no entry's length×quantity exceeds the total; the sum itself is pinned down by `Client.TotalShipCellsAppend` and `Client.FleetTotal` |
| `Client.TotalShipCellsAppend` | game.js:26-28 | the length×quantity sum of two fleet tables joined is the sum of their sums |
| `Client.FleetTotal` | game.js:15-20 | the fleet table totals 20 cells |
| `Client.Consume` | game.js:113-114 | after a ship of the head kind is placed, every entry still has a positive length and quantity |
| `Client.ConsumeTakesOneShip` | game.js:113-114 | that step takes exactly the head length off the cells still to place |
| `Client.RunStaysInRow` | game.js:88-99 | a run that fits to the right of its start stays on the board and on the start's row, one column per step |
| `Client.Attempt` | game.js:85-105 | a click is ignored exactly when not placing or no ships remain; it does not fit exactly when the head ship would pass the last column; a placed ship lies on the clicked row with every cell free |
| `Client.PlacedShipIsRowRun` | game.js:96-111 | a successful placement takes exactly the head length of cells, starting at the click, on its row, none taken and none next to a ship |
| `Client.BlockedIffSomeCellTaken` | game.js:96-105 | once the ship fits, it is refused exactly when some target cell is taken or next to a ship |
| `Client.PlacementKeepsShipsApart` | game.js:100-109 | a ship whose cells are all free keeps every pair of placed ships apart (no shared cell, no touching) |
| `Client.SeparatedShipsDoNotOverlap` | game.js:107-109 | separated ships never share a cell, so the placed cells are pairwise distinct |
| `Client.PlacementKeepsInvariant` | game.js:107-114 | adding a free single-row ship of the head length keeps the ships single-row runs and separated, and keeps placed plus remaining cells at the fleet total |
| `Client.Battleship.constructor` | game.js:8-24 | the full fleet remains, nothing is placed, the client is neither placing nor on turn, and `hitsRemaining` is 20 |
| `Client.Battleship.StartGame` | game.js:57-62 | sends `start` and starts placing |
| `Client.Battleship.HasAdjacentShip` | game.js:64-82 | true exactly when some board neighbour of the cell (rows and columns each within one, no wrap) is a ship cell |
| `Client.Battleship.ScanCells` | game.js:96-105 | the cells can be placed exactly when every cell of the run is free, and then the collected positions are that run |
| `Client.Battleship.PlaceShip` | game.js:84-127 | ignored when not placing or nothing is left; no change when the ship does not fit or is blocked; otherwise adds the run, takes one ship of the head kind, stops placing and sends the 20 cells, pairwise distinct, when none remain; keeps the invariant |
| `Client.Battleship.AddShip` | game.js:107-123 | the success branch: the cells are appended, one ship of the head kind is taken, placing stops exactly when none remain and then all 20 cells are sent, pairwise distinct; keeps the invariant |
| `Client.Battleship.TakeHeadShip` | game.js:113-114 | the in-place decrement and `shift` of the head entry equal one step of `Consume` |
| `Client.Battleship.MakeMove` | game.js:129-140 | does nothing while placing, off turn, or on a marked cell; otherwise sends the move and gives up the turn |
| `Client.Battleship.HandleMessage` | game.js:142-170 | marks hits and misses of my shots; an opponent shot costs one cell exactly when it hits my ships, and at 0 sends `gameOver` with the turn unchanged, else gives me the turn; the start-of-game text gives the turn; game over ends it |
| `Server.IndexOf` | server.js:37 | the first position of the connection, or -1 exactly when it is absent |
| `Server.Without` | server.js:69-70 | the filtered list lacks the connection, keeps every other connection as often as before, and is unchanged when the connection was absent |
| `Server.WithoutKeepsOrder` | server.js:69-70 | the filtered list is a subsequence of the original: the others keep their order |
| `Server.WithoutShrinks` | server.js:69 | filtering never lengthens the list |
| `Server.SendToAll` | server.js:78-81 | one copy of the message to each recipient, in order |
| `Server.OpponentSeat` | server.js:50-51 | with two distinct players a move is resolved against the seat opposite the turn; with one connection in both seats, against seat 0 |
| `Server.Broadcast` | server.js:78-81 | one copy of the message to every player, in order, then to every observer, in order |
| `Server.GameServer.constructor` | server.js:8-12 | no players or observers, readiness 0, turn 0, two empty ship lists |
| `Server.GameServer.Start` | server.js:23-34 | the first two joiners are seated and told to wait, and the second fills the table and everyone is told to place ships; later joiners are appended to the observers; at most two players |
| `Server.GameServer.ShipsPlaced` | server.js:36-46 | the cells are stored under the sender's seat, the other seat unchanged, and a sender without a seat stores nothing but still counts as ready; the first submission sets readiness to 1; the second resets it to 0, gives seat 0 the turn and tells both seats the game started |
| `Server.GameServer.Move` | server.js:48-55 | a move from anyone but the turn holder changes nothing and sends nothing; an accepted move tells the mover hit exactly when the cell is in the opponent's list, tells the opponent the position, and flips the turn within {0, 1} |
| `Server.GameServer.GameOver` | server.js:57-64 | the other seat is told it won, the sender that it lost, and each observer the winner's number; no state changes |
| `Server.GameServer.Close` | server.js:68-75 | the connection leaves both lists and the others keep their order; readiness drops by one but not below 0; with fewer than two players left, everyone left is told the game ended |

## Left out

- WebSocket, Express and HTTP setup, `server.listen` and console logging: transport plumbing. A handler's sends are its returned list of messages.
- JSON parsing and serialisation. Messages are the datatypes of `Protocol`, and a malformed payload is not modelled.
- The DOM: building the boards, the `status` text and the marks on the player's own board. The opponent board's 'hit' and 'miss' marks are kept as two sets because `makeMove` reads them.
- Event-listener wiring and the `DOMContentLoaded` bootstrap.
- The crash paths of the server are preconditions, not modelled behaviour. These are a `move` or `gameOver` with fewer than two players, a `gameOver` from a connection that is not seated, and a second readiness with fewer than two players seated (the start-of-game messages go to `players[0]` and `players[1]`).
- Client.Battleship.HandleMessage: requires the position of `hit`, `miss` and `opponentMove` to be a board cell. For any other position `updateBoard` throws (no such cell), before the marks, `hitsRemaining` or `myTurn` change and before anything is sent; the model does not cover that throw. The server relays the position of a `move` unchecked, so only a peer's client enforces this.
- Client.Battleship.HandleMessage: does not state the status texts it displays or the own-board marks of `opponentMove`, because both are display only.
- Client.Battleship.PlaceShip: adds the collected cells in one concatenation rather than one `Set.add` at a time. They are all new cells, so the result is the same.
- Client.Battleship.ScanCells: the early `break` of the scan is written as a loop guard.
- Server.GameServer.Move: the same-connection-in-both-seats case is stated through `Server.OpponentSeat`; the hit-iff property is stated for two distinct players.
