/**
  The placement and turn logic of the browser client (class `Battleship`
  in game.js). The player places the fleet one horizontal ship at a time,
  largest first; ships may neither overlap nor touch, even diagonally.
  During play the client tracks whose turn it is and how many of its own
  ship cells are still unhit.
 */
module Client {
  import opened Protocol
  import opened Board

  /** One `[length, quantity]` entry of the fleet table. */
  datatype ShipKind = ShipKind(length: nat, quantity: nat)

  /** The fleet table: one 4-long, two 3-long, three 2-long and four 1-long ships. */
  const Fleet: seq<ShipKind> := [ShipKind(4, 1), ShipKind(3, 2), ShipKind(2, 3), ShipKind(1, 4)]

  /** `calculateTotalShipCells`: the left-to-right sum of length times quantity. */
  function TotalShipCells(kinds: seq<ShipKind>): (total: nat)
    ensures forall i :: 0 <= i < |kinds| ==> kinds[i].length * kinds[i].quantity <= total
  {
    if kinds == [] then 0
    else
      var last := kinds[|kinds| - 1];
      TotalShipCells(kinds[..|kinds| - 1]) + last.length * last.quantity
  }

  lemma {:induction false} TotalShipCellsAppend(a: seq<ShipKind>, b: seq<ShipKind>)
    ensures TotalShipCells(a + b) == TotalShipCells(a) + TotalShipCells(b)
  {
    if b == [] {
      assert a + b == a;
    } else {
      assert (a + b)[..|a + b| - 1] == a + b[..|b| - 1];
      TotalShipCellsAppend(a, b[..|b| - 1]);
    }
  }

  /** The fleet occupies 20 cells, so `hitsRemaining` starts at 20. */
  lemma FleetTotal()
    ensures TotalShipCells(Fleet) == 20
  {
    assert Fleet == [Fleet[0]] + [Fleet[1]] + [Fleet[2]] + [Fleet[3]];
    TotalShipCellsAppend([Fleet[0]] + [Fleet[1]] + [Fleet[2]], [Fleet[3]]);
    TotalShipCellsAppend([Fleet[0]] + [Fleet[1]], [Fleet[2]]);
    TotalShipCellsAppend([Fleet[0]], [Fleet[1]]);
  }

  /** Every entry still to place has a positive length and quantity. */
  predicate KindsValid(kinds: seq<ShipKind>)
  {
    forall i :: 0 <= i < |kinds| ==> kinds[i].length >= 1 && kinds[i].quantity >= 1
  }

  /**
    One ship of the head kind has been placed: its quantity drops by one,
    and the entry is dropped once the quantity reaches 0.
   */
  function Consume(kinds: seq<ShipKind>): (r: seq<ShipKind>)
    requires kinds != [] && KindsValid(kinds)
    ensures KindsValid(r)
  {
    var head := kinds[0];
    if head.quantity - 1 == 0 then kinds[1..]
    else [ShipKind(head.length, head.quantity - 1)] + kinds[1..]
  }

  /** Placing one ship of the head kind takes exactly its length off the cells still to place. */
  lemma ConsumeTakesOneShip(kinds: seq<ShipKind>)
    requires kinds != [] && KindsValid(kinds)
    ensures TotalShipCells(Consume(kinds)) + kinds[0].length == TotalShipCells(kinds)
  {
    var head := kinds[0];
    assert kinds == [head] + kinds[1..];
    TotalShipCellsAppend([head], kinds[1..]);
    assert TotalShipCells([head]) == head.length * head.quantity by {
      assert [head][..0] == [];
    }
    if head.quantity - 1 != 0 {
      var h' := ShipKind(head.length, head.quantity - 1);
      TotalShipCellsAppend([h'], kinds[1..]);
      assert TotalShipCells([h']) == h'.length * h'.quantity by {
        assert [h'][..0] == [];
      }
      assert head.length * head.quantity == head.length * (head.quantity - 1) + head.length;
    }
  }

  /** The cells `start`, `start + 1`, ..., `start + len - 1`. */
  function Run(start: int, len: nat): seq<int>
  {
    seq(len, i => start + i)
  }

  /** A run that fits in the columns from its start to the last column of the row stays on the start's row. */
  lemma RunStaysInRow(start: int, len: nat)
    requires InBoard(start) && Col(start) + len <= BoardSize
    ensures forall i :: 0 <= i < len ==>
      InBoard(Run(start, len)[i]) && Row(Run(start, len)[i]) == Row(start)
      && Col(Run(start, len)[i]) == Col(start) + i
  {
    forall i | 0 <= i < len
      ensures InBoard(Run(start, len)[i]) && Row(Run(start, len)[i]) == Row(start)
      ensures Col(Run(start, len)[i]) == Col(start) + i
    {
      RowColOfCell(start);
      CellAtRowCol(Row(start), Col(start) + i);
    }
  }

  /** A cell a new ship may take: not already a ship cell and not next to one. */
  predicate Free(ships: seq<int>, c: int)
  {
    c !in ships && !(exists q :: q in ships && Adjacent(c, q))
  }

  /** What `placeShip` makes of a click on `position`. */
  datatype Placement =
    | Ignored                    // not placing, or nothing left to place
    | DoesNotFit                 // the ship would run past the last column
    | Blocked                    // a target cell is taken or touches a ship
    | Placed(cells: seq<int>)    // the ship now occupies these cells

  /**
    The decision `placeShip` takes, as a function of the state it reads: a
    click is ignored exactly when not placing or nothing is left, does not
    fit exactly when the head ship would pass the last column, and a placed
    ship lies on the clicked row with every cell free.
   */
  function Attempt(placing: bool, remaining: seq<ShipKind>, ships: seq<int>, position: int): (o: Placement)
    requires InBoard(position)
    ensures o == Ignored <==> !placing || remaining == []
    ensures o == DoesNotFit <==> placing && remaining != [] && Col(position) + remaining[0].length > BoardSize
    ensures o.Placed? ==> forall c :: c in o.cells ==> InBoard(c) && Row(c) == Row(position) && Free(ships, c)
  {
    if !placing || remaining == [] then Ignored
    else if Col(position) + remaining[0].length > BoardSize then DoesNotFit
    else
      RunStaysInRow(position, remaining[0].length);
      var cells := Run(position, remaining[0].length);
      if forall c :: c in cells ==> Free(ships, c) then Placed(cells) else Blocked
  }

  /**
    A successful placement adds exactly the head kind's length of cells,
    starting at the clicked cell and all on its row, none taken and none
    touching a placed ship.
   */
  lemma PlacedShipIsRowRun(placing: bool, remaining: seq<ShipKind>, ships: seq<int>, position: int)
    requires InBoard(position)
    requires Attempt(placing, remaining, ships, position).Placed?
    ensures var cells := Attempt(placing, remaining, ships, position).cells;
      && placing && remaining != []
      && |cells| == remaining[0].length
      && forall i :: 0 <= i < |cells| ==>
           && cells[i] == position + i && InBoard(cells[i])
           && Row(cells[i]) == Row(position) && Free(ships, cells[i])
  {
    RunStaysInRow(position, remaining[0].length);
  }

  /** A placement is refused exactly when some target cell is taken or touches a ship. */
  lemma BlockedIffSomeCellTaken(placing: bool, remaining: seq<ShipKind>, ships: seq<int>, position: int)
    requires InBoard(position) && placing && remaining != []
    requires Col(position) + remaining[0].length <= BoardSize
    ensures Attempt(placing, remaining, ships, position) == Blocked <==>
      exists i :: 0 <= i < remaining[0].length && !Free(ships, Run(position, remaining[0].length)[i])
  {
    var cells := Run(position, remaining[0].length);
    if exists c :: c in cells && !Free(ships, c) {
      var c :| c in cells && !Free(ships, c);
      var i :| 0 <= i < |cells| && cells[i] == c;
    }
  }

  /** The concatenation of the placed ships' cells, in placement order. */
  function Flatten(ships: seq<seq<int>>): seq<int>
  {
    if ships == [] then [] else Flatten(ships[..|ships| - 1]) + ships[|ships| - 1]
  }

  lemma {:induction false} FlattenMember(ships: seq<seq<int>>, x: int)
    ensures x in Flatten(ships) <==> exists k :: 0 <= k < |ships| && x in ships[k]
  {
    if ships != [] {
      var init := ships[..|ships| - 1];
      FlattenMember(init, x);
      if exists k :: 0 <= k < |init| && x in init[k] {
        var k :| 0 <= k < |init| && x in init[k];
        assert ships[k] == init[k];
      }
      if exists k :: 0 <= k < |ships| && x in ships[k] {
        var k :| 0 <= k < |ships| && x in ships[k];
        if k < |init| { assert init[k] == ships[k]; }
      }
    }
  }

  /** A ship is at least one cell long and is a run along a single row. */
  predicate IsRowRun(ship: seq<int>)
  {
    |ship| >= 1 && InBoard(ship[0]) && Col(ship[0]) + |ship| <= BoardSize && ship == Run(ship[0], |ship|)
  }

  /** No cell of `s` is a cell of `t` or one of its eight neighbours. */
  ghost predicate Apart(s: seq<int>, t: seq<int>)
  {
    forall a, b :: a in s && b in t ==> a != b && !Adjacent(a, b)
  }

  /** Placed ships pairwise neither overlap nor touch, diagonally included. */
  ghost predicate Separated(ships: seq<seq<int>>)
  {
    forall i, j :: 0 <= i < j < |ships| ==> Apart(ships[i], ships[j])
  }

  /** A ship whose every cell is free with respect to the placed ones keeps the fleet separated. */
  lemma PlacementKeepsShipsApart(placed: seq<seq<int>>, cells: seq<int>)
    requires Separated(placed)
    requires forall c :: c in cells ==> Free(Flatten(placed), c)
    ensures Separated(placed + [cells])
  {
    var all := placed + [cells];
    forall i, j | 0 <= i < j < |all| ensures Apart(all[i], all[j]) {
      if j == |placed| {
        forall a, b | a in all[i] && b in cells ensures a != b && !Adjacent(a, b) {
          FlattenMember(placed, a);
          AdjacentSymmetric(a, b);
        }
      }
    }
  }

  predicate NoDuplicates(s: seq<int>)
  {
    forall i, j :: 0 <= i < j < |s| ==> s[i] != s[j]
  }

  /** Separated ships made of runs never share a cell: the placed cells are pairwise distinct. */
  lemma {:induction false} SeparatedShipsDoNotOverlap(placed: seq<seq<int>>)
    requires Separated(placed)
    requires forall k :: 0 <= k < |placed| ==> IsRowRun(placed[k])
    ensures NoDuplicates(Flatten(placed))
  {
    if placed != [] {
      var init, last := placed[..|placed| - 1], placed[|placed| - 1];
      assert Separated(init) by {
        forall i, j | 0 <= i < j < |init| ensures Apart(init[i], init[j]) {
          assert init[i] == placed[i] && init[j] == placed[j];
        }
      }
      SeparatedShipsDoNotOverlap(init);
      var f := Flatten(init);
      assert Flatten(placed) == f + last;
      forall i, j | 0 <= i < j < |f + last| ensures (f + last)[i] != (f + last)[j] {
        if i < |f| && |f| <= j {
          FlattenMember(init, f[i]);
          var k :| 0 <= k < |init| && f[i] in init[k];
          assert init[k] == placed[k];
          assert last[j - |f|] in last;
        }
      }
    }
  }

  /**
    Adding a ship of the head kind, on one row and with every cell free,
    keeps the placed ships separated and runs, and keeps the placed cells
    plus the cells still to place at the fleet total.
   */
  lemma PlacementKeepsInvariant(placed: seq<seq<int>>, remaining: seq<ShipKind>, cells: seq<int>)
    requires remaining != [] && KindsValid(remaining)
    requires forall k :: 0 <= k < |placed| ==> IsRowRun(placed[k])
    requires Separated(placed)
    requires |Flatten(placed)| + TotalShipCells(remaining) == TotalShipCells(Fleet)
    requires IsRowRun(cells) && |cells| == remaining[0].length
    requires forall c :: c in cells ==> Free(Flatten(placed), c)
    ensures Flatten(placed + [cells]) == Flatten(placed) + cells
    ensures forall k :: 0 <= k < |placed + [cells]| ==> IsRowRun((placed + [cells])[k])
    ensures Separated(placed + [cells])
    ensures |Flatten(placed + [cells])| + TotalShipCells(Consume(remaining)) == TotalShipCells(Fleet)
  {
    assert (placed + [cells])[..|placed|] == placed;
    PlacementKeepsShipsApart(placed, cells);
    ConsumeTakesOneShip(remaining);
  }

  class Battleship {
    var remainingShips: seq<ShipKind>
    /** The `playerShips` Set; a Set iterates in insertion order, kept here as a sequence. */
    var playerShips: seq<int>
    var isPlacingShips: bool
    var myTurn: bool
    var hitsRemaining: int
    /** Cells of the opponent board marked 'hit' and 'miss'. */
    var hitMarks: set<int>
    var missMarks: set<int>
    /** The ships placed so far, one run of cells each. */
    ghost var placed: seq<seq<int>>

    ghost predicate Valid()
      reads this
    {
      && KindsValid(remainingShips)
      && playerShips == Flatten(placed)
      && (forall k :: 0 <= k < |placed| ==> IsRowRun(placed[k]))
      && Separated(placed)
      && |playerShips| + TotalShipCells(remainingShips) == TotalShipCells(Fleet)
      && hitsRemaining <= TotalShipCells(Fleet)
    }

    /** The total is taken from the fleet table before any placement changes it. */
    constructor ()
      ensures Valid()
      ensures remainingShips == Fleet && playerShips == [] && placed == []
      ensures !isPlacingShips && !myTurn && hitsRemaining == 20
      ensures hitMarks == {} && missMarks == {}
    {
      remainingShips := Fleet;
      playerShips := [];
      placed := [];
      isPlacingShips := false;
      myTurn := false;
      hitsRemaining := TotalShipCells(Fleet);
      hitMarks, missMarks := {}, {};
      FleetTotal();
    }

    /** `startGame`: ask to join and begin placing ships. */
    method StartGame() returns (sent: seq<ClientMsg>)
      requires Valid()
      modifies this`isPlacingShips
      ensures Valid()
      ensures isPlacingShips && sent == [Start]
    {
      sent := [Start];
      isPlacingShips := true;
    }

    /**
      `hasAdjacentShip`: walks the eight offsets around `pos`, skipping
      those that leave the board, and reports whether any lands on a ship.
     */
    method HasAdjacentShip(pos: int) returns (r: bool)
      requires InBoard(pos)
      ensures r <==> exists q :: q in playerShips && Adjacent(pos, q)
    {
      var row := pos / BoardSize;
      var col := pos % BoardSize;
      RowColOfCell(pos);
      var i := 0;
      while i < |Directions|
        invariant 0 <= i <= |Directions|
        invariant forall j :: 0 <= j < i ==>
          var (dr, dc) := Directions[j];
          !(0 <= row + dr < BoardSize && 0 <= col + dc < BoardSize && CellAt(row + dr, col + dc) in playerShips)
      {
        var (dr, dc) := Directions[i];
        var newRow, newCol := row + dr, col + dc;
        if 0 <= newRow < BoardSize && 0 <= newCol < BoardSize {
          var adjacentPos := newRow * BoardSize + newCol;
          if adjacentPos in playerShips {
            CellAtRowCol(newRow, newCol);
            return true;
          }
        }
        i := i + 1;
      }
      forall q | q in playerShips && Adjacent(pos, q) ensures false {
        var j := DirectionOf(pos, q);
        RowColOfCell(q);
      }
      return false;
    }

    /**
      The scan at the heart of `placeShip`: walk the `length` cells from
      `position` and stop at the first one that is taken or touches a ship.
     */
    method ScanCells(position: int, length: nat) returns (canPlace: bool, positions: seq<int>)
      requires InBoard(position) && Col(position) + length <= BoardSize
      ensures canPlace <==> forall c :: c in Run(position, length) ==> Free(playerShips, c)
      ensures canPlace ==> positions == Run(position, length)
    {
      var row := position / BoardSize;
      var col := position % BoardSize;
      RowColOfCell(position);
      RunStaysInRow(position, length);
      canPlace := true;
      positions := [];
      var i := 0;
      while i < length && canPlace
        invariant 0 <= i <= length
        invariant canPlace ==> positions == Run(position, i)
        invariant canPlace ==> forall c :: c in positions ==> Free(playerShips, c)
        invariant !canPlace ==> i < length && !Free(playerShips, Run(position, length)[i])
        decreases length - i, canPlace
      {
        var pos := row * BoardSize + col + i;
        assert pos == Run(position, length)[i];
        var taken := pos in playerShips;
        if !taken {
          taken := HasAdjacentShip(pos);
        }
        if taken {
          canPlace := false;
        } else {
          positions := positions + [pos];
          i := i + 1;
        }
      }
    }

    /**
      `placeShip`: try to put the next ship of the head kind horizontally
      from `position`. On success the cells join `playerShips`, the head
      quantity drops, and once nothing is left placing ends and the cells
      are sent to the server. Every other outcome changes nothing.
     */
    method PlaceShip(position: int) returns (outcome: Placement, sent: seq<ClientMsg>)
      requires Valid() && InBoard(position)
      modifies this`playerShips, this`placed, this`remainingShips, this`isPlacingShips
      ensures Valid()
      ensures outcome == Attempt(old(isPlacingShips), old(remainingShips), old(playerShips), position)
      ensures outcome.Placed? ==>
        && old(remainingShips) != []
        && playerShips == old(playerShips) + outcome.cells
        && remainingShips == Consume(old(remainingShips))
        && isPlacingShips == (remainingShips != [])
        && sent == (if remainingShips == [] then [ShipsPlaced(playerShips)] else [])
      ensures !outcome.Placed? ==>
        && playerShips == old(playerShips) && remainingShips == old(remainingShips)
        && isPlacingShips == old(isPlacingShips) && sent == []
      ensures placed == if outcome.Placed? then old(placed) + [outcome.cells] else old(placed)
      ensures sent != [] ==> |playerShips| == TotalShipCells(Fleet) && NoDuplicates(playerShips)
    {
      if !isPlacingShips || |remainingShips| == 0 {
        return Ignored, [];
      }
      var length := remainingShips[0].length;
      var col := position % BoardSize;
      if col + length > BoardSize {
        return DoesNotFit, [];
      }
      var canPlace, positions := ScanCells(position, length);
      if !canPlace {
        return Blocked, [];
      }
      assert positions[0] == position && IsRowRun(positions);
      sent := AddShip(positions);
      outcome := Placed(positions);
    }

    /**
      The success branch of `placeShip`: add the cells, take one ship off the
      head entry (dropping it at 0), and once none remain stop placing and
      send every ship cell.
     */
    method AddShip(positions: seq<int>) returns (sent: seq<ClientMsg>)
      requires Valid() && isPlacingShips && remainingShips != []
      requires IsRowRun(positions) && |positions| == remainingShips[0].length
      requires forall c :: c in positions ==> Free(playerShips, c)
      modifies this`playerShips, this`placed, this`remainingShips, this`isPlacingShips
      ensures Valid()
      ensures playerShips == old(playerShips) + positions && placed == old(placed) + [positions]
      ensures remainingShips == Consume(old(remainingShips))
      ensures isPlacingShips == (remainingShips != [])
      ensures sent == (if remainingShips == [] then [ShipsPlaced(playerShips)] else [])
      ensures sent != [] ==> |playerShips| == TotalShipCells(Fleet) && NoDuplicates(playerShips)
    {
      PlacementKeepsInvariant(placed, remainingShips, positions);
      placed := placed + [positions];
      playerShips := playerShips + positions;
      SeparatedShipsDoNotOverlap(placed);

      TakeHeadShip();
      if |remainingShips| > 0 {
        sent := [];
      } else {
        isPlacingShips := false;
        sent := [ShipsPlaced(playerShips)];
      }
    }

    /** Decrement the head quantity in place and drop the head entry once it reaches 0. */
    method TakeHeadShip()
      requires remainingShips != [] && KindsValid(remainingShips)
      modifies this`remainingShips
      ensures remainingShips == Consume(old(remainingShips))
    {
      var head := remainingShips[0];
      remainingShips := remainingShips[0 := ShipKind(head.length, head.quantity - 1)];
      if remainingShips[0].quantity == 0 {
        remainingShips := remainingShips[1..];
      }
    }

    /**
      `makeMove`: a shot at the opponent board, allowed only after placing,
      on my turn, at a cell not yet marked; it is sent and the turn is given up.
     */
    method MakeMove(position: int) returns (sent: seq<ClientMsg>)
      requires Valid() && InBoard(position)
      modifies this`myTurn
      ensures Valid()
      ensures old(isPlacingShips) || !old(myTurn) || position in hitMarks || position in missMarks ==>
        sent == [] && myTurn == old(myTurn)
      ensures !(old(isPlacingShips) || !old(myTurn) || position in hitMarks || position in missMarks) ==>
        sent == [Move(position)] && !myTurn
    {
      if isPlacingShips || !myTurn {
        return [];
      }
      if position in hitMarks || position in missMarks {
        return [];
      }
      sent := [Move(position)];
      myTurn := false;
    }

    /**
      `handleMessage`: the result of my own shot marks the opponent board;
      an opponent shot costs one remaining cell when it hits, and either ends
      the game (at 0, the turn left as it was) or gives me the turn; the
      start-of-game status gives seat 0 the turn; game over ends my turn.
      Status texts and own-board marks are display only. A position off the
      board makes `updateBoard` throw before any bookkeeping, so positions
      here are board cells.
     */
    method HandleMessage(msg: ServerMsg) returns (sent: seq<ClientMsg>)
      requires Valid()
      requires msg.Hit? || msg.Miss? || msg.OpponentMove? ==> InBoard(msg.position)
      modifies this
      ensures Valid()
      ensures remainingShips == old(remainingShips) && playerShips == old(playerShips)
      ensures isPlacingShips == old(isPlacingShips) && placed == old(placed)
      ensures hitMarks == (if msg.Hit? then old(hitMarks) + {msg.position} else old(hitMarks))
      ensures missMarks == (if msg.Miss? then old(missMarks) + {msg.position} else old(missMarks))
      ensures msg.OpponentMove? ==>
        && hitsRemaining == old(hitsRemaining) - (if msg.position in playerShips then 1 else 0)
        && (hitsRemaining == 0 ==> sent == [Resign("opponent")] && myTurn == old(myTurn))
        && (hitsRemaining != 0 ==> sent == [] && myTurn)
      ensures !msg.OpponentMove? ==> hitsRemaining == old(hitsRemaining) && sent == []
      ensures msg.GameStatus? ==> myTurn == (msg.message == GameStartedYourTurn || old(myTurn))
      ensures msg.GameOver? || msg.GameOverNotice? ==> !myTurn
      ensures msg.Hit? || msg.Miss? ==> myTurn == old(myTurn)
    {
      sent := [];
      match msg
      case Hit(p) =>
        hitMarks := hitMarks + {p};
      case Miss(p) =>
        missMarks := missMarks + {p};
      case OpponentMove(p) =>
        var hit := p in playerShips;
        if hit {
          hitsRemaining := hitsRemaining - 1;
        }
        if hitsRemaining == 0 {
          sent := [Resign("opponent")];
        } else {
          myTurn := true;
        }
      case GameStatus(m) =>
        if m == GameStartedYourTurn {
          myTurn := true;
        }
      case GameOver(_) =>
        myTurn := false;
      case GameOverNotice(_) =>
        myTurn := false;
    }
  }
}
