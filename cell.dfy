/**
 * One slot of the grid: its fixed coordinates, its owner (free while
 * `None`) and whether it belongs to the line that ended the game.
 */
module Cells {
  import opened Options
  import opened Players

  /** The value a cell holds at one moment: what the view reads back. */
  datatype CellState = CellState(x: int, y: int, owner: Option<Player>, winning: bool)

  /** A cell as `reset` leaves it: same place, no owner, not winning. */
  function Cleared(c: CellState): (r: CellState)
    ensures r.x == c.x && r.y == c.y
    ensures r.owner == None && !r.winning
  {
    c.(owner := None, winning := false)
  }

  class Cell {
    const x: int
    const y: int
    var player: Option<Player>
    var winning: bool

    /** A new cell sits at (x, y), is free and is not winning. */
    constructor (x: int, y: int)
      ensures this.x == x && this.y == y
      ensures player == None && !winning
    {
      this.x := x;
      this.y := y;
      player := None;
      winning := false;
    }

    function State(): (s: CellState)
      reads this
      ensures s.x == x && s.y == y && s.owner == player && s.winning == winning
    {
      CellState(x, y, player, winning)
    }

    predicate IsFree()
      reads this
      ensures IsFree() <==> player == None
    {
      player == None
    }

    predicate IsOwned(p: Player)
      reads this
      ensures IsOwned(p) <==> player == Some(p)
    {
      player == Some(p)
    }

    /** Ownership is write-once: an occupied cell keeps its owner. */
    method SetOwner(p: Player)
      modifies this
      ensures player == if old(player) == None then Some(p) else old(player)
      ensures winning == old(winning)
    {
      if IsFree() {
        player := Some(p);
      }
    }

    method SetWinning()
      modifies this
      ensures winning
      ensures player == old(player)
    {
      winning := true;
    }

    method Reset()
      modifies this
      ensures State() == Cleared(old(State()))
    {
      player := None;
      winning := false;
    }
  }
}
