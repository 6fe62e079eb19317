/**
 * The game object: its cells, its outcome field and the methods that play,
 * resolve, end and reset a round. Every method is proved to leave the
 * snapshot `State()` equal to the corresponding function of module Rules
 * applied to the snapshot it started from.
 */
module Games {
  import opened Options
  import opened Players
  import opened Cells
  import Rules

  class Game {
    /** The grid slots, in document order; fixed once the game exists. */
    const cells: seq<Cell>
    /** Which copy of the source this game follows. */
    const ordering: Rules.Ordering
    /** The source's `winner` field. */
    var winner: Rules.Outcome

    /** Every slot is a cell of its own. */
    ghost predicate Valid() {
      forall i, j :: 0 <= i < j < |cells| ==> cells[i] != cells[j]
    }

    /** What the view reads back from every cell. */
    function Board(): (b: Rules.Board)
      reads cells
      ensures |b| == |cells|
      ensures forall i :: 0 <= i < |cells| ==> b[i] == cells[i].State()
    {
      seq(|cells|, i reads cells requires 0 <= i < |cells| => cells[i].State())
    }

    function State(): (s: Rules.State)
      reads this, cells
      ensures s.board == Board() && s.outcome == winner
    {
      Rules.State(Board(), winner)
    }

    /** A new game: one free cell per coordinate pair, no outcome yet. */
    constructor (coords: seq<(int, int)>, ordering: Rules.Ordering)
      ensures Valid()
      ensures this.ordering == ordering
      ensures forall c :: c in cells ==> fresh(c)
      ensures State() == Rules.State(Rules.Initial(coords), Rules.InProgress)
    {
      var cs: seq<Cell> := [];
      var k := 0;
      while k < |coords|
        invariant 0 <= k <= |coords| && |cs| == k
        invariant forall j :: 0 <= j < k ==> fresh(cs[j])
        invariant forall j :: 0 <= j < k ==> cs[j].State() == CellState(coords[j].0, coords[j].1, None, false)
        invariant forall i, j :: 0 <= i < j < k ==> cs[i] != cs[j]
      {
        var c := new Cell(coords[k].0, coords[k].1);
        cs := cs + [c];
        k := k + 1;
      }
      cells := cs;
      this.ordering := ordering;
      winner := Rules.InProgress;
    }

    predicate IsDone()
      reads this
      ensures IsDone() <==> winner != Rules.InProgress
    {
      winner != Rules.InProgress
    }

    predicate IsPlayable()
      reads cells
      ensures IsPlayable() <==> exists i :: 0 <= i < |cells| && cells[i].IsFree()
    {
      Rules.IsPlayable(Board())
    }

    /** getCells: the cells `p` owns, in document order. */
    function GetCells(p: Player): (r: seq<Cell>)
      reads cells
      ensures forall j :: 0 <= j < |r| ==> r[j] in cells && r[j].IsOwned(p)
      ensures forall i :: 0 <= i < |cells| && cells[i].IsOwned(p) ==> cells[i] in r
      ensures |r| == |Rules.CellsOf(Board(), p)|
    {
      var ks := Rules.CellsOf(Board(), p);
      assert forall j :: 0 <= j < |ks| ==> ks[j] in ks;
      var r := seq(|ks|, j requires 0 <= j < |ks| => cells[ks[j]]);
      assert forall i :: 0 <= i < |cells| && cells[i].IsOwned(p) ==> i in ks;
      assert forall j :: 0 <= j < |ks| ==> r[j] == cells[ks[j]];
      r
    }

    function GetCurrentPlayer(): (p: Player)
      reads cells
      ensures p == Player1 <==> |GetCells(Player1)| <= |GetCells(Player2)|
    {
      Rules.CurrentPlayer(Board())
    }

    /** getWinningLine, with the line given as positions in `cells`. */
    function GetWinningLine(p: Player, size: int): (r: Option<seq<nat>>)
      reads cells
      ensures r.Some? ==> |r.value| >= size
      ensures r.Some? ==> forall k :: k in r.value ==> k < |cells| && cells[k].IsOwned(p)
    ensures r.Some? ==> Rules.Increasing(r.value)
      ensures r == Rules.WinningLine(Board(), p, size)
    {
      Rules.WinningLine(Board(), p, size)
    }

    function GetMessage(): (r: Rules.Status)
      reads this, cells
      ensures r.Turn? <==> !IsDone()
      ensures r.Turn? ==> r.player == GetCurrentPlayer()
      ensures r.Victory? <==> winner.Won?
      ensures r.Victory? ==> r.player == winner.player
    {
      Rules.Message(State())
    }

    method Reset()
      requires Valid()
      modifies this, cells
      ensures State() == Rules.Reset(old(State()))
    {
      winner := Rules.InProgress;
      var k := 0;
      while k < |cells|
        invariant 0 <= k <= |cells|
        invariant winner == Rules.InProgress
        invariant forall j :: 0 <= j < |cells| ==>
          cells[j].State() == if j < k then Cleared(old(cells[j].State())) else old(cells[j].State())
      {
        cells[k].Reset();
        k := k + 1;
      }
    }

    /** end(winner, line): records the outcome and marks the line's cells winning. */
    method End(w: Option<Player>, line: seq<nat>)
      requires Valid()
      requires forall k :: k in line ==> k < |cells|
      modifies this, cells
      ensures State() == Rules.End(old(State()), w, line)
    {
      winner := if w.Some? then Rules.Won(w.value) else Rules.Drawn;
      var k := 0;
      while k < |line|
        invariant 0 <= k <= |line|
        invariant winner == if w.Some? then Rules.Won(w.value) else Rules.Drawn
        invariant forall j :: 0 <= j < |cells| ==>
          cells[j].State() == if j in line[..k] then old(cells[j].State()).(winning := true) else old(cells[j].State())
      {
        assert line[k] in line;
        cells[line[k]].SetWinning();
        assert line[..k + 1] == line[..k] + [line[k]];
        k := k + 1;
      }
      assert line[..k] == line;
    }

    /** resolve of src/Game.js. */
    method ResolveWinFirst()
      requires Valid()
      modifies this, cells
      ensures State() == Rules.ResolveWinFirst(old(State()))
    {
      var w := Rules.FindWinner(Board(), All);
      if w.Some? {
        End(Some(w.value.player), w.value.line);
      }
      if !IsPlayable() {
        End(None, []);
      }
    }

    /** resolve of script.js. */
    method ResolveFullFirst()
      requires Valid()
      modifies this, cells
      ensures State() == Rules.ResolveFullFirst(old(State()))
    {
      if !IsPlayable() {
        End(None, []);
        return;
      }
      var w := Rules.FindWinner(Board(), All);
      if w.Some? {
        End(Some(w.value.player), w.value.line);
      }
    }

    /** The first half of play: the current player takes the free cell `c`. */
    method Take(c: Cell, ghost i: nat)
      requires Valid() && i < |cells| && cells[i] == c && c.IsFree()
      modifies c
      ensures State() == Rules.State(Rules.Claim(old(Board()), i, old(GetCurrentPlayer())), winner)
    {
      var p := GetCurrentPlayer();
      c.SetOwner(p);
      assert Board() == Rules.Claim(old(Board()), i, p);
    }

    /** play(cell): a move by the current player, when the game is on and the cell free. */
    method Play(c: Cell)
      requires Valid() && c in cells
      modifies this, cells
      ensures forall i :: 0 <= i < |cells| && cells[i] == c ==>
        State() == Rules.Play(ordering, old(State()), i)
    {
      ghost var i :| 0 <= i < |cells| && cells[i] == c;
      if !IsDone() && c.IsFree() {
        Take(c, i);
        match ordering
        case WinFirst => ResolveWinFirst();
        case FullFirst => ResolveFullFirst();
      }
    }
  }
}
