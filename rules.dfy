/**
 * The game's rules as functions of a snapshot of the board and the
 * outcome. The `Game` class in module Games is proved against these
 * functions, and the lemmas in module Properties are stated about them.
 * A cell is named by its position in the board.
 */
module Rules {
  import opened Options
  import opened Players
  import opened Cells

  type Board = seq<CellState>

  /** The source's `winner` field: `false`, `null` or a player. */
  datatype Outcome = InProgress | Drawn | Won(player: Player)

  datatype State = State(board: Board, outcome: Outcome)

  /**
   * Which copy of `resolve` is meant: src/Game.js looks for a line first,
   * script.js looks for a full board first.
   */
  datatype Ordering = WinFirst | FullFirst

  /**
   * A candidate line. `Row(i)` holds the cells with `x == i` (the source's
   * `getLine`), `Column(i)` those with `y == i` (its `getColumn`).
   */
  datatype Line = Diagonal | AntiDiagonal | Row(i: int) | Column(i: int)

  /** A player together with the line of cells that won it the game. */
  datatype Win = Win(player: Player, line: seq<nat>)

  /** What `getMessage` reports, without its wording. */
  datatype Status = Turn(player: Player) | Victory(player: Player) | Draw

  /** The `size` that `resolve` leaves at its default. */
  const DefaultSize: int := 3

  /** The board a new game starts from: one free cell per coordinate pair. */
  function Initial(coords: seq<(int, int)>): (b: Board)
    ensures |b| == |coords|
    ensures forall i :: 0 <= i < |b| ==> b[i] == CellState(coords[i].0, coords[i].1, None, false)
  {
    seq(|coords|, i requires 0 <= i < |coords| => CellState(coords[i].0, coords[i].1, None, false))
  }

  /** getCells: the positions of the cells `p` owns, in board order. */
  function CellsOf(b: Board, p: Player): (r: seq<nat>)
    ensures forall k: nat :: k in r <==> k < |b| && b[k].owner == Some(p)
    ensures Increasing(r)
    decreases |b|
  {
    if b == [] then []
    else
      var last := |b| - 1;
      var front := CellsOf(b[..last], p);
      assert forall k :: 0 <= k < last ==> b[..last][k] == b[k];
      assert forall k :: k in front ==> k < last;
      assert forall m :: 0 <= m < |front| ==> front[m] in front;
      front + (if b[last].owner == Some(p) then [last] else [])
  }

  /**
   * The `reduce` of getCurrentPlayer: keep `current` unless the next player
   * owns strictly fewer cells.
   */
  function Fewest(b: Board, current: Player, ps: seq<Player>): (r: Player)
    ensures r == current || r in ps
    ensures r != current ==> |CellsOf(b, r)| < |CellsOf(b, current)|
    ensures |CellsOf(b, r)| <= |CellsOf(b, current)|
    ensures forall q :: q in ps ==> |CellsOf(b, r)| <= |CellsOf(b, q)|
    decreases |ps|
  {
    if ps == [] then current
    else
      var next := if |CellsOf(b, current)| <= |CellsOf(b, ps[0])| then current else ps[0];
      Fewest(b, next, ps[1..])
  }

  /** getCurrentPlayer: the player owning fewer cells; a tie goes to the first. */
  function CurrentPlayer(b: Board): (r: Player)
    ensures r == Player1 <==> |CellsOf(b, Player1)| <= |CellsOf(b, Player2)|
  {
    Fewest(b, All[0], All)
  }

  /** isPlayable: some cell is still free. */
  predicate IsPlayable(b: Board) {
    exists i :: 0 <= i < |b| && b[i].owner == None
  }

  predicate OnLine(l: Line, c: CellState, size: int) {
    match l
    case Diagonal => c.y == c.x
    case AntiDiagonal => c.y + c.x == size - 1
    case Row(i) => c.x == i
    case Column(i) => c.y == i
  }

  /**
   * The candidate lines of getWinningLine, in the order they are tried: the
   * two diagonals, then for each `i` below `size` the row and the column `i`
   * that its `for` loop pushes.
   */
  function Candidates(size: int): (r: seq<Line>)
    ensures |r| == 2 + (if size < 0 then 0 else 2 * size)
    ensures r[0] == Diagonal && r[1] == AntiDiagonal
    ensures forall i :: 0 <= i < size ==> r[2 + 2 * i] == Row(i) && r[3 + 2 * i] == Column(i)
  {
    var pushed := seq(if size < 0 then 0 else 2 * size, j => if j % 2 == 0 then Row(j / 2) else Column(j / 2));
    assert forall i :: 0 <= i < size ==> (2 * i) % 2 == 0 && (2 * i) / 2 == i && (2 * i + 1) % 2 == 1 && (2 * i + 1) / 2 == i;
    [Diagonal, AntiDiagonal] + pushed
  }

  /** The cells among `ks` that lie on `l` (one `filter` of getWinningLine). */
  function Where(b: Board, ks: seq<nat>, l: Line, size: int): (r: seq<nat>)
    requires forall k :: k in ks ==> k < |b|
    ensures forall k :: k in r <==> k in ks && OnLine(l, b[k], size)
    ensures |r| <= |ks|
    ensures Increasing(ks) ==> Increasing(r)
  {
    if ks == [] then []
    else
      assert ks[0] in ks;
      assert forall k :: k in ks[1..] ==> k in ks;
      var rest := Where(b, ks[1..], l, size);
      IncreasingTail(ks);
      assert forall k :: k in rest ==> k in ks[1..];
      IncreasingCons(ks[0], rest);
      (if OnLine(l, b[ks[0]], size) then [ks[0]] else []) + rest
  }

  /** Positions listed in strictly increasing order, hence without repeats. */
  predicate Increasing(s: seq<nat>) {
    forall m, n :: 0 <= m < n < |s| ==> s[m] < s[n]
  }

  lemma IncreasingCons(x: nat, s: seq<nat>)
    ensures Increasing(s) && (forall k :: k in s ==> x < k) ==> Increasing([x] + s)
  {
    if Increasing(s) && (forall k :: k in s ==> x < k) {
      forall m, n | 0 <= m < n < |[x] + s|
        ensures ([x] + s)[m] < ([x] + s)[n]
      {
        assert s[n - 1] in s;
      }
    }
  }

  lemma IncreasingTail(s: seq<nat>)
    requires s != []
    ensures Increasing(s) ==> Increasing(s[1..]) && forall k :: k in s[1..] ==> s[0] < k
  {
    if Increasing(s) {
      forall k | k in s[1..]
        ensures s[0] < k
      {
        var j :| 0 <= j < |s[1..]| && s[1..][j] == k;
        assert s[j + 1] == k;
      }
    }
  }

  /** The `find` of getWinningLine: the position of the first line with at least `size` cells. */
  function FirstLong(b: Board, mine: seq<nat>, ls: seq<Line>, size: int): (r: Option<nat>)
    requires forall k :: k in mine ==> k < |b|
    ensures r.Some? ==> r.value < |ls| && |Where(b, mine, ls[r.value], size)| >= size
    ensures r.Some? ==> forall j :: 0 <= j < r.value ==> |Where(b, mine, ls[j], size)| < size
    ensures r.None? ==> forall j :: 0 <= j < |ls| ==> |Where(b, mine, ls[j], size)| < size
    decreases |ls|
  {
    if ls == [] then None
    else if |Where(b, mine, ls[0], size)| >= size then Some(0)
    else
      match FirstLong(b, mine, ls[1..], size)
      case None => None
      case Some(j) => Some(j + 1)
  }

  /** getWinningLine: the first candidate line holding at least `size` of `p`'s cells. */
  function WinningLine(b: Board, p: Player, size: int): (r: Option<seq<nat>>)
    ensures r.Some? ==> |r.value| >= size
    ensures r.Some? ==> forall k :: k in r.value ==> k < |b| && b[k].owner == Some(p)
    ensures r.Some? ==> Increasing(r.value)
  {
    var mine := CellsOf(b, p);
    match FirstLong(b, mine, Candidates(size), size)
    case None => None
    case Some(j) => Some(Where(b, mine, Candidates(size)[j], size))
  }

  /** The `players.find` of resolve: the first player, in `ps` order, with a winning line. */
  function FindWinner(b: Board, ps: seq<Player>): (r: Option<Win>)
    ensures r.Some? ==> r.value.player in ps && WinningLine(b, r.value.player, DefaultSize) == Some(r.value.line)
    ensures r.None? <==> forall q :: q in ps ==> WinningLine(b, q, DefaultSize).None?
    ensures |ps| > 0 && WinningLine(b, ps[0], DefaultSize).Some? ==>
      r == Some(Win(ps[0], WinningLine(b, ps[0], DefaultSize).value))
    decreases |ps|
  {
    if ps == [] then None
    else
      match WinningLine(b, ps[0], DefaultSize)
      case Some(line) => Some(Win(ps[0], line))
      case None => FindWinner(b, ps[1..])
  }

  /** The board with every cell in `line` marked winning (setWinning on each). */
  function MarkWinning(b: Board, line: seq<nat>): (r: Board)
    ensures |r| == |b|
    ensures forall i :: 0 <= i < |b| ==> r[i] == if i in line then b[i].(winning := true) else b[i]
    ensures SameGrid(b, r)
  {
    seq(|b|, i requires 0 <= i < |b| => if i in line then b[i].(winning := true) else b[i])
  }

  /** end(winner, line): `None` is the source's `null`, a draw. */
  function End(s: State, winner: Option<Player>, line: seq<nat>): (r: State)
    ensures r.outcome != InProgress
    ensures r.outcome.Won? <==> winner.Some?
    ensures winner.Some? ==> r.outcome.player == winner.value
    ensures r.board == MarkWinning(s.board, line)
    ensures SameGrid(s.board, r.board)
  {
    State(MarkWinning(s.board, line), if winner.Some? then Won(winner.value) else Drawn)
  }

  /** resolve as in src/Game.js: a found line first, then a full board overrides it with a draw. */
  function ResolveWinFirst(s: State): (r: State)
    ensures SameGrid(s.board, r.board)
  {
    var w := FindWinner(s.board, All);
    var s1 := if w.Some? then End(s, Some(w.value.player), w.value.line) else s;
    if !IsPlayable(s1.board) then End(s1, None, []) else s1
  }

  /** resolve as in script.js: a full board is a draw before any line is looked for. */
  function ResolveFullFirst(s: State): (r: State)
    ensures SameGrid(s.board, r.board)
  {
    if !IsPlayable(s.board) then End(s, None, [])
    else
      var w := FindWinner(s.board, All);
      if w.Some? then End(s, Some(w.value.player), w.value.line) else s
  }

  function Resolve(ord: Ordering, s: State): (r: State)
    ensures SameGrid(s.board, r.board)
  {
    match ord
    case WinFirst => ResolveWinFirst(s)
    case FullFirst => ResolveFullFirst(s)
  }

  /** The board after `p` takes cell `i` (setOwner on a free cell). */
  function Claim(b: Board, i: nat, p: Player): (r: Board)
    requires i < |b|
    ensures |r| == |b| && r[i].owner == Some(p)
    ensures forall j :: 0 <= j < |b| && j != i ==> r[j] == b[j]
    ensures r[i] == b[i].(owner := Some(p))
  {
    b[i := b[i].(owner := Some(p))]
  }

  /** play(cell): ignored once the game is done or when the cell is taken. */
  function Play(ord: Ordering, s: State, i: nat): (r: State)
    requires i < |s.board|
    ensures SamePlaces(s.board, r.board)
  {
    if s.outcome != InProgress || s.board[i].owner != None then s
    else Resolve(ord, State(Claim(s.board, i, CurrentPlayer(s.board)), s.outcome))
  }

  /** Plays the cells of `moves` one after the other. */
  function Replay(ord: Ordering, s: State, moves: seq<nat>): (r: State)
    requires forall k :: k in moves ==> k < |s.board|
    ensures |r.board| == |s.board|
    decreases |moves|
  {
    if moves == [] then s
    else
      assert moves[0] in moves;
      assert forall k :: k in moves[1..] ==> k in moves;
      Replay(ord, Play(ord, s, moves[0]), moves[1..])
  }

  /** reset: every cell free and not winning, the game in progress. */
  function Reset(s: State): (r: State)
    ensures r.outcome == InProgress
    ensures |r.board| == |s.board|
    ensures forall i :: 0 <= i < |s.board| ==> r.board[i] == Cleared(s.board[i])
  {
    State(seq(|s.board|, i requires 0 <= i < |s.board| => Cleared(s.board[i])), InProgress)
  }

  /** getMessage, as a tag. */
  function Message(s: State): (r: Status)
    ensures r.Turn? <==> s.outcome == InProgress
    ensures r.Turn? ==> r.player == CurrentPlayer(s.board)
    ensures r.Victory? <==> s.outcome.Won?
    ensures r.Victory? ==> r.player == s.outcome.player
  {
    if s.outcome != InProgress then
      if s.outcome.Won? then Victory(s.outcome.player) else Draw
    else Turn(CurrentPlayer(s.board))
  }

  /** Two boards with the same cells in the same places, owned by the same players. */
  ghost predicate SameGrid(b: Board, b': Board) {
    |b| == |b'| &&
    forall i :: 0 <= i < |b| ==> b[i].x == b'[i].x && b[i].y == b'[i].y && b[i].owner == b'[i].owner
  }

  /** Two boards with the same cells in the same places, whoever owns them. */
  ghost predicate SamePlaces(b: Board, b': Board) {
    |b| == |b'| && forall i :: 0 <= i < |b| ==> b[i].x == b'[i].x && b[i].y == b'[i].y
  }
}
