/**
 * What the rules promise across moves: turn order, write-once ownership,
 * finished games staying finished, the invariant every reachable state
 * keeps, and how the two orderings of `resolve` differ.
 */
module Properties {
  import opened Options
  import opened Players
  import opened Cells
  import opened Rules

  /** The first player owns as many cells as the second, or one more. */
  ghost predicate Balanced(b: Board) {
    |CellsOf(b, Player1)| == |CellsOf(b, Player2)| ||
    |CellsOf(b, Player1)| == |CellsOf(b, Player2)| + 1
  }

  ghost predicate NoneWinning(b: Board) {
    forall i :: 0 <= i < |b| ==> !b[i].winning
  }

  /** The winning cells are exactly those of `line`. */
  ghost predicate WinningExactly(b: Board, line: seq<nat>) {
    forall i :: 0 <= i < |b| ==> (b[i].winning <==> i in line)
  }

  /**
   * What holds of every state reached from a reset by moves: the counts are
   * balanced; while in progress no cell is winning and nobody has a line;
   * a won game still has a free cell, its winner is the one `resolve`
   * finds and exactly that line is marked; a drawn game has no free cell.
   */
  ghost predicate Coherent(s: State) {
    Balanced(s.board) &&
    match s.outcome
    case InProgress => NoneWinning(s.board) && FindWinner(s.board, All).None?
    case Won(p) =>
      IsPlayable(s.board) && FindWinner(s.board, All).Some? &&
      FindWinner(s.board, All).value.player == p &&
      WinningExactly(s.board, FindWinner(s.board, All).value.line)
    case Drawn => !IsPlayable(s.board)
  }

  // ---------------------------------------------------------------------
  // What the queries depend on

  /** getCells(p) only looks at which cells `p` owns. */
  lemma {:induction false} SameOwnedSameCells(b: Board, b': Board, p: Player)
    requires |b| == |b'|
    requires forall i :: 0 <= i < |b| ==> (b[i].owner == Some(p) <==> b'[i].owner == Some(p))
    ensures CellsOf(b, p) == CellsOf(b', p)
    decreases |b|
  {
    if b != [] {
      var last := |b| - 1;
      SameOwnedSameCells(b[..last], b'[..last], p);
    }
  }

  /** Whether a cell lies on a line only depends on where it is. */
  lemma {:induction false} SamePlacesSameWhere(b: Board, b': Board, ks: seq<nat>, l: Line, size: int)
    requires SamePlaces(b, b')
    requires forall k :: k in ks ==> k < |b|
    ensures Where(b, ks, l, size) == Where(b', ks, l, size)
    decreases |ks|
  {
    if ks != [] {
      assert ks[0] in ks;
      assert forall k :: k in ks[1..] ==> k in ks;
      SamePlacesSameWhere(b, b', ks[1..], l, size);
    }
  }

  lemma {:induction false} SamePlacesSameFirstLong(b: Board, b': Board, mine: seq<nat>, ls: seq<Line>, size: int)
    requires SamePlaces(b, b')
    requires forall k :: k in mine ==> k < |b|
    ensures FirstLong(b, mine, ls, size) == FirstLong(b', mine, ls, size)
    decreases |ls|
  {
    if ls != [] {
      SamePlacesSameWhere(b, b', mine, ls[0], size);
      SamePlacesSameFirstLong(b, b', mine, ls[1..], size);
    }
  }

  /** getWinningLine(p) only depends on where the cells are and which ones `p` owns. */
  lemma {:induction false} WinningLineAgrees(b: Board, b': Board, p: Player, size: int)
    requires SamePlaces(b, b')
    requires forall i :: 0 <= i < |b| ==> (b[i].owner == Some(p) <==> b'[i].owner == Some(p))
    ensures WinningLine(b, p, size) == WinningLine(b', p, size)
  {
    SameOwnedSameCells(b, b', p);
    var mine := CellsOf(b, p);
    SamePlacesSameFirstLong(b, b', mine, Candidates(size), size);
    var j := FirstLong(b, mine, Candidates(size), size);
    if j.Some? {
      SamePlacesSameWhere(b, b', mine, Candidates(size)[j.value], size);
    }
  }

  /**
   * getWinningLine is the first candidate line, in the order tried, that
   * holds at least `size` of the player's cells, and there is none exactly
   * when every candidate holds fewer.
   */
  lemma {:induction false} WinningLineIsFirst(b: Board, p: Player, size: int)
    ensures var mine := CellsOf(b, p);
      WinningLine(b, p, size).None? <==>
        forall j :: 0 <= j < |Candidates(size)| ==> |Where(b, mine, Candidates(size)[j], size)| < size
    ensures var mine := CellsOf(b, p);
      WinningLine(b, p, size).Some? ==>
        exists j :: 0 <= j < |Candidates(size)| &&
          WinningLine(b, p, size).value == Where(b, mine, Candidates(size)[j], size) &&
          |Where(b, mine, Candidates(size)[j], size)| >= size &&
          forall j' :: 0 <= j' < j ==> |Where(b, mine, Candidates(size)[j'], size)| < size
  {
    var mine := CellsOf(b, p);
    var ls := Candidates(size);
    var j := FirstLong(b, mine, ls, size);
    if j.Some? {
      assert WinningLine(b, p, size).value == Where(b, mine, ls[j.value], size);
    }
  }

  /** Marking cells winning does not change who `resolve` finds. */
  lemma {:induction false} SameGridSameWinner(b: Board, b': Board, ps: seq<Player>)
    requires SameGrid(b, b')
    ensures FindWinner(b, ps) == FindWinner(b', ps)
    decreases |ps|
  {
    if ps != [] {
      WinningLineAgrees(b, b', ps[0], DefaultSize);
      SameGridSameWinner(b, b', ps[1..]);
    }
  }

  lemma {:induction false} SameGridSamePlayable(b: Board, b': Board)
    requires SameGrid(b, b')
    ensures IsPlayable(b) <==> IsPlayable(b')
  {
    if IsPlayable(b) {
      var i :| 0 <= i < |b| && b[i].owner == None;
      assert b'[i].owner == None;
    }
    if IsPlayable(b') {
      var i :| 0 <= i < |b'| && b'[i].owner == None;
      assert b[i].owner == None;
    }
  }

  /** A board nobody owns a cell of gives no player a line. */
  lemma {:induction false} NoOwnerNoCells(b: Board, p: Player)
    requires forall i :: 0 <= i < |b| ==> b[i].owner == None
    ensures CellsOf(b, p) == []
    decreases |b|
  {
    if b != [] {
      NoOwnerNoCells(b[..|b| - 1], p);
    }
  }

  /** With no cells to look at, no candidate line is long enough. */
  lemma {:induction false} NothingLong(b: Board, ls: seq<Line>, size: int)
    requires size > 0
    ensures FirstLong(b, [], ls, size).None?
    decreases |ls|
  {
    if ls != [] {
      assert Where(b, [], ls[0], size) == [];
      NothingLong(b, ls[1..], size);
    }
  }

  lemma {:induction false} NoOwnerNoLine(b: Board, p: Player)
    requires forall i :: 0 <= i < |b| ==> b[i].owner == None
    ensures WinningLine(b, p, DefaultSize).None?
  {
    NoOwnerNoCells(b, p);
    NothingLong(b, Candidates(DefaultSize), DefaultSize);
  }

  lemma {:induction false} NoOwnerNoWinner(b: Board)
    requires forall i :: 0 <= i < |b| ==> b[i].owner == None
    ensures FindWinner(b, All).None?
  {
    NoOwnerNoLine(b, Player1);
    NoOwnerNoLine(b, Player2);
    assert FindWinner(b, [Player2]) == FindWinner(b, []);
  }

  // ---------------------------------------------------------------------
  // Turn order

  /** How many cells `q` owns, counted from the last cell back. */
  ghost function Count(b: Board, q: Player): nat
    decreases |b|
  {
    if b == [] then 0
    else Count(b[..|b| - 1], q) + (if b[|b| - 1].owner == Some(q) then 1 else 0)
  }

  /** getCells(q).length is that count. */
  lemma {:induction false} CountIsCells(b: Board, q: Player)
    ensures |CellsOf(b, q)| == Count(b, q)
    decreases |b|
  {
    if b != [] {
      CountIsCells(b[..|b| - 1], q);
    }
  }

  lemma {:induction false} ClaimCount(b: Board, i: nat, p: Player, q: Player)
    requires i < |b| && b[i].owner == None
    ensures Count(Claim(b, i, p), q) == Count(b, q) + (if q == p then 1 else 0)
    decreases |b|
  {
    var last := |b| - 1;
    if i < last {
      ClaimSlice(b, i, p);
      ClaimCount(b[..last], i, p, q);
    } else {
      ClaimLastSlice(b, p);
    }
  }

  lemma {:induction false} ClaimLastSlice(b: Board, p: Player)
    requires b != []
    ensures Claim(b, |b| - 1, p)[..|b| - 1] == b[..|b| - 1]
  {
  }

  lemma {:induction false} ClaimSlice(b: Board, i: nat, p: Player)
    requires i < |b| - 1
    ensures Claim(b, i, p)[..|b| - 1] == Claim(b[..|b| - 1], i, p)
    ensures Claim(b, i, p)[|b| - 1] == b[|b| - 1]
  {
  }

  /** A claim adds one cell to the claimer's count and none to the other's. */
  lemma {:induction false} ClaimCounts(b: Board, i: nat, p: Player, q: Player)
    requires i < |b| && b[i].owner == None
    ensures |CellsOf(Claim(b, i, p), q)| == |CellsOf(b, q)| + (if q == p then 1 else 0)
  {
    CountIsCells(b, q);
    CountIsCells(Claim(b, i, p), q);
    ClaimCount(b, i, p, q);
  }

  /** Marking cells winning keeps the counts, hence the turn. */
  lemma {:induction false} SameGridCounts(b: Board, b': Board)
    requires SameGrid(b, b')
    ensures Balanced(b) <==> Balanced(b')
    ensures CurrentPlayer(b) == CurrentPlayer(b')
  {
    SameOwnedSameCells(b, b', Player1);
    SameOwnedSameCells(b, b', Player2);
  }

  /** With balanced counts the first player moves exactly when the counts are equal. */
  lemma {:induction false} BalancedMover(b: Board)
    requires Balanced(b)
    ensures CurrentPlayer(b) == Player1 <==> |CellsOf(b, Player1)| == |CellsOf(b, Player2)|
    ensures CurrentPlayer(b) == Player2 <==> |CellsOf(b, Player1)| == |CellsOf(b, Player2)| + 1
  {
  }

  /** The current player's claim keeps the counts balanced and hands the turn over. */
  lemma {:induction false} ClaimTurn(b: Board, i: nat)
    requires i < |b| && b[i].owner == None && Balanced(b)
    ensures Balanced(Claim(b, i, CurrentPlayer(b)))
    ensures CurrentPlayer(Claim(b, i, CurrentPlayer(b))) == Other(CurrentPlayer(b))
  {
    var p := CurrentPlayer(b);
    ClaimCounts(b, i, p, Player1);
    ClaimCounts(b, i, p, Player2);
  }

  /** A legal click claims the cell for the current player, then resolves. */
  lemma {:induction false} PlayLegal(ord: Ordering, s: State, i: nat)
    requires i < |s.board| && s.outcome == InProgress && s.board[i].owner == None
    ensures Play(ord, s, i) == Resolve(ord, State(Claim(s.board, i, CurrentPlayer(s.board)), InProgress))
  {
  }

  /**
   * A legal move gives the cell to the player whose turn it was, leaves
   * every other owner alone, and makes it the other player's turn.
   */
  lemma {:induction false} LegalPlay(ord: Ordering, s: State, i: nat)
    requires i < |s.board| && Balanced(s.board)
    requires s.outcome == InProgress && s.board[i].owner == None
    ensures Play(ord, s, i).board[i].owner == Some(CurrentPlayer(s.board))
    ensures forall j :: 0 <= j < |s.board| && j != i ==> Play(ord, s, i).board[j].owner == s.board[j].owner
    ensures Balanced(Play(ord, s, i).board)
    ensures CurrentPlayer(Play(ord, s, i).board) == Other(CurrentPlayer(s.board))
  {
    var b1 := Claim(s.board, i, CurrentPlayer(s.board));
    var r := Resolve(ord, State(b1, InProgress));
    PlayLegal(ord, s, i);
    ClaimTurn(s.board, i);
    SameGridCounts(b1, r.board);
  }

  /** play is a no-op once the game is done or when the cell is taken. */
  lemma {:induction false} IgnoredPlay(ord: Ordering, s: State, i: nat)
    requires i < |s.board|
    requires s.outcome != InProgress || s.board[i].owner != None
    ensures Play(ord, s, i) == s
  {
  }

  // ---------------------------------------------------------------------
  // resolve

  /**
   * When a free cell remains after a move, both orderings agree: the first
   * player with a line wins and exactly that line is marked winning.
   */
  lemma {:induction false} WinWhilePlayable(ord: Ordering, s: State)
    requires s.outcome == InProgress && NoneWinning(s.board) && IsPlayable(s.board)
    requires FindWinner(s.board, All).Some?
    ensures Resolve(ord, s).outcome == Won(FindWinner(s.board, All).value.player)
    ensures WinningExactly(Resolve(ord, s).board, FindWinner(s.board, All).value.line)
    ensures WinningLine(s.board, Player1, DefaultSize).Some? ==> Resolve(ord, s).outcome == Won(Player1)
  {
    var w := FindWinner(s.board, All).value;
    SameGridSamePlayable(s.board, MarkWinning(s.board, w.line));
  }

  /**
   * src/Game.js on a full board: the outcome is a draw, yet the line found
   * first (if any) stays marked winning.
   */
  lemma {:induction false} WinFirstFullBoard(s: State)
    requires !IsPlayable(s.board)
    ensures ResolveWinFirst(s).outcome == Drawn
    ensures FindWinner(s.board, All).Some? ==>
      ResolveWinFirst(s).board == MarkWinning(s.board, FindWinner(s.board, All).value.line)
    ensures FindWinner(s.board, All).None? ==> ResolveWinFirst(s).board == s.board
  {
    var w := FindWinner(s.board, All);
    if w.Some? {
      SameGridSamePlayable(s.board, MarkWinning(s.board, w.value.line));
      assert MarkWinning(MarkWinning(s.board, w.value.line), []) == MarkWinning(s.board, w.value.line);
    } else {
      assert MarkWinning(s.board, []) == s.board;
    }
  }

  /** script.js on a full board: a draw, and no cell is marked. */
  lemma {:induction false} FullFirstFullBoard(s: State)
    requires !IsPlayable(s.board)
    ensures ResolveFullFirst(s) == State(s.board, Drawn)
  {
    assert MarkWinning(s.board, []) == s.board;
  }

  /** The two orderings only differ on a full board, and then only in the marked cells. */
  lemma {:induction false} OrderingsAgree(s: State)
    ensures ResolveWinFirst(s).outcome == ResolveFullFirst(s).outcome
    ensures ResolveWinFirst(s).board == ResolveFullFirst(s).board ||
      (!IsPlayable(s.board) && FindWinner(s.board, All).Some?)
  {
    var w := FindWinner(s.board, All);
    if w.Some? {
      SameGridSamePlayable(s.board, MarkWinning(s.board, w.value.line));
    }
    if !IsPlayable(s.board) {
      WinFirstFullBoard(s);
      FullFirstFullBoard(s);
    }
  }

  /**
   * What either ordering of resolve leaves behind, case by case: a full
   * board is a draw, otherwise the first player with a line wins with
   * that line marked, otherwise nothing changes.
   */
  lemma {:induction false} ResolveCases(ord: Ordering, s: State)
    ensures SameGrid(s.board, Resolve(ord, s).board)
    ensures !IsPlayable(s.board) ==> Resolve(ord, s).outcome == Drawn
    ensures IsPlayable(s.board) && FindWinner(s.board, All).Some? ==>
      Resolve(ord, s) == State(MarkWinning(s.board, FindWinner(s.board, All).value.line),
                               Won(FindWinner(s.board, All).value.player))
    ensures IsPlayable(s.board) && FindWinner(s.board, All).None? ==> Resolve(ord, s) == s
  {
    var w := FindWinner(s.board, All);
    if w.Some? {
      SameGridSamePlayable(s.board, MarkWinning(s.board, w.value.line));
    }
  }

  lemma {:induction false} WonCoherent(b: Board, w: Win)
    requires Balanced(b) && NoneWinning(b) && IsPlayable(b)
    requires FindWinner(b, All) == Some(w)
    ensures Coherent(State(MarkWinning(b, w.line), Won(w.player)))
  {
    var b' := MarkWinning(b, w.line);
    SameGridCounts(b, b');
    SameGridSameWinner(b, b', All);
    SameGridSamePlayable(b, b');
    MarkedExactly(b, w.line);
  }

  /** Marking a line on a board with no winning cell marks exactly that line. */
  lemma {:induction false} MarkedExactly(b: Board, line: seq<nat>)
    requires NoneWinning(b)
    ensures WinningExactly(MarkWinning(b, line), line)
  {
  }

  lemma {:induction false} DrawnCoherent(b: Board, b': Board)
    requires Balanced(b) && SameGrid(b, b') && !IsPlayable(b)
    ensures Coherent(State(b', Drawn))
  {
    SameGridCounts(b, b');
    SameGridSamePlayable(b, b');
  }

  /** resolve after a move keeps the invariant. */
  lemma {:induction false} ResolveCoherent(ord: Ordering, s: State)
    requires s.outcome == InProgress && Balanced(s.board) && NoneWinning(s.board)
    ensures Coherent(Resolve(ord, s))
  {
    var b := s.board;
    var r := Resolve(ord, s);
    ResolveCases(ord, s);
    if !IsPlayable(b) {
      DrawnCoherent(b, r.board);
    } else if FindWinner(b, All).Some? {
      WonCoherent(b, FindWinner(b, All).value);
    }
  }

  // ---------------------------------------------------------------------
  // The invariant of a round

  lemma {:induction false} ResetCoherent(s: State)
    ensures Coherent(Reset(s))
  {
    NoOwnerNoWinner(Reset(s).board);
    NoOwnerNoCells(Reset(s).board, Player1);
    NoOwnerNoCells(Reset(s).board, Player2);
  }

  lemma {:induction false} PlayCoherent(ord: Ordering, s: State, i: nat)
    requires i < |s.board| && Coherent(s)
    ensures Coherent(Play(ord, s, i))
  {
    if s.outcome == InProgress && s.board[i].owner == None {
      LegalPlayCoherent(ord, s, i);
    } else {
      assert Play(ord, s, i) == s;
    }
  }

  lemma {:induction false} LegalPlayCoherent(ord: Ordering, s: State, i: nat)
    requires i < |s.board| && s.outcome == InProgress && s.board[i].owner == None
    requires Balanced(s.board) && NoneWinning(s.board)
    ensures Coherent(Play(ord, s, i))
  {
    var b1 := Claim(s.board, i, CurrentPlayer(s.board));
    ClaimTurn(s.board, i);
    ClaimKeepsNoneWinning(s.board, i, CurrentPlayer(s.board));
    ResolveCoherent(ord, State(b1, InProgress));
    PlayLegal(ord, s, i);
  }

  lemma {:induction false} ClaimKeepsNoneWinning(b: Board, i: nat, p: Player)
    requires i < |b| && NoneWinning(b)
    ensures NoneWinning(Claim(b, i, p))
  {
  }

  lemma {:induction false} ReplayCoherent(ord: Ordering, s: State, moves: seq<nat>)
    requires forall k :: k in moves ==> k < |s.board|
    requires Coherent(s)
    ensures Coherent(Replay(ord, s, moves))
    decreases |moves|
  {
    if moves != [] {
      assert moves[0] in moves;
      assert forall k :: k in moves[1..] ==> k in moves;
      var s' := Play(ord, s, moves[0]);
      PlayCoherent(ord, s, moves[0]);
      ReplayCoherent(ord, s', moves[1..]);
      assert Replay(ord, s, moves) == Replay(ord, s', moves[1..]);
    }
  }

  /** From a reset, the counts stay balanced whatever cells are clicked. */
  lemma {:induction false} TurnOrderFromReset(ord: Ordering, s: State, moves: seq<nat>)
    requires forall k :: k in moves ==> k < |s.board|
    ensures Balanced(Replay(ord, Reset(s), moves).board)
  {
    ResetCoherent(s);
    ReplayCoherent(ord, Reset(s), moves);
  }

  /**
   * Only the player who just moved can have won: the other player's
   * cells and their places are as before, and before the move nobody
   * had a line.
   */
  lemma {:induction false} OnlyMoverWins(ord: Ordering, s: State, i: nat)
    requires i < |s.board| && Coherent(s)
    requires s.outcome == InProgress && s.board[i].owner == None
    ensures Play(ord, s, i).outcome.Won? ==> Play(ord, s, i).outcome.player == CurrentPlayer(s.board)
  {
    assert FindWinner(s.board, All).None?;
    MoverOnly(ord, s, i);
  }

  lemma {:induction false} MoverOnly(ord: Ordering, s: State, i: nat)
    requires i < |s.board| && s.outcome == InProgress && s.board[i].owner == None
    requires FindWinner(s.board, All).None?
    ensures Play(ord, s, i).outcome.Won? ==> Play(ord, s, i).outcome.player == CurrentPlayer(s.board)
  {
    var mover := CurrentPlayer(s.board);
    var b1 := Claim(s.board, i, mover);
    var q := Other(mover);
    assert q in All;
    ClaimKeepsOthersLines(s.board, i, mover, q);
    var s1 := State(b1, InProgress);
    PlayLegal(ord, s, i);
    WinnerHasLine(ord, s1);
  }

  /** A claim by `p` leaves the lines of any other player as they were. */
  lemma {:induction false} ClaimKeepsOthersLines(b: Board, i: nat, p: Player, q: Player)
    requires i < |b| && b[i].owner == None && q != p
    ensures WinningLine(Claim(b, i, p), q, DefaultSize) == WinningLine(b, q, DefaultSize)
  {
    WinningLineAgrees(b, Claim(b, i, p), q, DefaultSize);
  }

  /** Whoever resolve declares the winner holds a winning line. */
  lemma {:induction false} WinnerHasLine(ord: Ordering, s: State)
    requires s.outcome == InProgress
    ensures Resolve(ord, s).outcome.Won? ==>
      WinningLine(s.board, Resolve(ord, s).outcome.player, DefaultSize).Some?
  {
    ResolveCases(ord, s);
  }

  // ---------------------------------------------------------------------
  // Across many moves

  /** Once done, only a reset changes the game. */
  lemma {:induction false} FinishedStaysFinished(ord: Ordering, s: State, moves: seq<nat>)
    requires forall k :: k in moves ==> k < |s.board|
    requires s.outcome != InProgress
    ensures Replay(ord, s, moves) == s
    decreases |moves|
  {
    if moves != [] {
      assert moves[0] in moves;
      assert Play(ord, s, moves[0]) == s;
      assert forall k :: k in moves[1..] ==> k in moves;
      FinishedStaysFinished(ord, s, moves[1..]);
    }
  }

  /** An owner, once set, survives every later click until a reset. */
  lemma {:induction false} OwnersPersist(ord: Ordering, s: State, moves: seq<nat>, j: nat)
    requires forall k :: k in moves ==> k < |s.board|
    requires j < |s.board| && s.board[j].owner != None
    ensures Replay(ord, s, moves).board[j].owner == s.board[j].owner
    decreases |moves|
  {
    if moves != [] {
      assert moves[0] in moves;
      var s' := Play(ord, s, moves[0]);
      assert s'.board[j].owner == s.board[j].owner;
      assert forall k :: k in moves[1..] ==> k in moves;
      OwnersPersist(ord, s', moves[1..], j);
    }
  }

  /** A reset forgets the moves: only where the cells are survives. */
  lemma {:induction false} ResetForgetsMoves(ord: Ordering, s: State, moves: seq<nat>)
    requires forall k :: k in moves ==> k < |s.board|
    ensures Reset(Replay(ord, s, moves)) == Reset(s)
    decreases |moves|
  {
    if moves != [] {
      assert moves[0] in moves;
      var s' := Play(ord, s, moves[0]);
      assert Reset(s') == Reset(s);
      assert forall k :: k in moves[1..] ==> k in moves;
      ResetForgetsMoves(ord, s', moves[1..]);
    }
  }

  /** Resetting and replaying the same clicks reproduces the same game. */
  lemma {:induction false} ReplayAfterReset(ord: Ordering, s: State, moves: seq<nat>)
    requires forall k :: k in moves ==> k < |s.board|
    ensures Replay(ord, Reset(Replay(ord, Reset(s), moves)), moves) == Replay(ord, Reset(s), moves)
  {
    ResetForgetsMoves(ord, Reset(s), moves);
    assert Reset(Reset(s)) == Reset(s);
  }
}
