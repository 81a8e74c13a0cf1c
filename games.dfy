/**
  The game: whose turn it is and the board. A move on an empty cell places the mover's
  mark and passes the turn; a move on an occupied cell is rejected and changes nothing.
  The winner is recomputed from the board on every query by scanning the eight lines.
*/
module Games {
  import opened Wrappers
  import opened Players
  import opened Moves
  import opened Boards

  /** The error of a move onto an occupied cell. */
  datatype MoveError = InvalidMove

  /** The value of a game: the mark to move next and the grid. */
  datatype GameState = GameState(turn: Player, grid: Grid)

  /** A fresh game: X to move on an empty board. */
  function Initial(): (st: GameState)
    ensures st.turn == X
    ensures forall x: Index, y: Index :: st.grid[y][x] == None
    ensures Occupied(st.grid) == 0
  {
    GameState(X, Empty())
  }

  /**
    One move. On an occupied cell: InvalidMove and the state exactly as it was. On an
    empty cell: Ok, that cell now holds the old turn's mark, no other cell changed, one
    more cell is occupied and the turn has passed to the other mark.
  */
  function Apply(st: GameState, m: Move): (r: (Result<(), MoveError>, GameState))
    requires m.InRange()
    ensures st.grid[m.y][m.x].Some? ==> r == (Err(InvalidMove), st)
    ensures st.grid[m.y][m.x].None? ==>
              && r.0 == Ok(())
              && r.1.turn == Other(st.turn)
              && r.1.grid[m.y][m.x] == Some(st.turn)
              && (forall x: Index, y: Index :: (x != m.x || y != m.y) ==> r.1.grid[y][x] == st.grid[y][x])
              && Occupied(r.1.grid) == Occupied(st.grid) + 1
  {
    if st.grid[m.y][m.x].Some? then (Err(InvalidMove), st)
    else
      MarksOfFill(st.grid, m.x, m.y, st.turn);
      (Ok(()), GameState(Other(st.turn), Update(st.grid, m.x, m.y, Some(st.turn))))
  }

  // ---------------------------------------------------------------------------
  // The winning lines and the winner scan

  /** Three (x, y) coordinates. */
  type Line = s: seq<(Index, Index)> | |s| == 3 witness [(0, 0), (0, 0), (0, 0)]

  /** The eight lines in scan order: the three rows, the three columns, the two diagonals. */
  const Lines: seq<Line> := [
    [(0, 0), (1, 0), (2, 0)], [(0, 1), (1, 1), (2, 1)], [(0, 2), (1, 2), (2, 2)],
    [(0, 0), (0, 1), (0, 2)], [(1, 0), (1, 1), (1, 2)], [(2, 0), (2, 1), (2, 2)],
    [(0, 0), (1, 1), (2, 2)], [(0, 2), (1, 1), (2, 0)]
  ]

  /** The set of cells a line covers. */
  ghost function CellsOf(line: Line): set<(Index, Index)>
  {
    {line[0], line[1], line[2]}
  }

  ghost predicate InRow(s: set<(Index, Index)>, y: Index)
  {
    forall c | c in s :: c.1 == y
  }

  ghost predicate InColumn(s: set<(Index, Index)>, x: Index)
  {
    forall c | c in s :: c.0 == x
  }

  /**
    Three cells in a straight line across the grid: one row, one column, the main
    diagonal or the anti-diagonal.
  */
  ghost predicate Straight(s: set<(Index, Index)>)
  {
    && |s| == 3
    && ((exists y: Index :: InRow(s, y))
        || (exists x: Index :: InColumn(s, x))
        || (forall c | c in s :: c.0 == c.1)
        || (forall c | c in s :: c.0 + c.1 == 2))
  }

  /** Which scanned line covers s, read off two cells that only that line covers. */
  ghost function LineKey(s: set<(Index, Index)>): nat
  {
    if (0, 0) in s && (1, 0) in s then 0
    else if (0, 1) in s && (1, 1) in s then 1
    else if (0, 2) in s && (1, 2) in s then 2
    else if (0, 0) in s && (0, 1) in s then 3
    else if (1, 0) in s && (1, 1) in s then 4
    else if (2, 0) in s && (2, 1) in s then 5
    else if (0, 0) in s && (1, 1) in s then 6
    else 7
  }

  /** Every scanned line is straight, and no two scanned lines cover the same cells. */
  lemma LinesAreStraight()
    ensures forall k | 0 <= k < |Lines| :: Straight(CellsOf(Lines[k]))
    ensures forall j, k | 0 <= j < k < |Lines| :: CellsOf(Lines[j]) != CellsOf(Lines[k])
  {
    forall k | 0 <= k < |Lines| ensures Straight(CellsOf(Lines[k])) && LineKey(CellsOf(Lines[k])) == k {
      var l := Lines[k];
      assert l[0] != l[1] && l[0] != l[2] && l[1] != l[2];
      if k < 3 {
        assert InRow(CellsOf(l), k);
      } else if k < 6 {
        assert InColumn(CellsOf(l), k - 3);
      }
    }
  }

  lemma SubsetOfThree(s: set<(Index, Index)>, a: (Index, Index), b: (Index, Index), c: (Index, Index))
    requires |s| == 3 && a != b && a != c && b != c
    requires forall e | e in s :: e == a || e == b || e == c
    ensures s == {a, b, c}
  {
    var t := {a, b, c};
    assert |t| == 3;
    assert s <= t;
    assert |t - s| == 0;
  }

  /** Every straight set of three cells is covered by one of the scanned lines. */
  lemma LinesAreComplete(s: set<(Index, Index)>)
    requires Straight(s)
    ensures exists k | 0 <= k < |Lines| :: CellsOf(Lines[k]) == s
  {
    if y: Index :| InRow(s, y) {
      SubsetOfThree(s, (0, y), (1, y), (2, y));
      assert CellsOf(Lines[y]) == s;
    } else if x: Index :| InColumn(s, x) {
      SubsetOfThree(s, (x, 0), (x, 1), (x, 2));
      assert CellsOf(Lines[3 + x]) == s;
    } else if forall c | c in s :: c.0 == c.1 {
      SubsetOfThree(s, (0, 0), (1, 1), (2, 2));
      assert CellsOf(Lines[6]) == s;
    } else {
      forall e | e in s ensures e == (0, 2) || e == (1, 1) || e == (2, 0) {
        assert e.0 + e.1 == 2;
      }
      SubsetOfThree(s, (0, 2), (1, 1), (2, 0));
      assert CellsOf(Lines[7]) == s;
    }
  }

  /** The marks found on the cells cs, in order, skipping the empty ones. */
  function Occupation(g: Grid, cs: seq<(Index, Index)>): (r: seq<Player>)
    ensures |r| <= |cs|
  {
    if cs == [] then []
    else
      var (x, y) := cs[|cs| - 1];
      Occupation(g, cs[..|cs| - 1]) + (if g[y][x].Some? then [g[y][x].value] else [])
  }

  /** p holds every cell of the line. */
  ghost predicate Owns(g: Grid, line: Line, p: Player)
  {
    forall k | 0 <= k < 3 :: g[line[k].1][line[k].0] == Some(p)
  }

  /** How the scan judges one line: won when all three cells are occupied by one mark. */
  function LineOwner(g: Grid, line: Line): (r: Option<Player>)
    ensures r.Some? ==> g[line[0].1][line[0].0] == r
  {
    OccupationCount(g, line);
    var occ := Occupation(g, line);
    if |occ| != 3 then None
    else if forall k | 0 <= k < |occ| :: occ[k] == occ[0] then Some(occ[0])
    else None
  }

  /** The owner of the first won line among Lines[i..], if any. */
  function Scan(g: Grid, i: nat): (r: Option<Player>)
    requires i <= |Lines|
    decreases |Lines| - i
  {
    if i == |Lines| then None
    else
      var w := LineOwner(g, Lines[i]);
      if w.Some? then w else Scan(g, i + 1)
  }

  /** The winner the game reports for grid g. */
  function WinnerOf(g: Grid): (w: Option<Player>)
  {
    Scan(g, 0)
  }

  lemma {:induction false} OccupationCount(g: Grid, cs: seq<(Index, Index)>)
    ensures |Occupation(g, cs)| <= |cs|
    ensures |Occupation(g, cs)| == |cs| <==> forall k | 0 <= k < |cs| :: g[cs[k].1][cs[k].0].Some?
    ensures |Occupation(g, cs)| == |cs| ==>
              forall k | 0 <= k < |cs| :: g[cs[k].1][cs[k].0] == Some(Occupation(g, cs)[k])
  {
    if cs != [] {
      var front := cs[..|cs| - 1];
      OccupationCount(g, front);
      assert forall k | 0 <= k < |front| :: front[k] == cs[k];
    }
  }

  /** The scan's judgement of a line agrees with ownership: both directions. */
  lemma LineOwnerIff(g: Grid, line: Line, p: Player)
    ensures LineOwner(g, line) == Some(p) <==> Owns(g, line, p)
  {
    OccupationCount(g, line);
    var occ := Occupation(g, line);
    if Owns(g, line, p) {
      assert forall k | 0 <= k < 3 :: occ[k] == p;
    }
  }

  lemma {:induction false} ScanNone(g: Grid, i: nat)
    requires i <= |Lines|
    ensures Scan(g, i).None? <==> forall j, p | i <= j < |Lines| :: !Owns(g, Lines[j], p)
    decreases |Lines| - i
  {
    if i < |Lines| {
      ScanNone(g, i + 1);
      forall p ensures LineOwner(g, Lines[i]) == Some(p) <==> Owns(g, Lines[i], p) {
        LineOwnerIff(g, Lines[i], p);
      }
    }
  }

  lemma {:induction false} ScanSome(g: Grid, i: nat, p: Player)
    requires i <= |Lines| && Scan(g, i) == Some(p)
    ensures exists j | i <= j < |Lines| ::
              Owns(g, Lines[j], p) && forall k, q | i <= k < j :: !Owns(g, Lines[k], q)
    decreases |Lines| - i
  {
    forall q ensures LineOwner(g, Lines[i]) == Some(q) <==> Owns(g, Lines[i], q) {
      LineOwnerIff(g, Lines[i], q);
    }
    if LineOwner(g, Lines[i]).None? {
      ScanSome(g, i + 1, p);
      var j :| i + 1 <= j < |Lines| && Owns(g, Lines[j], p) && forall k, q | i + 1 <= k < j :: !Owns(g, Lines[k], q);
      assert forall k, q | i <= k < j :: !Owns(g, Lines[k], q);
    } else {
      assert Owns(g, Lines[i], p);
    }
  }

  /** No winner exactly when no line is held by one mark (the empty board, a drawn board). */
  lemma WinnerNoneIff(g: Grid)
    ensures WinnerOf(g).None? <==> forall j, p | 0 <= j < |Lines| :: !Owns(g, Lines[j], p)
  {
    ScanNone(g, 0);
  }

  /** A reported winner holds some line, and no line earlier in scan order is held by anyone. */
  lemma WinnerOwnsFirstLine(g: Grid, p: Player)
    requires WinnerOf(g) == Some(p)
    ensures exists j | 0 <= j < |Lines| ::
              Owns(g, Lines[j], p) && forall k, q | 0 <= k < j :: !Owns(g, Lines[k], q)
  {
    ScanSome(g, 0, p);
  }

  /** When p holds a line and the other mark holds none, p is the winner. */
  lemma WinnerOfSoleOwner(g: Grid, p: Player, j: nat)
    requires j < |Lines| && Owns(g, Lines[j], p)
    requires forall k | 0 <= k < |Lines| :: !Owns(g, Lines[k], Other(p))
    ensures WinnerOf(g) == Some(p)
  {
    WinnerNoneIff(g);
    WinnerOwnsFirstLine(g, WinnerOf(g).value);
  }

  /** The empty board has no winner. */
  lemma EmptyHasNoWinner()
    ensures WinnerOf(Empty()) == None
  {
    forall j, p | 0 <= j < |Lines| ensures !Owns(Empty(), Lines[j], p) {
      var (x, y) := Lines[j][0];
      assert Empty()[y][x] == None;
    }
    WinnerNoneIff(Empty());
  }

  /** h keeps every mark of g: cells are only ever filled, never cleared or changed. */
  ghost predicate Extends(g: Grid, h: Grid)
  {
    forall x: Index, y: Index :: g[y][x].Some? ==> h[y][x] == g[y][x]
  }

  /** Once some mark has won, a grid with more marks still has a winner (not necessarily the same). */
  lemma WinnerMonotone(g: Grid, h: Grid)
    requires Extends(g, h) && WinnerOf(g).Some?
    ensures WinnerOf(h).Some?
  {
    var p := WinnerOf(g).value;
    WinnerOwnsFirstLine(g, p);
    var j :| 0 <= j < |Lines| && Owns(g, Lines[j], p);
    assert Owns(h, Lines[j], p);
    WinnerNoneIff(h);
  }

  /** A move, accepted or not, never takes a winner away. */
  lemma WinnerPersists(st: GameState, m: Move)
    requires m.InRange() && WinnerOf(st.grid).Some?
    ensures WinnerOf(Apply(st, m).1.grid).Some?
  {
    WinnerMonotone(st.grid, Apply(st, m).1.grid);
  }

  // ---------------------------------------------------------------------------
  // Turn alternation and the full board

  /** X has moved as often as O when X is to move, and once more when O is. */
  ghost predicate Alternates(st: GameState)
  {
    MarksOf(st.grid, X) == MarksOf(st.grid, O) + (if st.turn == X then 0 else 1)
  }

  lemma InitialAlternates()
    ensures Alternates(Initial())
  {
  }

  /** Every move keeps the marks and the turn in step. */
  lemma ApplyAlternates(st: GameState, m: Move)
    requires m.InRange()
    ensures Alternates(st) ==> Alternates(Apply(st, m).1)
  {
    if st.grid[m.y][m.x].None? {
      MarksOfFill(st.grid, m.x, m.y, st.turn);
    }
  }

  /** In step, X is to move exactly when an even number of cells is occupied. */
  lemma TurnParity(st: GameState)
    requires Alternates(st)
    ensures st.turn == X <==> Occupied(st.grid) % 2 == 0
  {
  }

  /** On a full board every move is rejected and changes nothing: no draw is detected. */
  lemma FullBoardRejects(st: GameState, m: Move)
    requires m.InRange() && Occupied(st.grid) == 9
    ensures Apply(st, m) == (Err(InvalidMove), st)
  {
    OccupiedBound(st.grid);
    assert st.grid[m.y][m.x].Some?;
  }

  /**
    The state after applying every move of ms in order from st, a rejected move changing
    nothing. Marks are only ever added, and the turn stays in step with them.
  */
  function Replay(st: GameState, ms: seq<Move>): (r: GameState)
    requires forall i | 0 <= i < |ms| :: ms[i].InRange()
    ensures Extends(st.grid, r.grid)
    ensures Alternates(st) ==> Alternates(r)
    decreases |ms|
  {
    if ms == [] then st
    else
      ApplyAlternates(st, ms[0]);
      Replay(Apply(st, ms[0]).1, ms[1..])
  }

  /**
    X playing "1 1", "2 2", "3 3" against O's "1 2", "1 3" takes the main diagonal and wins
    on the fifth move.
  */
  lemma DiagonalScenario()
    ensures WinnerOf(Replay(Initial(), DiagonalMoves).grid) == Some(X)
  {
    DiagonalMarks();
    var g := Replay(Initial(), DiagonalMoves).grid;
    assert Owns(g, Lines[6], X);
    forall k | 0 <= k < |Lines| ensures !Owns(g, Lines[k], O) {
      var c := if k < 3 then k else if k < 6 then k - 3 else 1;
      assert Lines[k][c] == (c, c);
    }
    WinnerOfSoleOwner(g, X, 6);
  }

  /** The moves of that game, zero-based, X's and O's alternating. */
  const DiagonalMoves: seq<Move> := [Move(0, 0), Move(0, 1), Move(1, 1), Move(0, 2), Move(2, 2)]

  /** After those moves X holds the three cells of the main diagonal. */
  lemma DiagonalMarks()
    ensures var g := Replay(Initial(), DiagonalMoves).grid;
      g[0][0] == Some(X) && g[1][1] == Some(X) && g[2][2] == Some(X)
  {
    ReplayFive(Initial(), DiagonalMoves);
  }


  /** Replaying five moves is applying them one after another. */
  lemma ReplayFive(st: GameState, ms: seq<Move>)
    requires |ms| == 5 && forall i | 0 <= i < 5 :: ms[i].InRange()
    ensures Replay(st, ms)
      == Apply(Apply(Apply(Apply(Apply(st, ms[0]).1, ms[1]).1, ms[2]).1, ms[3]).1, ms[4]).1
  {
    var s1 := Apply(st, ms[0]).1;
    var s2 := Apply(s1, ms[1]).1;
    var s3 := Apply(s2, ms[2]).1;
    var s4 := Apply(s3, ms[3]).1;
    var s5 := Apply(s4, ms[4]).1;
    assert Replay(s5, ms[5..]) == s5;
    assert Replay(s4, ms[4..]) == Replay(s5, ms[5..]);
    assert Replay(s3, ms[3..]) == Replay(s4, ms[4..]);
    assert Replay(s2, ms[2..]) == Replay(s3, ms[3..]);
    assert Replay(s1, ms[1..]) == Replay(s2, ms[2..]);
  }

  /** The five input lines of that game parse to its five moves. */
  lemma DiagonalScenarioInputs()
    ensures ParseMove("1 1\n") == Ok(Move(0, 0))
    ensures ParseMove("1 2\n") == Ok(Move(0, 1))
    ensures ParseMove("2 2\n") == Ok(Move(1, 1))
    ensures ParseMove("1 3\n") == Ok(Move(0, 2))
    ensures ParseMove("3 3\n") == Ok(Move(2, 2))
  {
    ParseDigits('1', '1');
    ParseDigits('1', '2');
    ParseDigits('2', '2');
    ParseDigits('1', '3');
    ParseDigits('3', '3');
  }

  // ---------------------------------------------------------------------------
  // The game object

  class Game {
    var turn: Player
    const board: Board

    ghost predicate Valid()
      reads this
    {
      board.Valid()
    }

    /** The value this game holds. */
    ghost function State(): GameState
      requires Valid()
      reads this, board.cells
    {
      GameState(turn, board.View())
    }

    /** A fresh game: X to move on an empty board. */
    constructor ()
      ensures Valid() && fresh(board) && fresh(board.cells)
      ensures State() == Initial()
    {
      turn := X;
      board := new Board();
    }

    /**
      Whether m targets an unoccupied cell; the only legality rule. Coordinates past the
      grid read as empty, as Get makes them.
    */
    function IsLegal(m: Move): (b: bool)
      requires Valid() && 0 <= m.x && 0 <= m.y
      reads this, board.cells
      ensures m.InRange() ==> (b <==> State().grid[m.y][m.x] == None)
      ensures !m.InRange() ==> b
    {
      board.IsEmpty(m.x, m.y)
    }

    /** Plays m as Apply says: rejected on an occupied cell, else placed and the turn passed. */
    method MakeMove(m: Move) returns (r: Result<(), MoveError>)
      requires Valid() && m.InRange()
      modifies this, board.cells
      ensures Valid()
      ensures (r, State()) == Apply(old(State()), m)
    {
      if !IsLegal(m) {
        return Err(InvalidMove);
      }
      board.Place(turn, m);
      turn := match turn
        case X => O
        case O => X;
      return Ok(());
    }

    /** The marks on the cells of cs in order, empty cells skipped, as the scan collects them. */
    method Occupants(cs: seq<(Index, Index)>) returns (occupation: seq<Player>)
      requires Valid()
      ensures occupation == Occupation(State().grid, cs)
    {
      ghost var g := board.View();
      occupation := [];
      var k := 0;
      while k < |cs|
        invariant 0 <= k <= |cs|
        invariant occupation == Occupation(g, cs[..k])
      {
        var (x, y) := cs[k];
        var c := board.Get(x, y);
        assert cs[..k + 1][..k] == cs[..k];
        if c.Some? {
          occupation := occupation + [c.value];
        }
        k := k + 1;
      }
      assert cs[..k] == cs;
    }

    /** Scans the eight lines in order and reports the mark of the first one fully held. */
    method Winner() returns (w: Option<Player>)
      requires Valid()
      ensures w == WinnerOf(State().grid)
    {
      ghost var g := board.View();
      var all := Lines;
      var i := 0;
      while i < |all|
        invariant 0 <= i <= |all| && all == Lines
        invariant Scan(g, i) == WinnerOf(g)
      {
        var winSet := all[i];
        var occupation := Occupants(winSet);
        if |occupation| != 3 {
          i := i + 1;
          continue;
        }
        if forall e | 0 <= e < |occupation| :: occupation[e] == occupation[0] {
          return Some(occupation[0]);
        }
        i := i + 1;
      }
      return None;
    }

    /** The game prints as its board. */
    method Render() returns (s: string)
      requires Valid()
      ensures s == Text(State().grid)
    {
      s := board.Render();
    }
  }
}
