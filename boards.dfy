/**
  The 3×3 board. A Grid is its value, row-major as the source's nested array
  (grid[y][x] is column x of row y); Board is the object that the game updates in place.
*/
module Boards {
  import opened Wrappers
  import opened Players
  import opened Moves

  /** A cell is empty (None) or holds one mark. */
  type Cell = Option<Player>

  /** A coordinate along one side of the grid. */
  type Index = i: int | 0 <= i < 3

  type Grid = g: seq<seq<Cell>> | |g| == 3 && |g[0]| == 3 && |g[1]| == 3 && |g[2]| == 3
    witness [[None, None, None], [None, None, None], [None, None, None]]

  /** The grid of a fresh board. */
  function Empty(): (g: Grid)
    ensures forall x: Index, y: Index :: g[y][x] == None
    ensures Occupied(g) == 0
  {
    [[None, None, None], [None, None, None], [None, None, None]]
  }

  /** g with the cell at column x, row y replaced by c. */
  function Update(g: Grid, x: Index, y: Index, c: Cell): (h: Grid)
    ensures h[y][x] == c
    ensures forall i: Index, j: Index :: (i != x || j != y) ==> h[j][i] == g[j][i]
  {
    g[y := g[y][x := c]]
  }

  // ---------------------------------------------------------------------------
  // Counting marks

  /** How many cells of r hold p. */
  function Marks(r: seq<Cell>, p: Player): nat
  {
    if r == [] then 0 else (if r[0] == Some(p) then 1 else 0) + Marks(r[1..], p)
  }

  /** How many cells of g hold p. */
  function MarksOf(g: Grid, p: Player): nat
  {
    Marks(g[0], p) + Marks(g[1], p) + Marks(g[2], p)
  }

  /** How many cells of g are occupied. */
  function Occupied(g: Grid): nat
  {
    MarksOf(g, X) + MarksOf(g, O)
  }

  /** Filling an empty cell with p adds one to p's count and leaves the other mark's count. */
  lemma {:induction false} MarksFill(r: seq<Cell>, i: nat, p: Player, q: Player)
    requires i < |r| && r[i] == None
    ensures Marks(r[i := Some(p)], q) == Marks(r, q) + (if q == p then 1 else 0)
  {
    if i > 0 {
      assert r[i := Some(p)][1..] == r[1..][i - 1 := Some(p)];
      MarksFill(r[1..], i - 1, p, q);
    } else {
      assert r[i := Some(p)][1..] == r[1..];
    }
  }

  /** A row holds at most as many marks as cells, and as many only when every cell is occupied. */
  lemma {:induction false} MarksBound(r: seq<Cell>)
    ensures Marks(r, X) + Marks(r, O) <= |r|
    ensures Marks(r, X) + Marks(r, O) == |r| ==> forall i | 0 <= i < |r| :: r[i].Some?
  {
    if r != [] {
      MarksBound(r[1..]);
      if Marks(r, X) + Marks(r, O) == |r| {
        forall i | 0 <= i < |r| ensures r[i].Some? {
          if i > 0 {
            assert r[i] == r[1..][i - 1];
          }
        }
      }
    }
  }

  /** Filling an empty cell of the grid with p counts one more p and one more occupied cell. */
  lemma MarksOfFill(g: Grid, x: Index, y: Index, p: Player)
    requires g[y][x] == None
    ensures MarksOf(Update(g, x, y, Some(p)), p) == MarksOf(g, p) + 1
    ensures MarksOf(Update(g, x, y, Some(p)), Other(p)) == MarksOf(g, Other(p))
    ensures Occupied(Update(g, x, y, Some(p))) == Occupied(g) + 1
  {
    MarksFill(g[y], x, p, p);
    MarksFill(g[y], x, p, Other(p));
    var h := Update(g, x, y, Some(p));
    assert h[y] == g[y][x := Some(p)];
    forall j: Index | j != y ensures h[j] == g[j] {
    }
  }

  /** A grid has at most nine occupied cells, and nine only when none is empty. */
  lemma OccupiedBound(g: Grid)
    ensures Occupied(g) <= 9
    ensures Occupied(g) == 9 ==> forall x: Index, y: Index :: g[y][x].Some?
  {
    MarksBound(g[0]);
    MarksBound(g[1]);
    MarksBound(g[2]);
  }

  // ---------------------------------------------------------------------------
  // Rendering

  /** The character shown for a cell: the mark's glyph, or a space when it is empty. */
  function CellGlyph(c: Cell): (ch: char)
    ensures ch == ' ' <==> c.None?
  {
    match c
    case Some(p) => Glyph(p)
    case None => ' '
  }

  /** Different cells print differently, so the text determines the cell. */
  lemma CellGlyphInjective(c: Cell, d: Cell)
    ensures CellGlyph(c) == CellGlyph(d) ==> c == d
  {
  }

  /** The text of the first n cells of row r: each glyph followed by '|', or '\n' after the last. */
  function RowText(r: seq<Cell>, n: nat): (s: string)
    requires n <= |r|
    ensures |s| == 2 * n
    ensures forall k | 0 <= k < n :: s[2 * k] == CellGlyph(r[k])
  {
    if n == 0 then []
    else RowText(r, n - 1) + [CellGlyph(r[n - 1])] + (if n - 1 < |r| - 1 then "|" else "\n")
  }

  /** The text of the first n rows of g, a separator line after every row but the last. */
  function RowsText(g: Grid, n: nat): (s: string)
    requires n <= 3
    ensures |s| == 12 * n - (if n == 3 then 6 else 0)
  {
    if n == 0 then []
    else RowsText(g, n - 1) + RowText(g[n - 1], 3) + (if n - 1 < |g[n - 1]| - 1 then "-+-+-\n" else "")
  }

  /** The rendering of the whole board. */
  function Text(g: Grid): (s: string)
    ensures |s| == 30
  {
    RowsText(g, 3)
  }

  /** One printed row of three cells, laid out explicitly. */
  function Row(r: seq<Cell>): string
    requires |r| == 3
  {
    [CellGlyph(r[0]), '|', CellGlyph(r[1]), '|', CellGlyph(r[2]), '\n']
  }

  lemma RowTextIsRow(r: seq<Cell>)
    requires |r| == 3
    ensures RowText(r, 3) == Row(r)
  {
    assert RowText(r, 1) == [CellGlyph(r[0]), '|'];
    assert RowText(r, 2) == [CellGlyph(r[0]), '|', CellGlyph(r[1]), '|'];
  }

  /** The rendering is exactly three rows joined by two separator lines, none after the last. */
  lemma TextRows(g: Grid)
    ensures Text(g) == Row(g[0]) + "-+-+-\n" + Row(g[1]) + "-+-+-\n" + Row(g[2])
  {
    RowTextIsRow(g[0]);
    RowTextIsRow(g[1]);
    RowTextIsRow(g[2]);
    assert RowsText(g, 1) == Row(g[0]) + "-+-+-\n";
    assert RowsText(g, 2) == RowsText(g, 1) + Row(g[1]) + "-+-+-\n";
    assert RowsText(g, 3) == RowsText(g, 2) + Row(g[2]);
  }

  /**
    The rendering is 30 characters long: row y starts at 12y and shows the glyph of cell
    (x, y) at 12y + 2x; each of the two separators sits in the six characters after a row.
  */
  lemma TextLayout(g: Grid)
    ensures |Text(g)| == 30
    ensures forall x: Index, y: Index :: Text(g)[12 * y + 2 * x] == CellGlyph(g[y][x])
    ensures Text(g)[6..12] == "-+-+-\n" && Text(g)[18..24] == "-+-+-\n"
  {
    TextRows(g);
    var t := Text(g);
    assert t[..6] == Row(g[0]);
    assert t[6..12] == "-+-+-\n";
    assert t[12..18] == Row(g[1]);
    assert t[18..24] == "-+-+-\n";
    assert t[24..] == Row(g[2]);
    forall x: Index, y: Index ensures t[12 * y + 2 * x] == CellGlyph(g[y][x]) {
      assert t[12 * y + 2 * x] == t[12 * y..12 * y + 6][2 * x];
    }
  }

  /** Two boards render alike only when they are the same board. */
  lemma TextInjective(g: Grid, h: Grid)
    requires Text(g) == Text(h)
    ensures g == h
  {
    TextLayout(g);
    TextLayout(h);
    forall x: Index, y: Index ensures g[y][x] == h[y][x] {
      assert Text(g)[12 * y + 2 * x] == Text(h)[12 * y + 2 * x];
      CellGlyphInjective(g[y][x], h[y][x]);
    }
    assert g[0] == h[0] && g[1] == h[1] && g[2] == h[2];
  }

  // ---------------------------------------------------------------------------
  // The board object

  class Board {
    /** cells[y, x] is column x of row y. */
    const cells: array2<Cell>

    ghost predicate Valid()
    {
      cells.Length0 == 3 && cells.Length1 == 3
    }

    /** The grid the array holds. */
    ghost function View(): (g: Grid)
      requires Valid()
      reads cells
      ensures forall x: Index, y: Index :: g[y][x] == cells[y, x]
    {
      seq(3, y requires 0 <= y < 3 reads cells => seq(3, x requires 0 <= x < 3 reads cells => cells[y, x]))
    }

    /** A fresh board has every cell empty. */
    constructor ()
      ensures Valid() && fresh(cells)
      ensures View() == Empty()
    {
      cells := new Cell[3, 3]((y, x) => None);
      new;
      assert View()[0] == Empty()[0] && View()[1] == Empty()[1] && View()[2] == Empty()[2];
    }

    /** The cell at column x, row y; None for coordinates off the grid rather than a failure. */
    function Get(x: nat, y: nat): (r: Cell)
      requires Valid()
      reads cells
      ensures x < 3 && y < 3 ==> r == View()[y][x]
      ensures !(x < 3 && y < 3) ==> r == None
    {
      if y < cells.Length0 then
        if x < cells.Length1 then cells[y, x] else None
      else None
    }

    /**
      Whether the cell at column x, row y is unoccupied. Negative coordinates make the
      source fail, so they are excluded; coordinates past the grid read as empty.
    */
    function IsEmpty(x: int, y: int): (b: bool)
      requires Valid()
      requires 0 <= x && 0 <= y
      reads cells
      ensures x < 3 && y < 3 ==> (b <==> View()[y][x] == None)
      ensures !(x < 3 && y < 3) ==> b
    {
      Get(x, y).None?
    }

    /** Writes p into the cell the move addresses, whatever it held; no other cell changes. */
    method Place(p: Player, m: Move)
      requires Valid() && m.InRange()
      modifies cells
      ensures Valid()
      ensures View() == Update(old(View()), m.x, m.y, Some(p))
    {
      var Move(x, y) := m;
      cells[y, x] := Some(p);
      ghost var h := Update(old(View()), m.x, m.y, Some(p));
      assert View()[0] == h[0] && View()[1] == h[1] && View()[2] == h[2];
    }

    /** Prints the board row by row and, within a row, cell by cell. */
    method Render() returns (s: string)
      requires Valid()
      ensures s == Text(View())
    {
      ghost var g := View();
      s := [];
      var y := 0;
      while y < cells.Length0
        invariant 0 <= y <= 3
        invariant s == RowsText(g, y)
      {
        var x := 0;
        while x < cells.Length1
          invariant 0 <= x <= 3
          invariant s == RowsText(g, y) + RowText(g[y], x)
        {
          s := s + [CellGlyph(cells[y, x])] + (if x < cells.Length1 - 1 then "|" else "\n");
          x := x + 1;
        }
        s := s + (if y < cells.Length1 - 1 then "-+-+-\n" else "");
        y := y + 1;
      }
    }
  }
}
