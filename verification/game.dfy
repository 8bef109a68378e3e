/** The game board (`Minesweeper`): a grid of booleans marking the mines,
    the set of mine cells, and the set of mines the player has flagged.
    Mine placement is random in the source; here the board is given. */
module Game {
  import opened Cells

  datatype Minesweeper = Minesweeper(
    height: nat,
    width: nat,
    mines: set<Cell>,
    minesFound: set<Cell>,
    board: seq<seq<bool>>)

  /** `board` has `height` rows of `width` entries each. */
  predicate Rectangular(board: seq<seq<bool>>, height: nat, width: nat) {
    |board| == height && forall i :: 0 <= i < |board| ==> |board[i]| == width
  }

  /** The cells whose board entry is true. */
  function BoardMines(board: seq<seq<bool>>): set<Cell> {
    set i: nat, j: nat | i < |board| && j < |board[i]| && board[i][j] :: (i, j)
  }

  /** The shape the constructor establishes: the board has the stated size
      and the mine set is exactly the board's true cells. */
  predicate Valid(g: Minesweeper) {
    Rectangular(g.board, g.height, g.width) && g.mines == BoardMines(g.board)
  }

  /** Whether `cell` holds a mine; indexing panics outside the board. */
  function IsMine(g: Minesweeper, cell: Cell): (r: bool)
    requires Rectangular(g.board, g.height, g.width) && InBounds(cell, g.height, g.width)
    ensures r <==> cell in BoardMines(g.board)
    ensures Valid(g) ==> (r <==> cell in g.mines)
  {
    g.board[cell.0][cell.1]
  }

  /** `(x + 1).min(n - 1)`: the last index the scan visits; `n - 1` underflows for an empty dimension. */
  function Ahead(x: nat, n: nat): nat
    requires n >= 1
  {
    if x + 1 < n - 1 then x + 1 else n - 1
  }

  /** The mines around `cell`: the value the clue of `cell` reports. */
  function MinesAround(g: Minesweeper, cell: Cell): set<Cell> {
    Neighbours(cell, g.height, g.width) * BoardMines(g.board)
  }

  /** Number of mines in the clipped 3 by 3 block around `cell`, the cell
      itself excluded. The cell need not be on the board: the scan clips to
      the board in every direction. */
  method NearbyMines(g: Minesweeper, cell: Cell) returns (count: nat)
    requires g.height >= 1 && g.width >= 1
    requires Rectangular(g.board, g.height, g.width)
    ensures count == |MinesAround(g, cell)|
    ensures count <= 8
  {
    var x, y := cell.0, cell.1;
    count := 0;
    var i := Back(x);
    ScannedNone(g, cell);
    while i <= Ahead(x, g.height)
      invariant Back(x) <= i
      invariant i <= Ahead(x, g.height) + 1 || i == Back(x)
      invariant count == |Scanned(g, cell, i, 0)|
    {
      var j := Back(y);
      ScannedRowStart(g, cell, i);
      while j <= Ahead(y, g.width)
        invariant Back(y) <= j
        invariant j <= Ahead(y, g.width) + 1 || j == Back(y)
        invariant count == |Scanned(g, cell, i, j)|
      {
        ScannedStep(g, cell, i, j);
        if (i, j) != (x, y) && g.board[i][j] {
          count := count + 1;
        }
        j := j + 1;
      }
      ScannedRowEnd(g, cell, i, j);
      i := i + 1;
    }
    ScannedAll(g, cell, i);
    SubsetCard(MinesAround(g, cell), Neighbours(cell, g.height, g.width));
  }

  /** Whether every mine has been flagged. */
  function Won(g: Minesweeper): (r: bool)
    ensures r <==> (forall c :: c in g.mines <==> c in g.minesFound)
    ensures Valid(g) ==> (r <==> g.minesFound == BoardMines(g.board))
  {
    g.minesFound == g.mines
  }

  // ---------------------------------------------------------------------
  // The scan of `NearbyMines`, one cell at a time in row-major order.

  /** The mines around `cell` that come before `(i, j)` in row-major order. */
  ghost function Scanned(g: Minesweeper, cell: Cell, i: nat, j: nat): set<Cell> {
    set d | d in MinesAround(g, cell) && (d.0 < i || (d.0 == i && d.1 < j))
  }

  lemma ScannedNone(g: Minesweeper, cell: Cell)
    ensures Scanned(g, cell, Back(cell.0), 0) == {}
  {
    forall d | d in MinesAround(g, cell) ensures d !in Scanned(g, cell, Back(cell.0), 0) {
      assert Adjacent(d, cell);
    }
  }

  lemma ScannedRowStart(g: Minesweeper, cell: Cell, i: nat)
    ensures Scanned(g, cell, i, Back(cell.1)) == Scanned(g, cell, i, 0)
  {
    forall d | d in Scanned(g, cell, i, Back(cell.1)) ensures d in Scanned(g, cell, i, 0) {
      assert Adjacent(d, cell);
    }
  }

  lemma ScannedStep(g: Minesweeper, cell: Cell, i: nat, j: nat)
    requires g.height >= 1 && g.width >= 1
    requires Rectangular(g.board, g.height, g.width)
    requires Back(cell.0) <= i <= Ahead(cell.0, g.height)
    requires Back(cell.1) <= j <= Ahead(cell.1, g.width)
    ensures |Scanned(g, cell, i, j + 1)| ==
            |Scanned(g, cell, i, j)| + (if (i, j) != cell && g.board[i][j] then 1 else 0)
  {
    if (i, j) != cell && g.board[i][j] {
      ScannedHit(g, cell, i, j);
    } else {
      ScannedMiss(g, cell, i, j);
    }
  }

  lemma ScannedHit(g: Minesweeper, cell: Cell, i: nat, j: nat)
    requires Rectangular(g.board, g.height, g.width) && i < g.height && j < g.width
    requires Adjacent((i, j), cell) && g.board[i][j]
    ensures Scanned(g, cell, i, j + 1) == Scanned(g, cell, i, j) + {(i, j)}
    ensures (i, j) !in Scanned(g, cell, i, j)
  {
    assert (i, j) in BoardMines(g.board);
  }

  lemma ScannedMiss(g: Minesweeper, cell: Cell, i: nat, j: nat)
    requires Rectangular(g.board, g.height, g.width) && i < g.height && j < g.width
    requires (i, j) == cell || !g.board[i][j]
    ensures Scanned(g, cell, i, j + 1) == Scanned(g, cell, i, j)
  {
    assert (i, j) !in BoardMines(g.board) || !Adjacent((i, j), cell);
  }

  lemma ScannedRowEnd(g: Minesweeper, cell: Cell, i: nat, j: nat)
    requires g.width >= 1
    requires j > Ahead(cell.1, g.width)
    ensures Scanned(g, cell, i, j) == Scanned(g, cell, i + 1, 0)
  {
    forall d | d in Scanned(g, cell, i + 1, 0) ensures d in Scanned(g, cell, i, j) {
      assert Adjacent(d, cell) && InBounds(d, g.height, g.width);
    }
  }

  lemma ScannedAll(g: Minesweeper, cell: Cell, i: nat)
    requires g.height >= 1
    requires i > Ahead(cell.0, g.height)
    ensures Scanned(g, cell, i, 0) == MinesAround(g, cell)
  {
    forall d | d in MinesAround(g, cell) ensures d in Scanned(g, cell, i, 0) {
      assert Adjacent(d, cell) && InBounds(d, g.height, g.width);
    }
  }
}
