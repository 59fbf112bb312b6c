// The Life engine: a toroidal grid of 0/1 cells and the generation step.

module Life {

  /** `g` has `rows` rows, each `columns` cells wide. */
  predicate IsGrid(g: seq<seq<int>>, rows: nat, columns: nat) {
    |g| == rows && forall x :: 0 <= x < |g| ==> |g[x]| == columns
  }

  /** Every cell is empty (0) or occupied (1). */
  predicate Binary(g: seq<seq<int>>) {
    forall x, y :: 0 <= x < |g| && 0 <= y < |g[x]| ==> g[x][y] == 0 || g[x][y] == 1
  }

  /** The all-empty grid. */
  function Blank(rows: nat, columns: nat): (g: seq<seq<int>>)
    ensures IsGrid(g, rows, columns) && Binary(g)
    ensures forall x, y :: 0 <= x < rows && 0 <= y < columns ==> g[x][y] == 0
  {
    seq(rows, _ => seq(columns, _ => 0))
  }

  /** `g` with cell (x, y) flipped: an empty cell becomes occupied, anything else empty. */
  function Toggled(g: seq<seq<int>>, x: nat, y: nat): (t: seq<seq<int>>)
    requires x < |g| && y < |g[x]|
    ensures |t| == |g| && |t[x]| == |g[x]|
    ensures t[x][y] != g[x][y]
  {
    g[x := g[x][y := if g[x][y] == 0 then 1 else 0]]
  }

  /** The cell at (x, y) on the torus: both coordinates wrap around. */
  function Wrapped(g: seq<seq<int>>, rows: nat, columns: nat, x: int, y: int): int
    requires IsGrid(g, rows, columns) && rows > 0 && columns > 0
  {
    g[x % rows][y % columns]
  }

  /** Reference definition: the sum of the eight wrapped neighbours of (x, y). */
  function NeighbourSum(g: seq<seq<int>>, rows: nat, columns: nat, x: nat, y: nat): int
    requires IsGrid(g, rows, columns) && x < rows && y < columns
  {
    Wrapped(g, rows, columns, x - 1, y - 1) + Wrapped(g, rows, columns, x - 1, y)
      + Wrapped(g, rows, columns, x - 1, y + 1)
      + Wrapped(g, rows, columns, x, y - 1) + Wrapped(g, rows, columns, x, y + 1)
      + Wrapped(g, rows, columns, x + 1, y - 1) + Wrapped(g, rows, columns, x + 1, y)
      + Wrapped(g, rows, columns, x + 1, y + 1)
  }

  /** The next generation: every cell computed from the old grid alone. */
  function Step(g: seq<seq<int>>, rows: nat, columns: nat): seq<seq<int>>
    requires IsGrid(g, rows, columns)
  {
    seq(rows, x requires 0 <= x < rows =>
      seq(columns, y requires 0 <= y < columns =>
        NextCell(g, rows, columns, x, y)))
  }

  /** Sum of the wrapped cells (x + i, y + j') for j' from -1 up to j - 1. */
  ghost function RowSum(g: seq<seq<int>>, rows: nat, columns: nat, x: int, y: int, i: int, j: int): int
    requires IsGrid(g, rows, columns) && rows > 0 && columns > 0
    requires -1 <= j <= 2
    decreases j + 1
  {
    if j == -1 then 0
    else RowSum(g, rows, columns, x, y, i, j - 1) + Wrapped(g, rows, columns, x + i, y + j - 1)
  }

  /** Sum of the wrapped 3-wide rows x + i' for i' from -1 up to i - 1. */
  ghost function BlockSum(g: seq<seq<int>>, rows: nat, columns: nat, x: int, y: int, i: int): int
    requires IsGrid(g, rows, columns) && rows > 0 && columns > 0
    requires -1 <= i <= 2
    decreases i + 1
  {
    if i == -1 then 0
    else BlockSum(g, rows, columns, x, y, i - 1) + RowSum(g, rows, columns, x, y, i - 1, 2)
  }

  /** Wrapping leaves a coordinate that is already on the board alone. */
  lemma ModInRange(a: int, n: int)
    requires 0 <= a < n
    ensures a % n == a
  {
  }

  /** Wrapping one step past the last row or column lands on the first. */
  lemma ModOfSize(n: int)
    requires n > 0
    ensures n % n == 0
  {
  }

  /** A full row of the block is its three wrapped cells. */
  lemma RowSumFull(g: seq<seq<int>>, rows: nat, columns: nat, x: int, y: int, i: int)
    requires IsGrid(g, rows, columns) && rows > 0 && columns > 0
    ensures RowSum(g, rows, columns, x, y, i, 2)
      == Wrapped(g, rows, columns, x + i, y - 1) + Wrapped(g, rows, columns, x + i, y)
         + Wrapped(g, rows, columns, x + i, y + 1)
  {
    assert RowSum(g, rows, columns, x, y, i, 0) == Wrapped(g, rows, columns, x + i, y - 1);
  }

  /** The whole 3x3 block is the eight neighbours plus the cell itself. */
  lemma BlockIsNeighboursAndCell(g: seq<seq<int>>, rows: nat, columns: nat, x: nat, y: nat)
    requires IsGrid(g, rows, columns) && x < rows && y < columns
    ensures BlockSum(g, rows, columns, x, y, 2) == NeighbourSum(g, rows, columns, x, y) + g[x][y]
  {
    RowSumFull(g, rows, columns, x, y, -1);
    RowSumFull(g, rows, columns, x, y, 0);
    RowSumFull(g, rows, columns, x, y, 1);
    var r0, r1, r2 :=
      RowSum(g, rows, columns, x, y, -1, 2), RowSum(g, rows, columns, x, y, 0, 2),
      RowSum(g, rows, columns, x, y, 1, 2);
    assert BlockSum(g, rows, columns, x, y, 0) == r0;
    assert BlockSum(g, rows, columns, x, y, 1) == r0 + r1;
    assert BlockSum(g, rows, columns, x, y, 2) == r0 + r1 + r2;
    ModInRange(x, rows);
    ModInRange(y, columns);
  }

  /** The Life engine of one board: its dimensions and the generation step. */
  class Model {
    const rows: nat
    const columns: nat

    constructor (rows: nat, columns: nat)
      ensures this.rows == rows && this.columns == columns
    {
      this.rows := rows;
      this.columns := columns;
    }

    /** Counts the occupied wrapped neighbours of (x, y): the cell itself is
        subtracted first, then all nine cells of its 3x3 block are added. */
    method NumNeighbours(state: seq<seq<int>>, x: nat, y: nat) returns (result: int)
      requires IsGrid(state, rows, columns) && x < rows && y < columns
      ensures result == NeighbourSum(state, rows, columns, x, y)
      ensures Binary(state) ==> 0 <= result <= 8
    {
      result := -state[x][y];
      for i := -1 to 2
        invariant result == -state[x][y] + BlockSum(state, rows, columns, x, y, i)
      {
        for j := -1 to 2
          invariant result == -state[x][y] + BlockSum(state, rows, columns, x, y, i)
                                             + RowSum(state, rows, columns, x, y, i, j)
        {
          var nx, ny := (x + i) % rows, (y + j) % columns;
          result := result + state[nx][ny];
        }
      }
      BlockIsNeighboursAndCell(state, rows, columns, x, y);
      if Binary(state) {
        NeighbourSumBounds(state, rows, columns, x, y);
      }
    }

    /** Builds a fresh grid holding the next generation of `oldState`. */
    method UpdateState(oldState: seq<seq<int>>) returns (newState: seq<seq<int>>)
      requires IsGrid(oldState, rows, columns)
      ensures newState == Step(oldState, rows, columns)
    {
      newState := Blank(rows, columns);
      for x := 0 to rows
        invariant IsGrid(newState, rows, columns)
        invariant forall r, c :: 0 <= r < x && 0 <= c < columns ==>
          newState[r][c] == NextCell(oldState, rows, columns, r, c)
      {
        for y := 0 to columns
          invariant IsGrid(newState, rows, columns)
          invariant forall r, c :: 0 <= r < x && 0 <= c < columns ==>
            newState[r][c] == NextCell(oldState, rows, columns, r, c)
          invariant forall c :: 0 <= c < y ==> newState[x][c] == NextCell(oldState, rows, columns, x, c)
        {
          var n := NumNeighbours(oldState, x, y);
          newState := newState[x := newState[x][y := GetStateCell(n, oldState[x][y])]];
        }
      }
      StepCellwise(oldState, rows, columns, newState);
    }

    /** The birth/survival rule: first matching case wins. */
    static function GetStateCell(numNeighbours: int, cellState: int): (r: int)
      ensures r == 0 || r == 1
      ensures r == 1 <==> (numNeighbours == 3 && (cellState == 0 || cellState == 1))
                          || (numNeighbours == 2 && cellState == 1)
    {
      if numNeighbours < 2 then 0                                   // underpopulation
      else if 2 <= numNeighbours <= 3 && cellState == 1 then 1      // survival
      else if numNeighbours >= 4 then 0                             // overpopulation
      else if numNeighbours == 3 && cellState == 0 then 1           // reproduction
      else 0
    }
  }

  /** On a 0/1 grid every cell has between 0 and 8 occupied neighbours. */
  lemma NeighbourSumBounds(g: seq<seq<int>>, rows: nat, columns: nat, x: nat, y: nat)
    requires IsGrid(g, rows, columns) && Binary(g) && x < rows && y < columns
    ensures 0 <= NeighbourSum(g, rows, columns, x, y) <= 8
  {
  }

  /** The wrap-around is real: on a board of at least 3x3, the only occupied
      cell (0, 0) is a neighbour of the opposite corner (rows - 1, columns - 1). */
  lemma CornerWraps(rows: nat, columns: nat)
    requires rows >= 3 && columns >= 3
    ensures NeighbourSum(Toggled(Blank(rows, columns), 0, 0), rows, columns, rows - 1, columns - 1) == 1
  {
    var g := Toggled(Blank(rows, columns), 0, 0);
    assert IsGrid(g, rows, columns);
    forall i, j | 0 <= i < rows && 0 <= j < columns
      ensures g[i][j] == if i == 0 && j == 0 then 1 else 0
    {
    }
    ModInRange(rows - 2, rows);
    ModInRange(rows - 1, rows);
    ModOfSize(rows);
    ModInRange(columns - 2, columns);
    ModInRange(columns - 1, columns);
    ModOfSize(columns);
  }

  /** The next state of cell (x, y). */
  function NextCell(g: seq<seq<int>>, rows: nat, columns: nat, x: nat, y: nat): int
    requires IsGrid(g, rows, columns) && x < rows && y < columns
  {
    Model.GetStateCell(NeighbourSum(g, rows, columns, x, y), g[x][y])
  }

  /** A grid that agrees with the next state cell by cell is the next generation. */
  lemma StepCellwise(g: seq<seq<int>>, rows: nat, columns: nat, h: seq<seq<int>>)
    requires IsGrid(g, rows, columns) && IsGrid(h, rows, columns)
    requires forall r, c :: 0 <= r < rows && 0 <= c < columns ==> h[r][c] == NextCell(g, rows, columns, r, c)
    ensures h == Step(g, rows, columns)
  {
    var s := Step(g, rows, columns);
    forall r | 0 <= r < rows ensures h[r] == s[r] {
      forall c | 0 <= c < columns ensures h[r][c] == s[r][c] {
      }
    }
  }

  /** A step keeps the dimensions and yields a 0/1 grid whatever the input. */
  lemma StepShape(g: seq<seq<int>>, rows: nat, columns: nat)
    requires IsGrid(g, rows, columns)
    ensures IsGrid(Step(g, rows, columns), rows, columns)
    ensures Binary(Step(g, rows, columns))
  {
  }

  /** Each cell of the next generation obeys the Life rule B3/S23 on a 0/1 grid:
      occupied exactly when it has 3 neighbours, or 2 and was occupied. */
  lemma StepCell(g: seq<seq<int>>, rows: nat, columns: nat, x: nat, y: nat)
    requires IsGrid(g, rows, columns) && Binary(g) && x < rows && y < columns
    ensures var n := NeighbourSum(g, rows, columns, x, y);
      Step(g, rows, columns)[x][y] == if n == 3 || (n == 2 && g[x][y] == 1) then 1 else 0
  {
  }

  /** An empty board stays empty. */
  lemma StepBlank(rows: nat, columns: nat)
    ensures Step(Blank(rows, columns), rows, columns) == Blank(rows, columns)
  {
    var b := Blank(rows, columns);
    var s := Step(b, rows, columns);
    forall x | 0 <= x < rows ensures s[x] == b[x] {
      forall y | 0 <= y < columns ensures s[x][y] == 0 {
        forall i, j ensures Wrapped(b, rows, columns, i, j) == 0 {
          assert 0 <= i % rows < rows && 0 <= j % columns < columns;
        }
      }
    }
  }

  /** A grid of the given shape whose every cell is 0 is the blank grid. */
  lemma BlankCellwise(g: seq<seq<int>>, rows: nat, columns: nat)
    requires IsGrid(g, rows, columns)
    requires forall r, c :: 0 <= r < rows && 0 <= c < columns ==> g[r][c] == 0
    ensures g == Blank(rows, columns)
  {
    var b := Blank(rows, columns);
    forall r | 0 <= r < rows ensures g[r] == b[r] {
    }
  }

  /** Toggling flips exactly the chosen cell between 0 and 1 and keeps the shape. */
  lemma ToggledCells(g: seq<seq<int>>, rows: nat, columns: nat, x: nat, y: nat)
    requires IsGrid(g, rows, columns) && Binary(g) && x < rows && y < columns
    ensures IsGrid(Toggled(g, x, y), rows, columns) && Binary(Toggled(g, x, y))
    ensures Toggled(g, x, y)[x][y] == 1 - g[x][y]
    ensures forall r, c :: 0 <= r < rows && 0 <= c < columns && (r != x || c != y) ==>
      Toggled(g, x, y)[r][c] == g[r][c]
  {
  }

  /** Toggling the same cell twice restores a 0/1 grid. */
  lemma ToggleTwice(g: seq<seq<int>>, rows: nat, columns: nat, x: nat, y: nat)
    requires IsGrid(g, rows, columns) && Binary(g) && x < rows && y < columns
    ensures Toggled(Toggled(g, x, y), x, y) == g
  {
    assert Toggled(Toggled(g, x, y), x, y)[x] == g[x];
  }
}
