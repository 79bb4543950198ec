/** Board geometry of the encoder: the grid of `height` rows (x) and `width`
    columns (y), the time steps 1..time, the `neigh` table
    (src/Solver.cpp:8), and the numbering of the 2 * (width + height)
    positions around the board where dispensers and sinks sit. */
module Board {

  /** The board and schedule sizes the Solver is built for. */
  datatype Dims = Dims(width: nat, height: nat, time: nat)

  predicate InGrid(d: Dims, x: int, y: int) {
    0 <= x < d.height && 0 <= y < d.width
  }

  predicate InTime(d: Dims, t: int) {
    1 <= t <= d.time
  }

  /** The `neigh` table: the four orthogonal neighbours and the cell itself. */
  const Neigh: seq<(int, int)> := [(-1, 0), (0, -1), (1, 0), (0, 1), (0, 0)]

  /** Number of positions around the board (the size of `sink` and of
      `dispenser`). */
  function PerimeterSize(d: Dims): nat {
    2 * (d.width + d.height)
  }

  // ------------------------------------------------------------------
  // Perimeter positions (src/Solver.cpp:327-340, 413-424)

  /** The four sides of the board.  The offset along Top and Bottom is the
      column y, along Right and Left the row x. */
  datatype Side = Top | Right | Bottom | Left

  function SideLength(d: Dims, s: Side): nat {
    if s == Top || s == Bottom then d.width else d.height
  }

  /** The position next to the cell at offset `k` of side `s`: the top side
      counts columns from 0, the right side continues with the rows, the
      bottom side runs back from the right and the left side runs back up. */
  function Slot(d: Dims, s: Side, k: int): int {
    match s
    case Top => k
    case Right => d.width + k
    case Bottom => 2 * d.width + d.height - k - 1
    case Left => 2 * (d.width + d.height) - k - 1
  }

  /** Every position of a side lies around the board. */
  lemma SlotInRange(d: Dims, s: Side, k: int)
    requires 0 <= k < SideLength(d, s)
    ensures 0 <= Slot(d, s, k) < PerimeterSize(d)
  {
  }

  /** The sides use disjoint ranges: different (side, offset) pairs get
      different positions. */
  lemma SlotInjective(d: Dims, s: Side, k: int, s': Side, k': int)
    requires 0 <= k < SideLength(d, s) && 0 <= k' < SideLength(d, s')
    requires Slot(d, s, k) == Slot(d, s', k')
    ensures s == s' && k == k'
  {
  }

  /** A cell on the border of the board. */
  predicate OnBoundary(d: Dims, x: int, y: int) {
    x == 0 || y == 0 || x == d.height - 1 || y == d.width - 1
  }

  /** The positions next to cell (x, y), in the order the encoder tests the
      sides: x == 0, y == 0, x == height - 1, y == width - 1. */
  function Touching(d: Dims, x: int, y: int): seq<int> {
    (if x == 0 then [Slot(d, Top, y)] else [])
    + (if y == 0 then [Slot(d, Left, x)] else [])
    + (if x == d.height - 1 then [Slot(d, Bottom, y)] else [])
    + (if y == d.width - 1 then [Slot(d, Right, x)] else [])
  }

  /** A cell touches some position exactly when it is on the border, and
      every position it touches lies around the board. */
  lemma TouchingShape(d: Dims, x: int, y: int)
    requires InGrid(d, x, y)
    ensures |Touching(d, x, y)| > 0 <==> OnBoundary(d, x, y)
    ensures forall i | 0 <= i < |Touching(d, x, y)| :: 0 <= Touching(d, x, y)[i] < PerimeterSize(d)
  {
  }

  // ------------------------------------------------------------------
  // From a position back to a cell (src/Solver.cpp:156-168)

  /** The cell that the dispenser and sink printer draws position `j` next
      to, as written: on the top side it sets y to `width`, one column past
      the board, instead of to `j`. */
  function PrinterCell(d: Dims, j: int): (int, int) {
    if j < d.width then (0, d.width)
    else if j < d.width + d.height then (j - d.width, d.width - 1)
    else if j < d.width * 2 + d.height then (d.height - 1, d.width * 2 + d.height - j - 1)
    else ((d.width + d.height) * 2 - j - 1, 0)
  }

  /** On the right, bottom and left sides of a board with at least one row
      and one column the printer inverts the encoder: the cell is on the
      board and touches `j`. */
  lemma PrinterCellMapsBack(d: Dims, j: int)
    requires d.width >= 1 && d.height >= 1
    requires d.width <= j < PerimeterSize(d)
    ensures InGrid(d, PrinterCell(d, j).0, PrinterCell(d, j).1)
    ensures j in Touching(d, PrinterCell(d, j).0, PrinterCell(d, j).1)
  {
    var (x, y) := PrinterCell(d, j);
    if j < d.width + d.height {
      assert Slot(d, Right, x) == j;
    } else if j < d.width * 2 + d.height {
      assert Slot(d, Bottom, y) == j;
    } else {
      assert Slot(d, Left, x) == j;
    }
  }

  /** On the top side it does not: position 0 of any board with a column is
      drawn next to (0, width), which is off the board. */
  lemma PrinterTopSideOffBoard(d: Dims, j: int)
    requires 0 <= j < d.width
    ensures PrinterCell(d, j) == (0, d.width)
    ensures !InGrid(d, PrinterCell(d, j).0, PrinterCell(d, j).1)
  {
  }

  /** The printer with the top side drawn at column `j`. */
  function SlotCell(d: Dims, j: int): (int, int) {
    if j < d.width then (0, j)
    else if j < d.width + d.height then (j - d.width, d.width - 1)
    else if j < d.width * 2 + d.height then (d.height - 1, d.width * 2 + d.height - j - 1)
    else ((d.width + d.height) * 2 - j - 1, 0)
  }

  /** SlotCell and Touching are inverse: each position around the board is
      drawn next to a cell of the board that touches it, and a cell touches
      exactly the positions drawn next to it. */
  lemma SlotCellTouches(d: Dims, j: int)
    requires d.width >= 1 && d.height >= 1
    requires 0 <= j < PerimeterSize(d)
    ensures InGrid(d, SlotCell(d, j).0, SlotCell(d, j).1)
    ensures j in Touching(d, SlotCell(d, j).0, SlotCell(d, j).1)
  {
    var (x, y) := SlotCell(d, j);
    if j < d.width {
      assert Slot(d, Top, y) == j;
    } else if j < d.width + d.height {
      assert Slot(d, Right, x) == j;
    } else if j < d.width * 2 + d.height {
      assert Slot(d, Bottom, y) == j;
    } else {
      assert Slot(d, Left, x) == j;
    }
  }

  lemma TouchingSlotCell(d: Dims, x: int, y: int, j: int)
    requires InGrid(d, x, y)
    ensures j in Touching(d, x, y) <==> 0 <= j < PerimeterSize(d) && SlotCell(d, j) == (x, y)
  {
    if j in Touching(d, x, y) {
      TouchingShape(d, x, y);
    }
    if 0 <= j < PerimeterSize(d) && SlotCell(d, j) == (x, y) {
      SlotCellTouches(d, j);
    }
  }
}
