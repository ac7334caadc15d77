/**
 Pointer position to grid cell.  The window is cut into an 8×8 grid of equal
 cells and a pixel belongs to cell floor(p / (extent / 8)).  With whole-pixel
 positions that floor is exactly (8·p) div extent, which is what is computed
 here.  Nothing clamps the result: a position at or past the far edge gives a
 cell index of 8 or more.
 */
module Pixels {
  import opened Notation

  /** The cell index along one axis of a window `extent` pixels long. */
  function PixelToCell(p: nat, extent: nat): (c: nat)
    requires extent > 0
    ensures c * extent <= 8 * p < (c + 1) * extent
  {
    var q := (8 * p) / extent;
    var r := (8 * p) % extent;
    assert 8 * p == q * extent + r;
    q
  }

  /** The cell under the pointer at (x, y) in a window of the given size. */
  function PixelToSquare(x: nat, y: nat, width: nat, height: nat): (sq: Square)
    requires width > 0 && height > 0
    ensures x < width && y < height ==> sq.OnBoard()
  {
    CellInRange(x, width);
    CellInRange(y, height);
    Square(PixelToCell(x, width), PixelToCell(y, height))
  }

  /** Multiplying by a positive factor preserves strict order, in both directions. */
  lemma ScaleStrict(a: nat, b: nat, k: nat)
    requires k > 0
    ensures a * k < b * k <==> a < b
  {

  }

  /** A position inside the window lands in one of the eight cells. */
  lemma CellInRange(p: nat, extent: nat)
    requires extent > 0
    ensures p < extent ==> PixelToCell(p, extent) < 8
  {

  }

  /** No clamping: a position at or past the far edge gives an index of 8 or more. */
  lemma NotClamped(p: nat, extent: nat)
    requires extent > 0 && p >= extent
    ensures PixelToCell(p, extent) >= 8
  {

  }

  /** A position exactly on the edge between cells k-1 and k belongs to cell k. */
  lemma EdgeGoesToHigherCell(p: nat, extent: nat, k: nat)
    requires extent > 0 && 8 * p == k * extent
    ensures PixelToCell(p, extent) == k
  {

  }

  /** A position lies in only one cell of a given size. */
  lemma QuotientUnique(p: nat, cell: nat, a: nat, b: nat)
    requires cell > 0
    requires a * cell <= p < (a + 1) * cell
    requires b * cell <= p < (b + 1) * cell
    ensures a == b
  {
    ScaleStrict(a, b + 1, cell);
    ScaleStrict(b, a + 1, cell);
  }

  /** Integer division rounds down: p lies in cell p / d of size d. */
  lemma InQuotientCell(p: nat, d: nat)
    requires d > 0
    ensures (p / d) * d <= p < (p / d + 1) * d
  {
    assert p == (p / d) * d + p % d;
  }

  /** A cell of the 8-cell grid, measured in whole cells of size `cell`. */
  lemma UnscaleCell(p: nat, cell: nat, c: nat)
    requires cell > 0
    requires c * (8 * cell) <= 8 * p < (c + 1) * (8 * cell)
    ensures c * cell <= p < (c + 1) * cell
  {
    assert c * (8 * cell) == 8 * (c * cell);
    assert (c + 1) * (8 * cell) == 8 * ((c + 1) * cell);
  }

  /** When the extent is a multiple of 8 the cell is the plain quotient by the cell size. */
  lemma CellSizeQuotient(p: nat, extent: nat)
    requires extent > 0 && extent % 8 == 0
    ensures PixelToCell(p, extent) == p / (extent / 8)
  {
    var cell := extent / 8;
    assert extent == 8 * cell;
    var c := PixelToCell(p, extent);
    UnscaleCell(p, cell, c);
    InQuotientCell(p, cell);
    QuotientUnique(p, cell, c, p / cell);
  }

  /** Named points of an 800×800 window. */
  lemma WindowExamples()
    ensures PixelToSquare(0, 0, 800, 800) == Square(0, 0)
    ensures PixelToSquare(799, 799, 800, 800) == Square(7, 7)
    ensures PixelToSquare(400, 0, 800, 800) == Square(4, 0)
    ensures PixelToSquare(800, 0, 800, 800) == Square(8, 0)
  {

  }
}
