/**
 * Where the boxes sit in the window and which box the mouse is over:
 * `leftTopOfBox` and `isOverBox` (memory_plain.py, lines 228-234 and
 * 250-257).
 */
module Layout {
  import opened Wrappers
  import opened Config
  import opened Grid

  /** Distance from one box's left (or top) edge to the next box's. */
  const Pitch: int := BoxSize + GapSize

  /**
   * The margins left and above the grid. The source halves the free space
   * as a float and truncates; both values are non-negative, so that is
   * integer division.
   */
  const XMargin: int := (WindowWidth - Cols * Pitch) / 2
  const YMargin: int := (WindowHeight - Rows * Pitch) / 2

  /** leftTopOfBox: pixel coordinates of a box's top-left corner. */
  function LeftTopOfBox(boxx: int, boxy: int): (corner: (int, int))
    ensures InGrid(boxx, boxy) ==>
      && 0 <= corner.0 && corner.0 + BoxSize <= WindowWidth
      && 0 <= corner.1 && corner.1 + BoxSize <= WindowHeight
  {
    (boxx * Pitch + XMargin, boxy * Pitch + YMargin)
  }

  /**
   * `pygame.Rect(left, top, BOXSIZE, BOXSIZE).collidepoint(x, y)`: the
   * point lies in the half-open square of the box.
   */
  predicate InBox(x: int, y: int, boxx: int, boxy: int)
  {
    var (left, top) := LeftTopOfBox(boxx, boxy);
    left <= x < left + BoxSize && top <= y < top + BoxSize
  }

  /** Because the gap is positive, no point lies in two boxes. */
  lemma BoxesDisjoint(x: int, y: int, c1: int, r1: int, c2: int, r2: int)
    requires InBox(x, y, c1, r1) && InBox(x, y, c2, r2)
    ensures c1 == c2 && r1 == r2
  {
  }

  /**
   * The loop of isOverBox from the k-th box on, boxes taken column by
   * column: box k is (k / Rows, k % Rows).
   */
  function SearchBoxes(x: int, y: int, k: nat): (hit: Option<(int, int)>)
    requires k <= Cells
    ensures hit.Some? ==> InGrid(hit.value.0, hit.value.1) && InBox(x, y, hit.value.0, hit.value.1)
    ensures hit.None? <==> forall j :: k <= j < Cells ==> !InBox(x, y, j / Rows, j % Rows)
    decreases Cells - k
  {
    if k == Cells then None
    else if InBox(x, y, k / Rows, k % Rows) then Some((k / Rows, k % Rows))
    else SearchBoxes(x, y, k + 1)
  }

  /** Box (c, r) is visited as the box number c * Rows + r. */
  lemma CellIndex(c: int, r: int)
    requires InGrid(c, r)
    ensures 0 <= c * Rows + r < Cells
    ensures (c * Rows + r) / Rows == c && (c * Rows + r) % Rows == r
  {
  }

  /** What the search over all boxes finds. */
  lemma SearchAllBoxes(x: int, y: int)
    ensures var hit := SearchBoxes(x, y, 0);
      && (forall c, r :: InGrid(c, r) && InBox(x, y, c, r) ==> hit == Some((c, r)))
      && (hit.None? <==> forall c, r :: InGrid(c, r) ==> !InBox(x, y, c, r))
  {
    var hit := SearchBoxes(x, y, 0);
    forall c, r | InGrid(c, r) && InBox(x, y, c, r)
      ensures hit == Some((c, r))
    {
      CellIndex(c, r);
      BoxesDisjoint(x, y, c, r, hit.value.0, hit.value.1);
    }
    if hit.None? {
      forall c, r | InGrid(c, r)
        ensures !InBox(x, y, c, r)
      {
        CellIndex(c, r);
      }
    }
  }

  /**
   * isOverBox(x, y): the box containing the point, or None when the point
   * lies in no box.
   */
  function IsOverBox(x: int, y: int): (hit: Option<(int, int)>)
    ensures hit.Some? ==> InGrid(hit.value.0, hit.value.1) && InBox(x, y, hit.value.0, hit.value.1)
    ensures forall c, r :: InGrid(c, r) && InBox(x, y, c, r) ==> hit == Some((c, r))
    ensures hit.None? <==> forall c, r :: InGrid(c, r) ==> !InBox(x, y, c, r)
  {
    SearchAllBoxes(x, y);
    SearchBoxes(x, y, 0)
  }

  /**
   * The box under a point, computed directly: the offset from the margin
   * divided by the pitch names the box, and the remainder must fall inside
   * the box rather than in the gap after it.
   */
  function BoxAt(x: int, y: int): Option<(int, int)>
  {
    var dx, dy := x - XMargin, y - YMargin;
    if 0 <= dx && 0 <= dy && dx / Pitch < Cols && dy / Pitch < Rows
       && dx % Pitch < BoxSize && dy % Pitch < BoxSize
    then Some((dx / Pitch, dy / Pitch))
    else None
  }

  /** An offset within the box after c pitches is divided by the pitch as c. */
  lemma DivideByPitch(d: int, c: int)
    requires 0 <= d - c * Pitch < BoxSize
    ensures d / Pitch == c && d % Pitch == d - c * Pitch
  {
  }

  /** A point the direct computation places in a box lies in that box. */
  lemma BoxAtInBox(x: int, y: int)
    requires BoxAt(x, y).Some?
    ensures InGrid(BoxAt(x, y).value.0, BoxAt(x, y).value.1)
    ensures InBox(x, y, BoxAt(x, y).value.0, BoxAt(x, y).value.1)
  {
    var dx, dy := x - XMargin, y - YMargin;
    assert dx == (dx / Pitch) * Pitch + dx % Pitch;
    assert dy == (dy / Pitch) * Pitch + dy % Pitch;
  }

  /** A point in a box is placed in that box by the direct computation. */
  lemma InBoxIsBoxAt(x: int, y: int, c: int, r: int)
    requires InGrid(c, r) && InBox(x, y, c, r)
    ensures BoxAt(x, y) == Some((c, r))
  {
    DivideByPitch(x - XMargin, c);
    DivideByPitch(y - YMargin, r);
  }

  /** The search of isOverBox agrees with the direct computation. */
  lemma IsOverBoxIsBoxAt(x: int, y: int)
    ensures IsOverBox(x, y) == BoxAt(x, y)
  {
    var hit := IsOverBox(x, y);
    if hit.Some? {
      InBoxIsBoxAt(x, y, hit.value.0, hit.value.1);
    } else if BoxAt(x, y).Some? {
      BoxAtInBox(x, y);
      assert false;
    }
  }
}
