/**
 * The fixed configuration of the game: window and grid dimensions and the
 * size of a box and of the gap between boxes (memory_plain.py, lines 11-18).
 */
module Config {
  const WindowWidth: int := 640
  const WindowHeight: int := 480
  const Cols: nat := 10
  const Rows: nat := 6
  const BoxSize: int := 40
  const GapSize: int := 10

  /** Number of boxes on the board. */
  const Cells: nat := Cols * Rows

  /**
   * `int(COLS * ROWS / 2)`: how many distinct icons one board uses. The
   * source divides as floats and truncates; on this non-negative value that
   * is integer division.
   */
  const NumIconsUsed: nat := Cells / 2
}
