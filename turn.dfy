/**
 * The turn logic of the game loop (memory_plain.py, lines 49-53 and 78-118):
 * the board, the grid of revealed boxes, whether the next pick is the
 * first of a turn, and the first pick of the current turn.
 */
module Turn {
  import opened Wrappers
  import opened Grid
  import opened Icons
  import opened Board
  import opened Layout

  /** Two boxes with the same icon are either both revealed or both covered. */
  ghost predicate PairsClosed(board: seq<seq<Icon>>, revealed: seq<seq<bool>>)
    requires IsGrid(board) && IsGrid(revealed)
  {
    forall c1, r1, c2, r2 ::
      InGrid(c1, r1) && InGrid(c2, r2) && board[c1][r1] == board[c2][r2] ==>
        revealed[c1][r1] == revealed[c2][r2]
  }

  /**
   * Mid-turn: the first pick (c, r) is revealed and every other box with
   * its icon is covered; all other pairs are closed.
   */
  ghost predicate PendingPair(board: seq<seq<Icon>>, revealed: seq<seq<bool>>, c: int, r: int)
    requires IsGrid(board) && IsGrid(revealed) && InGrid(c, r)
  {
    && revealed[c][r]
    && (forall c1, r1 :: InGrid(c1, r1) && (c1, r1) != (c, r) && board[c1][r1] == board[c][r] ==>
          !revealed[c1][r1])
    && (forall c1, r1, c2, r2 ::
          (InGrid(c1, r1) && InGrid(c2, r2) && (c1, r1) != (c, r) && (c2, r2) != (c, r) &&
           board[c1][r1] == board[c2][r2]) ==> revealed[c1][r1] == revealed[c2][r2])
  }

  /** Revealing a covered box between turns leaves exactly its pair open. */
  lemma FirstPickPending(board: seq<seq<Icon>>, revealed: seq<seq<bool>>, c: int, r: int)
    requires IsGrid(board) && IsGrid(revealed) && InGrid(c, r)
    requires PairsClosed(board, revealed) && !revealed[c][r]
    ensures PendingPair(board, SetCell(revealed, c, r, true), c, r)
  {
  }

  /** Revealing the partner of the first pick closes every pair again. */
  lemma MatchCloses(board: seq<seq<Icon>>, revealed: seq<seq<bool>>, c: int, r: int, c2: int, r2: int)
    requires PairedBoard(board) && IsGrid(revealed) && InGrid(c, r) && InGrid(c2, r2)
    requires PendingPair(board, revealed, c, r)
    requires (c2, r2) != (c, r) && board[c2][r2] == board[c][r]
    ensures PairsClosed(board, SetCell(revealed, c2, r2, true))
  {
    var after := SetCell(revealed, c2, r2, true);
    forall p1, q1, p2, q2 | InGrid(p1, q1) && InGrid(p2, q2) && board[p1][q1] == board[p2][q2]
      ensures after[p1][q1] == after[p2][q2]
    {
      if board[p1][q1] == board[c][r] {
        if (p1, q1) != (c, r) {
          PartnerUnique(board, c, r, p1, q1, c2, r2);
        }
        if (p2, q2) != (c, r) {
          PartnerUnique(board, c, r, p2, q2, c2, r2);
        }
      }
    }
  }

  /** Covering the two picks of a mismatched turn closes every pair again. */
  lemma MismatchCloses(board: seq<seq<Icon>>, revealed: seq<seq<bool>>, c: int, r: int, c2: int, r2: int)
    requires IsGrid(board) && IsGrid(revealed) && InGrid(c, r) && InGrid(c2, r2)
    requires PendingPair(board, revealed, c, r) && !revealed[c2][r2]
    requires board[c2][r2] != board[c][r]
    ensures PairsClosed(board, SetCell(SetCell(SetCell(revealed, c2, r2, true), c, r, false), c2, r2, false))
  {
  }

  /** Between turns, the partner of every revealed box is revealed too. */
  lemma RevealedPartnerRevealed(board: seq<seq<Icon>>, revealed: seq<seq<bool>>, c: int, r: int)
    returns (pc: int, pr: int)
    requires PairedBoard(board) && IsGrid(revealed) && InGrid(c, r)
    requires PairsClosed(board, revealed) && revealed[c][r]
    ensures InGrid(pc, pr) && (pc, pr) != (c, r) && board[pc][pr] == board[c][r] && revealed[pc][pr]
  {
    pc, pr := PartnerExists(board, c, r);
  }

  /** The state of one game. */
  class Game {
    var board: seq<seq<Icon>>
    var revealed: seq<seq<bool>>
    var firstStep: bool
    var firstSelection: Option<(int, int)>

    /** The board is paired, and pairs are closed except for a pending first pick. */
    ghost predicate Valid()
      reads this
    {
      && PairedBoard(board)
      && IsGrid(revealed)
      && (firstStep ==> PairsClosed(board, revealed))
      && (!firstStep ==>
            && firstSelection.Some?
            && InGrid(firstSelection.value.0, firstSelection.value.1)
            && PendingPair(board, revealed, firstSelection.value.0, firstSelection.value.1))
    }

    /** A new game: a generated board, every box covered, no pick made. */
    constructor (perm: seq<nat>, draws: seq<nat>)
      requires IsPermutation(perm, |CandidateIcons()|) && ValidDraws(draws)
      ensures Valid()
      ensures board == RandomizedBoard(perm, draws) && Uniform(revealed, false)
      ensures firstStep && firstSelection == None
    {
      var generated := GetRandomizedBoard(perm, draws);
      var covered := GenerateRevealedBoxesData(false);
      board := generated;
      revealed := covered;
      firstStep := true;
      firstSelection := None;
    }

    /**
     * A mouse click at (x, y). `perm` and `draws` are the random outcomes
     * used if this click wins the game and a new board is generated.
     */
    method Click(x: int, y: int, perm: seq<nat>, draws: seq<nat>)
      requires Valid()
      requires IsPermutation(perm, |CandidateIcons()|) && ValidDraws(draws)
      modifies this
      ensures Valid()
      ensures match IsOverBox(x, y)
        case None => unchanged(this)
        case Some((c, r)) =>
          if old(revealed)[c][r] then unchanged(this)
          else if old(firstStep) then
            && board == old(board)
            && revealed == SetCell(old(revealed), c, r, true)
            && firstSelection == Some((c, r))
            && !firstStep
          else
            var (fc, fr) := old(firstSelection).value;
            && (c, r) != (fc, fr)
            && firstStep
            && firstSelection == old(firstSelection)
            && if old(board)[fc][fr] != old(board)[c][r] then
                 && board == old(board)
                 && revealed == SetCell(SetCell(SetCell(old(revealed), c, r, true), fc, fr, false), c, r, false)
               else if !HasWon(SetCell(old(revealed), c, r, true)) then
                 && board == old(board)
                 && revealed == SetCell(old(revealed), c, r, true)
               else
                 && board == RandomizedBoard(perm, draws)
                 && Uniform(revealed, false)
    {
      var hit := IsOverBox(x, y);
      if hit.Some? {
        var (boxx, boxy) := hit.value;
        if !revealed[boxx][boxy] {
          revealed := SetCell(revealed, boxx, boxy, true);
          if firstStep {
            FirstPickPending(board, old(revealed), boxx, boxy);
            firstSelection := Some((boxx, boxy));
            firstStep := false;
          } else {
            var (fc, fr) := firstSelection.value;
            var (shape1, color1) := GetShapeAndColor(board, fc, fr);
            var (shape2, color2) := GetShapeAndColor(board, boxx, boxy);
            if shape1 != shape2 || color1 != color2 {
              MismatchCloses(board, old(revealed), fc, fr, boxx, boxy);
              revealed := SetCell(revealed, fc, fr, false);
              revealed := SetCell(revealed, boxx, boxy, false);
            } else {
              MatchCloses(board, old(revealed), fc, fr, boxx, boxy);
              if HasWon(revealed) {
                var generated := GetRandomizedBoard(perm, draws);
                var covered := GenerateRevealedBoxesData(false);
                board := generated;
                revealed := covered;
              }
            }
            firstStep := true;
          }
        }
      }
    }
  }
}
