# Memory game: board generation, grid helpers and turn logic

This project models the logical core of a single-screen tile-matching
memory game (`memory_plain.py`). A grid of `COLS` × `ROWS` covered boxes
(10 × 6) hides icons, each a shape in a colour. A player reveals two boxes
per turn; a matching pair stays revealed, a mismatch is covered again, and
when every box is revealed the game is won and a fresh board is dealt.

The modules follow the parts of the program:

- `Config` (config.dfy): the window, grid and box constants.
- `Icons` (icons.dfy): shapes, colours, the icon datatype and the 35
  candidate icons (every shape in every colour).
- `Board` (board.dfy): `getRandomizedBoard` and `getShapeAndColor`. The
  generator's random outcomes are parameters: `perm` is the result of
  `random.shuffle` on the candidate list (a one-to-one rearrangement of
  the 35 positions), and `draws[k]` is the value `random.randint` returned
  at the k-th placement, so `draws[k] < Cells - k`. Given these, the board
  is the function `RandomizedBoard(perm, draws)`. The method that builds
  it with the source's loops is proved to return that board, and the
  board is proved to hold every icon exactly twice.
- `Grid` (grid.dfy): `generateRevealedBoxesData`, `splitIntoGroupsOf` and
  `hasWon`, plus column-by-column reading of a grid (`Flatten`).
- `Layout` (layout.dfy): `leftTopOfBox` and the hit test `isOverBox`.
  `pygame.Rect.collidepoint` is modelled as containment in the half-open
  square `[left, left + BOXSIZE) × [top, top + BOXSIZE)`.
- `Turn` (turn.dfy): the click handling of the main loop as a class
  `Game` with the loop's variables (`mainBoard` as `board`,
  `revealedBoxes` as `revealed`, `firstStep`, `firstSelection`) and a
  `Click` method. `Valid()` is the turn invariant. Between turns, two boxes
  with the same icon are both revealed or both covered. During a turn, the
  first pick is revealed, its partner is covered, and every other pair is
  closed. `Click` keeps this invariant.
- `Seqs` (seqs.dfy) and `Wrappers` (wrappers.dfy): sequence facts and
  `Option`.

The Python lists of lists become `seq<seq<...>>` values. The game's fields
are reassigned with the one cell changed (`SetCell`). Each column the
source builds is a fresh list, so no two cells alias.

The program does not check that the grid fits the icons. If `COLS * ROWS`
were odd or above 70, the pool would run out before the grid is full, and
`random.randint(0, len(icons) - 1)` at memory_plain.py:221 would raise.
With the constants at memory_plain.py:15-16 (60 boxes, 30 of the 35
icons) this cannot happen, and the model uses those constants.

## Model

| member | source | states |
|---|---|---|
| `Grid.GenerateRevealedBoxesData` | memory_plain.py:124-128 | The result has exactly `COLS` columns of `ROWS` cells, and every cell equals `val`. |
| `Grid.SplitIntoGroupsOf` | memory_plain.py:131-135 | For a positive group size, the groups concatenate back to the list. Every group but the last has exactly that size. The last is non-empty and no larger. There are ceil(len / size) groups. A negative size gives no groups. A zero size is refused, as `range` refuses it. |
| `Grid.HasWon` | memory_plain.py:167-171 | True exactly when no cell of any column is False. |
| `Grid.UniformHasWon` | memory_plain.py:167-171 | A grid built with one value is won exactly when that value is True. So the all-covered grid of a new game is not won. |
| `Icons.BuildCandidateIcons` | memory_plain.py:206-209 | The nested loops produce every shape in every colour, colour by colour: position `c * 5 + s` holds shape `s` in colour `c`. |
| `Icons.CandidatesDistinct` | memory_plain.py:206-209 | The 35 candidate icons are pairwise distinct. |
| `Board.ShuffledDistinct` | memory_plain.py:212 | Shuffling a list without repetitions gives a list without repetitions. |
| `Board.PoolPairs` | memory_plain.py:213-214 | Truncating a repetition-free list to `COLS*ROWS/2` icons and doubling it gives a pool of `COLS*ROWS` entries in which each icon occurs exactly twice. |
| `Board.Drawing` | memory_plain.py:217-224 | After k draws, k icons have been drawn and the pool has k fewer. |
| `Board.DrawingConserves` | memory_plain.py:221-223 | Each draw removes exactly the drawn icon from the pool. The drawn icons plus the rest of the pool always make up the original pool, so the pool ends empty with every icon placed. |
| `Board.FlattenColumns` | memory_plain.py:217-225 | Cutting the drawn icons into columns gives `COLS` columns of `ROWS` cells, and reading them column by column gives back the icons in the order drawn. |
| `Board.RandomizedBoardPaired` | memory_plain.py:204-225 | For every shuffle and every sequence of draws, every icon on the generated board appears exactly twice. |
| `Board.GetRandomizedBoard` | memory_plain.py:204-225 | The loops build exactly `RandomizedBoard(perm, draws)`, a board on which every icon appears exactly twice. |
| `Board.GetShapeAndColor` | memory_plain.py:174-175 | The shape and colour returned together are exactly the icon in the box. |
| `Board.PartnerExists` | memory_plain.py:213-225 | On a generated board every box has a partner: a different box with the same icon. |
| `Board.PartnerUnique` | memory_plain.py:213-225 | On a generated board no three different boxes hold the same icon. |
| `Layout.LeftTopOfBox` | memory_plain.py:228-234 | Every box of the grid lies inside the 640 × 480 window. |
| `Layout.BoxesDisjoint` | memory_plain.py:250-257 | Since the gap is positive, no point lies in two boxes. |
| `Layout.SearchBoxes` | memory_plain.py:251-257 | The search from box k on returns a box of the grid that contains the point. It returns None exactly when no box from k on contains it. |
| `Layout.IsOverBox` | memory_plain.py:250-257 | Returns `(boxx, boxy)` only for a box containing the point. It returns that box whenever a box contains the point, and None exactly when no box does. |
| `Layout.IsOverBoxIsBoxAt` | memory_plain.py:228-257 | The search agrees with the direct computation: the offset from the margin divided by `BOXSIZE + GAPSIZE`, provided the remainder falls inside the box rather than the gap. |
| `Turn.FirstPickPending` | memory_plain.py:84-91 | Between turns, revealing a covered box leaves its pair as the only open one: the box is revealed and its partner is covered. |
| `Turn.MatchCloses` | memory_plain.py:94-97 | Revealing the partner of the first pick closes every pair again. |
| `Turn.MismatchCloses` | memory_plain.py:97-102 | After a mismatch, covering both picks closes every pair again. |
| `Turn.RevealedPartnerRevealed` | memory_plain.py:78-118 | Between turns, every revealed box has a different box with the same icon that is also revealed. |
| `Turn.Game.constructor` | memory_plain.py:49-53 | A new game has the generated board, every box covered, the next pick the first of a turn, and no selection. It satisfies the turn invariant. |
| `Turn.Game.Click` | memory_plain.py:78-118 | Keeps the turn invariant. A click off the grid or on a revealed box changes nothing. A first pick reveals exactly that box, records it and ends the first step. A second pick is never the first box. On an icon mismatch, both picks are covered and nothing else changes. On a match, both stay revealed. On a match that reveals every box, the board is replaced by a generated one and every box is covered. After a second pick the next pick is always the first of a turn. |

## Left out

- Drawing and animation (`drawBoard`, `drawShape`, `highlightBox`,
  `drawBoxCover`, `revealBoxesAnimation`, `unrevealBoxesAnimation`,
  `gameWonAnimation`, `startGameAnimation`): they only produce pixels
  through pygame. The model therefore has no caller of `splitIntoGroupsOf`
  and no `int(BOXSIZE * 0.25)`.
- The colour swap of `BGCOLOR` and `BOXCOLOR` in `gameWonAnimation`: it
  only affects presentation.
- Event polling, `pygame.quit`/`sys.exit`, the frame clock and the
  `time.sleep` pauses: these are input, output and real-time delays. `Click`
  is one frame in which a mouse button was released, at the position in
  effect at the end of that frame's events. A frame without a click changes
  no state.
- Randomness: the shuffle and the draws are parameters, and any allowed
  outcome may occur. `IsPermutation` says the shuffle is one-to-one. It is
  not proved to be a permutation of the multiset. Uniformity of the shuffle
  and of the placement is not claimed.
- Grid.SplitIntoGroupsOf: requires a non-zero group size, so the
  `ValueError` that `range` raises for a zero step (memory_plain.py:133)
  is not modelled as an error result; the only caller passes 8.
- The random number generator's own state: when a new board is dealt, the
  random outcomes come from the caller of `Click` or of the constructor.
