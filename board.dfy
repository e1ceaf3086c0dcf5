/**
 * The board generator `getRandomizedBoard` and reading a board cell with
 * `getShapeAndColor` (memory_plain.py, lines 174-175 and 204-225).
 *
 * The generator's two sources of randomness are parameters: `perm` is the
 * outcome of `random.shuffle` (position i of the shuffled list holds the
 * icon that was at position perm[i]), and `draws[k]` is the value of
 * `random.randint(0, len(icons) - 1)` at the k-th placement.
 */
module Board {
  import opened Config
  import opened Seqs
  import opened Grid
  import opened Icons

  /** `perm` maps the n positions one-to-one onto the n positions. */
  predicate IsPermutation(perm: seq<nat>, n: nat)
  {
    && |perm| == n
    && (forall i :: 0 <= i < n ==> perm[i] < n)
    && (forall i, j :: 0 <= i < j < n ==> perm[i] != perm[j])
  }

  /** `s` rearranged by `perm`. */
  function Shuffled<T>(s: seq<T>, perm: seq<nat>): seq<T>
    requires IsPermutation(perm, |s|)
  {
    seq(|s|, i requires 0 <= i < |s| => s[perm[i]])
  }

  /** Rearranging a list without repetitions gives one without repetitions. */
  lemma ShuffledDistinct<T>(s: seq<T>, perm: seq<nat>)
    requires IsPermutation(perm, |s|) && Distinct(s)
    ensures Distinct(Shuffled(s, perm))
  {
    var t := Shuffled(s, perm);
    forall i, j | 0 <= i < j < |t|
      ensures t[i] != t[j]
    {
      if perm[i] < perm[j] {
        assert s[perm[i]] != s[perm[j]];
      } else {
        assert s[perm[j]] != s[perm[i]];
      }
    }
  }

  /** `icons[:numIconsUsed] * 2`: the first icons of the shuffled list, twice. */
  function Pool(shuffled: seq<Icon>): (pool: seq<Icon>)
    requires NumIconsUsed <= |shuffled|
  {
    shuffled[..NumIconsUsed] + shuffled[..NumIconsUsed]
  }

  /**
   * The pool built from a list without repetitions fills the board exactly
   * and holds each of its icons exactly twice.
   */
  lemma PoolPairs(shuffled: seq<Icon>)
    requires NumIconsUsed <= |shuffled| && Distinct(shuffled)
    ensures |Pool(shuffled)| == Cells
    ensures forall v :: v in Pool(shuffled) ==> multiset(Pool(shuffled))[v] == 2
  {
    var used := shuffled[..NumIconsUsed];
    assert Distinct(used);
    forall v | v in Pool(shuffled)
      ensures multiset(Pool(shuffled))[v] == 2
    {
      DistinctAtMostOnce(used, v);
      assert v in used;
    }
  }

  /** The k-th draw picks an index of the k-th pool, which has Cells - k icons. */
  predicate ValidDraws(draws: seq<nat>)
  {
    |draws| == Cells && forall k :: 0 <= k < Cells ==> draws[k] < Cells - k
  }

  /**
   * Drawing without replacement: after k draws, the icons drawn so far in
   * the order drawn, and what is left of the pool.
   */
  function Drawing(pool: seq<Icon>, draws: seq<nat>, k: nat): (state: (seq<Icon>, seq<Icon>))
    requires k <= |draws| && k <= |pool|
    requires forall j :: 0 <= j < k ==> draws[j] < |pool| - j
    ensures |state.0| == k && |state.1| == |pool| - k
  {
    if k == 0 then ([], pool)
    else
      var (drawn, rest) := Drawing(pool, draws, k - 1);
      var i := draws[k - 1];
      (drawn + [rest[i]], rest[..i] + rest[i + 1..])
  }

  /** Removing position i from a list takes exactly its element out of the multiset. */
  lemma RemoveAtMultiset(s: seq<Icon>, i: nat)
    requires i < |s|
    ensures multiset(s[..i] + s[i + 1..]) + multiset{s[i]} == multiset(s)
  {
    assert s == s[..i] + [s[i]] + s[i + 1..];
  }

  /** Each draw moves exactly the drawn icon from the pool to the drawn list. */
  lemma {:induction false} DrawingConserves(pool: seq<Icon>, draws: seq<nat>, k: nat)
    requires k <= |draws| && k <= |pool|
    requires forall j :: 0 <= j < k ==> draws[j] < |pool| - j
    ensures multiset(Drawing(pool, draws, k).0) + multiset(Drawing(pool, draws, k).1) == multiset(pool)
  {
    if k > 0 {
      DrawingConserves(pool, draws, k - 1);
      var before := Drawing(pool, draws, k - 1);
      var i := draws[k - 1];
      RemoveAtMultiset(before.1, i);
      DrawStep(pool, draws, k - 1);
    }
  }

  /** A list of Cells icons cut into Cols columns of Rows icons. */
  function Columns(s: seq<Icon>): (g: seq<seq<Icon>>)
    requires |s| == Cells
  {
    seq(Cols, c requires 0 <= c < Cols => s[c * Rows..c * Rows + Rows])
  }

  /** Cutting a list into columns and reading the columns back gives the list. */
  lemma FlattenColumns(s: seq<Icon>)
    requires |s| == Cells
    ensures IsGrid(Columns(s)) && Flatten(Columns(s)) == s
  {
    var g := Columns(s);
    FlattenIndex(g);
    forall k | 0 <= k < Cells
      ensures Flatten(g)[k] == s[k]
    {
      FlattenAt(g, k);
    }
  }

  /** The board that getRandomizedBoard builds from these random outcomes. */
  function RandomizedBoard(perm: seq<nat>, draws: seq<nat>): seq<seq<Icon>>
    requires IsPermutation(perm, |CandidateIcons()|) && ValidDraws(draws)
  {
    Columns(Drawing(Pool(Shuffled(CandidateIcons(), perm)), draws, Cells).0)
  }

  /** Every icon on the board appears exactly twice. */
  ghost predicate PairedBoard(board: seq<seq<Icon>>)
  {
    IsGrid(board) && forall c, r :: InGrid(c, r) ==> multiset(Flatten(board))[board[c][r]] == 2
  }

  /** Whatever the shuffle and the draws, the generated board is paired. */
  lemma RandomizedBoardPaired(perm: seq<nat>, draws: seq<nat>)
    requires IsPermutation(perm, |CandidateIcons()|) && ValidDraws(draws)
    ensures PairedBoard(RandomizedBoard(perm, draws))
  {
    var shuffled := Shuffled(CandidateIcons(), perm);
    CandidatesDistinct();
    ShuffledDistinct(CandidateIcons(), perm);
    var pool := Pool(shuffled);
    PoolPairs(shuffled);
    var drawn := Drawing(pool, draws, Cells).0;
    DrawingConserves(pool, draws, Cells);
    assert multiset(drawn) == multiset(pool);
    var board := Columns(drawn);
    FlattenColumns(drawn);
    forall c, r | InGrid(c, r)
      ensures multiset(Flatten(board))[board[c][r]] == 2
    {
      FlattenAt(board, c * Rows + r);
      assert board[c][r] in drawn;
    }
  }

  /** One more draw appends the drawn icon and removes it from the pool. */
  lemma DrawStep(pool: seq<Icon>, draws: seq<nat>, k: nat)
    requires k < |draws| && k < |pool|
    requires forall j :: 0 <= j <= k ==> draws[j] < |pool| - j
    ensures var (drawn, rest) := Drawing(pool, draws, k);
      Drawing(pool, draws, k + 1) == (drawn + [rest[draws[k]]], rest[..draws[k]] + rest[draws[k] + 1..])
  {
  }

  /** A grid is the columns of its own column-by-column reading. */
  lemma ColumnsOfFlatten(board: seq<seq<Icon>>)
    requires IsGrid(board)
    ensures |Flatten(board)| == Cells && Columns(Flatten(board)) == board
  {
    var s := Flatten(board);
    FlattenIndex(board);
    var g := Columns(s);
    FlattenColumns(s);
    forall c, r | InGrid(c, r)
      ensures g[c][r] == board[c][r]
    {
      FlattenAt(board, c * Rows + r);
      FlattenAt(g, c * Rows + r);
    }
    forall c | 0 <= c < Cols
      ensures g[c] == board[c]
    {
      assert forall r :: 0 <= r < Rows ==> g[c][r] == board[c][r];
    }
  }

  /**
   * getRandomizedBoard: shuffle the candidate icons, keep the first
   * NumIconsUsed of them twice over, then fill the columns one by one, each
   * from top to bottom, with an icon taken out of the pool at a random index.
   */
  method GetRandomizedBoard(perm: seq<nat>, draws: seq<nat>) returns (board: seq<seq<Icon>>)
    requires IsPermutation(perm, |CandidateIcons()|) && ValidDraws(draws)
    ensures board == RandomizedBoard(perm, draws)
    ensures PairedBoard(board)
  {
    var icons := BuildCandidateIcons();
    icons := Shuffled(icons, perm);
    icons := icons[..NumIconsUsed] + icons[..NumIconsUsed];
    ghost var pool := icons;
    assert |pool| == Cells;
    board := [];
    for x := 0 to Cols
      invariant |board| == x && forall c :: 0 <= c < x ==> |board[c]| == Rows
      invariant (Flatten(board), icons) == Drawing(pool, draws, x * Rows)
    {
      var column := [];
      assert Flatten(board) + column == Flatten(board);
      for y := 0 to Rows
        invariant |column| == y
        invariant (Flatten(board) + column, icons) == Drawing(pool, draws, x * Rows + y)
      {
        var randomIndex := draws[x * Rows + y];
        DrawStep(pool, draws, x * Rows + y);
        assert (Flatten(board) + column) + [icons[randomIndex]] == Flatten(board) + (column + [icons[randomIndex]]);
        column := column + [icons[randomIndex]];
        icons := icons[..randomIndex] + icons[randomIndex + 1..];
      }
      board := board + [column];
      assert Flatten(board) == Flatten(board[..x]) + column;
    }
    ColumnsOfFlatten(board);
    RandomizedBoardPaired(perm, draws);
  }

  /** getShapeAndColor: the shape and the colour of the icon in a box. */
  function GetShapeAndColor(board: seq<seq<Icon>>, boxx: int, boxy: int): (sc: (int, Rgb))
    requires IsGrid(board) && InGrid(boxx, boxy)
    ensures Icon(sc.0, sc.1) == board[boxx][boxy]
  {
    (board[boxx][boxy].shape, board[boxx][boxy].color)
  }

  /** On a paired board every box has a partner: another box with its icon. */
  lemma PartnerExists(board: seq<seq<Icon>>, c: int, r: int) returns (pc: int, pr: int)
    requires PairedBoard(board) && InGrid(c, r)
    ensures InGrid(pc, pr) && (pc, pr) != (c, r) && board[pc][pr] == board[c][r]
  {
    var s := Flatten(board);
    FlattenAt(board, c * Rows + r);
    var j := OtherOccurrence(s, c * Rows + r);
    FlattenAt(board, j);
    pc, pr := j / Rows, j % Rows;
  }

  /** On a paired board no three distinct boxes hold the same icon. */
  lemma PartnerUnique(board: seq<seq<Icon>>, c: int, r: int, c1: int, r1: int, c2: int, r2: int)
    requires PairedBoard(board) && InGrid(c, r) && InGrid(c1, r1) && InGrid(c2, r2)
    requires (c1, r1) != (c, r) && (c2, r2) != (c, r)
    requires board[c1][r1] == board[c][r] && board[c2][r2] == board[c][r]
    ensures (c1, r1) == (c2, r2)
  {
    if (c1, r1) != (c2, r2) {
      var k, k1, k2 := c * Rows + r, c1 * Rows + r1, c2 * Rows + r2;
      FlattenAt(board, k);
      FlattenAt(board, k1);
      FlattenAt(board, k2);
      CountAtLeast(Flatten(board), board[c][r], {k, k1, k2});
      assert false;
    }
  }
}
