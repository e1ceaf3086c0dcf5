/**
 * The board's grid shape and the helpers that build and scan grids:
 * `generateRevealedBoxesData`, `splitIntoGroupsOf` and `hasWon`
 * (memory_plain.py, lines 124-135 and 167-171).
 */
module Grid {
  import opened Config
  import opened Seqs

  /** A grid is a list of `Cols` columns, each a list of `Rows` cells. */
  predicate IsGrid<T>(g: seq<seq<T>>)
  {
    |g| == Cols && forall c :: 0 <= c < Cols ==> |g[c]| == Rows
  }

  /** (boxx, boxy) names a box of the board. */
  predicate InGrid(boxx: int, boxy: int)
  {
    0 <= boxx < Cols && 0 <= boxy < Rows
  }

  /** Every cell of the grid `g` holds `v`. */
  ghost predicate Uniform<T>(g: seq<seq<T>>, v: T)
  {
    IsGrid(g) && forall c, r :: InGrid(c, r) ==> g[c][r] == v
  }

  /** `g[boxx][boxy] = v`: the grid with that one cell replaced. */
  function SetCell<T>(g: seq<seq<T>>, boxx: int, boxy: int, v: T): (r: seq<seq<T>>)
    requires IsGrid(g) && InGrid(boxx, boxy)
    ensures IsGrid(r)
    ensures forall c, y :: InGrid(c, y) ==> r[c][y] == if c == boxx && y == boxy then v else g[c][y]
  {
    g[boxx := g[boxx][boxy := v]]
  }

  /**
   * Reading a grid column by column: cell (c, r) sits at position
   * `c * Rows + r` of the flattened grid.
   */
  lemma {:induction false} FlattenIndex<T>(g: seq<seq<T>>)
    requires forall c :: 0 <= c < |g| ==> |g[c]| == Rows
    ensures |Flatten(g)| == |g| * Rows
    ensures forall c, r :: 0 <= c < |g| && 0 <= r < Rows ==> Flatten(g)[c * Rows + r] == g[c][r]
  {
    if g != [] {
      var m := |g| - 1;
      FlattenIndex(g[..m]);
      assert Flatten(g) == Flatten(g[..m]) + g[m];
      forall c, r | 0 <= c < |g| && 0 <= r < Rows
        ensures Flatten(g)[c * Rows + r] == g[c][r]
      {
        if c < m {
          assert c * Rows + r < m * Rows;
          assert g[..m][c] == g[c];
        }
      }
    }
  }

  /** Position k of a flattened grid is cell (k / Rows, k % Rows). */
  lemma FlattenAt<T>(g: seq<seq<T>>, k: int)
    requires IsGrid(g) && 0 <= k < Cells
    ensures InGrid(k / Rows, k % Rows) && |Flatten(g)| == Cells
    ensures Flatten(g)[k] == g[k / Rows][k % Rows]
  {
    FlattenIndex(g);
    assert k == (k / Rows) * Rows + k % Rows;
  }

  /** generateRevealedBoxesData(val): a fresh grid with every cell `val`. */
  method GenerateRevealedBoxesData(val: bool) returns (data: seq<seq<bool>>)
    ensures Uniform(data, val)
  {
    data := [];
    var c := 0;
    while c < Cols
      invariant 0 <= c <= Cols && |data| == c
      invariant forall i :: 0 <= i < c ==> |data[i]| == Rows
      invariant forall i, r :: 0 <= i < c && 0 <= r < Rows ==> data[i][r] == val
    {
      data := data + [seq(Rows, _ => val)];
      c := c + 1;
    }
  }

  /**
   * hasWon(revealed): true exactly when no cell of any column is False.
   */
  function HasWon(revealed: seq<seq<bool>>): (won: bool)
    ensures won <==> forall c, r :: 0 <= c < |revealed| && 0 <= r < |revealed[c]| ==> revealed[c][r]
  {
    if revealed == [] then true
    else if false in revealed[0] then false
    else
      var rest := HasWon(revealed[1..]);
      assert forall c :: 1 <= c < |revealed| ==> revealed[c] == revealed[1..][c - 1];
      rest
  }
  /**
   * A grid of one value is won exactly when that value is True: the covered
   * grid of a new game is not won, the all-revealed grid is.
   */
  lemma UniformHasWon(g: seq<seq<bool>>, v: bool)
    requires Uniform(g, v)
    ensures HasWon(g) == v
  {
    if !v {
      assert !g[0][0];
    }
  }

  /**
   * splitIntoGroupsOf(groupSize, theList): consecutive slices
   * `theList[i:i + groupSize]` for i = 0, groupSize, 2 * groupSize, ...
   * Python's `range` refuses a zero step and yields nothing for a negative
   * one from 0 upwards; slices past the end are cut short.
   */
  method SplitIntoGroupsOf<T>(groupSize: int, list: seq<T>) returns (groups: seq<seq<T>>)
    requires groupSize != 0
    ensures groupSize < 0 ==> groups == []
    ensures groupSize > 0 ==> Flatten(groups) == list
    ensures groupSize > 0 ==> |groups| == (|list| + groupSize - 1) / groupSize
    ensures groupSize > 0 ==> forall k :: 0 <= k < |groups| - 1 ==> |groups[k]| == groupSize
    ensures groupSize > 0 && groups != [] ==> 0 < |groups[|groups| - 1]| <= groupSize
  {
    groups := [];
    if groupSize < 0 {
      return;
    }
    var i := 0;
    while i < |list|
      invariant 0 <= i && SplitUpTo(groups, list, groupSize, i)
      decreases |list| - i
    {
      var group := list[i..Min(i + groupSize, |list|)];
      SplitStep(groups, list, groupSize, i);
      groups := groups + [group];
      i := i + groupSize;
    }
    SplitDone(groups, list, groupSize, i);
  }

  /** The loop of splitIntoGroupsOf has cut `list` into `groups` up to position `i`. */
  ghost predicate SplitUpTo<T>(groups: seq<seq<T>>, list: seq<T>, g: int, i: int)
  {
    && g > 0
    && i == |groups| * g
    && Flatten(groups) == list[..Min(i, |list|)]
    && (groups != [] ==> i - g < |list| && 0 < |groups[|groups| - 1]| <= g)
    && (forall k :: 0 <= k < |groups| - 1 ==> |groups[k]| == g)
    && (i < |list| ==> forall k :: 0 <= k < |groups| ==> |groups[k]| == g)
  }

  /** When the loop of splitIntoGroupsOf stops, the groups cover the list. */
  lemma SplitDone<T>(groups: seq<seq<T>>, list: seq<T>, g: int, i: int)
    requires |list| <= i && SplitUpTo(groups, list, g, i)
    ensures Flatten(groups) == list
    ensures |groups| == (|list| + g - 1) / g
    ensures forall k :: 0 <= k < |groups| - 1 ==> |groups[k]| == g
    ensures groups != [] ==> 0 < |groups[|groups| - 1]| <= g
  {
    assert list[..|list|] == list;
    CeilingDivision(|groups|, g, |list|);
  }

  /** One turn of the loop of splitIntoGroupsOf. */
  lemma SplitStep<T>(groups: seq<seq<T>>, list: seq<T>, g: int, i: int)
    requires 0 <= i < |list| && SplitUpTo(groups, list, g, i)
    ensures SplitUpTo(groups + [list[i..Min(i + g, |list|)]], list, g, i + g)
  {
    var group := list[i..Min(i + g, |list|)];
    var groups' := groups + [group];
    assert list[..Min(i + g, |list|)] == list[..i] + group;
    assert |groups'| * g == |groups| * g + g;
    assert groups'[..|groups|] == groups;
    assert Flatten(groups') == Flatten(groups) + group;
  }

  function Min(a: int, b: int): int
  {
    if a < b then a else b
  }

  /** n groups of size g cover len items exactly when n is len / g rounded up. */
  lemma CeilingDivision(n: nat, g: int, len: nat)
    requires g > 0 && len <= n * g && (n == 0 || n * g - g < len)
    ensures (len + g - 1) / g == n
  {
    var m := len + g - 1;
    var q := m / g;
    var d := q - n;
    assert m == q * g + m % g && 0 <= m % g < g;
    assert d * g == q * g - n * g;
    assert -g < d * g < g;
    MultipleBounds(d, g);
  }

  /** A non-zero multiple of a positive g is at least g away from zero. */
  lemma MultipleBounds(d: int, g: int)
    requires g > 0
    ensures d >= 1 ==> d * g >= g
    ensures d <= -1 ==> d * g <= -g
  {
    if d >= 1 {
      assert d * g == (d - 1) * g + g;
    } else if d <= -1 {
      assert d * g == (d + 1) * g - g;
    }
  }
}
