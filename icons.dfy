/**
 * The icons a box can hide: a shape drawn in a colour (memory_plain.py,
 * lines 20-37), and the list of every combination that the board generator
 * starts from (lines 205-209).
 */
module Icons {
  import opened Seqs

  /** An RGB colour triple. */
  datatype Rgb = Rgb(red: int, green: int, blue: int)

  const Red := Rgb(255, 0, 0)
  const Green := Rgb(0, 255, 0)
  const Blue := Rgb(0, 0, 255)
  const Yellow := Rgb(255, 255, 0)
  const Orange := Rgb(255, 128, 0)
  const Purple := Rgb(255, 0, 255)
  const Cyan := Rgb(0, 255, 255)

  const Donut := 1
  const Square := 2
  const Diamond := 3
  const Lines := 4
  const Oval := 5

  /** The colours and shapes, in the order the generator enumerates them. */
  const Colors: seq<Rgb> := [Red, Green, Blue, Yellow, Orange, Purple, Cyan]
  const Shapes: seq<int> := [Donut, Square, Diamond, Lines, Oval]

  /** The (shape, colour) tuple stored in a board cell. */
  datatype Icon = Icon(shape: int, color: Rgb)

  /**
   * Every shape in every colour, colour-major: the icon at position
   * `c * |Shapes| + s` is shape `s` in colour `c`.
   */
  function CandidateIcons(): (icons: seq<Icon>)
    ensures |icons| == |Colors| * |Shapes|
  {
    seq(|Colors| * |Shapes|, k requires 0 <= k < |Colors| * |Shapes| =>
      Icon(Shapes[k % |Shapes|], Colors[k / |Shapes|]))
  }

  /** The two nested loops that append every (shape, colour) pair. */
  method BuildCandidateIcons() returns (icons: seq<Icon>)
    ensures icons == CandidateIcons()
  {
    icons := [];
    for c := 0 to |Colors|
      invariant icons == CandidateIcons()[..c * |Shapes|]
    {
      for s := 0 to |Shapes|
        invariant icons == CandidateIcons()[..c * |Shapes| + s]
      {
        assert CandidateIcons()[c * |Shapes| + s] == Icon(Shapes[s], Colors[c]);
        icons := icons + [Icon(Shapes[s], Colors[c])];
      }
    }
  }

  /** The 35 candidate icons are pairwise distinct. */
  lemma CandidatesDistinct()
    ensures Distinct(CandidateIcons())
  {
    var icons := CandidateIcons();
    assert Distinct(Shapes);
    assert Distinct(Colors);
    forall i, j | 0 <= i < j < |icons|
      ensures icons[i] != icons[j]
    {
      if i % |Shapes| == j % |Shapes| {
        assert i / |Shapes| != j / |Shapes|;
      }
    }
  }
}
