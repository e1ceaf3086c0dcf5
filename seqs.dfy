/** Facts about sequences that the grid, the chunker and the board rely on. */
module Seqs {

  /** The lists of `s` concatenated in order. */
  function Flatten<T>(s: seq<seq<T>>): seq<T>
  {
    if s == [] then [] else Flatten(s[..|s| - 1]) + s[|s| - 1]
  }

  /** No element occurs twice. */
  predicate Distinct<T(==)>(s: seq<T>)
  {
    forall i, j :: 0 <= i < j < |s| ==> s[i] != s[j]
  }

  /** In a sequence without repetitions every value occurs at most once. */
  lemma {:induction false} DistinctAtMostOnce<T>(s: seq<T>, v: T)
    requires Distinct(s)
    ensures multiset(s)[v] <= 1
  {
    if s != [] {
      var n := |s| - 1;
      var init := s[..n];
      assert s == init + [s[n]];
      assert Distinct(init);
      DistinctAtMostOnce(init, v);
      if s[n] == v {
        assert forall i :: 0 <= i < n ==> init[i] != v;
        assert v !in init;
      }
    }
  }

  /** A value found at the positions `ix` occurs at least `|ix|` times. */
  lemma {:induction false} CountAtLeast<T>(s: seq<T>, v: T, ix: set<int>)
    requires forall i :: i in ix ==> 0 <= i < |s| && s[i] == v
    ensures multiset(s)[v] >= |ix|
  {
    if s == [] {
      assert forall i :: i !in ix;
      assert ix == {};
    } else {
      var n := |s| - 1;
      var init := s[..n];
      assert s == init + [s[n]];
      CountAtLeast(init, v, ix - {n});
      assert |ix| <= |ix - {n}| + 1;
    }
  }

  /** A value occurring at least twice occurs at some other position too. */
  lemma OtherOccurrence<T>(s: seq<T>, i: int) returns (j: int)
    requires 0 <= i < |s| && multiset(s)[s[i]] >= 2
    ensures 0 <= j < |s| && j != i && s[j] == s[i]
  {
    var rest := s[..i] + s[i + 1..];
    assert s == s[..i] + [s[i]] + s[i + 1..];
    assert multiset(s) == multiset(rest) + multiset{s[i]};
    assert s[i] in multiset(rest);
    var k :| 0 <= k < |rest| && rest[k] == s[i];
    if k < i {
      j := k;
    } else {
      j := k + 1;
      assert s[j] == rest[k];
    }
  }
}
