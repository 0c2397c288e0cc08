/**
 * The relationship matrix of `buildMatrix` (app.js lines 75-93): cell
 * [i][j] adds, over the taxon columns in which both profiles are positive,
 * the smaller of the two values.
 */
module Similarity {
  import opened Wrappers
  import opened Aggregation

  /** `parseFloat(profile[col]) || 0`: the summed value, 0 for a key the profile lacks. */
  function Value(p: Profile, col: string): real
  {
    if col in p.sums then p.sums[col] else 0.0
  }

  /** `Math.min` */
  function MinReal(x: real, y: real): real
  {
    if x <= y then x else y
  }

  /** What one column adds to a cell (lines 82-86). */
  function Shared(x: real, y: real): real
  {
    if x > 0.0 && y > 0.0 then MinReal(x, y) else 0.0
  }

  /** The value the loop over `cols` accumulates into cell [i][j] for profiles `a` and `b`. */
  function Overlap(a: Profile, b: Profile, cols: seq<string>): real
    decreases |cols|
  {
    if cols == [] then 0.0
    else
      var c := cols[|cols| - 1];
      Overlap(a, b, cols[..|cols| - 1]) + Shared(Value(a, c), Value(b, c))
  }

  /** A profile's own total over the columns where it is positive. */
  function PositiveMass(a: Profile, cols: seq<string>): real
    decreases |cols|
  {
    if cols == [] then 0.0
    else
      var c := cols[|cols| - 1];
      PositiveMass(a, cols[..|cols| - 1]) + (if Value(a, c) > 0.0 then Value(a, c) else 0.0)
  }

  // ---------------------------------------------------------------------------
  // Properties of one cell

  lemma {:induction false} OverlapSymmetric(a: Profile, b: Profile, cols: seq<string>)
    ensures Overlap(a, b, cols) == Overlap(b, a, cols)
    decreases |cols|
  {
    if cols != [] {
      OverlapSymmetric(a, b, cols[..|cols| - 1]);
    }
  }

  lemma {:induction false} OverlapNonNegative(a: Profile, b: Profile, cols: seq<string>)
    ensures Overlap(a, b, cols) >= 0.0
    decreases |cols|
  {
    if cols != [] {
      OverlapNonNegative(a, b, cols[..|cols| - 1]);
    }
  }

  /** The diagonal is the profile's self-overlap: its total over its positive columns. */
  lemma {:induction false} OverlapSelf(a: Profile, cols: seq<string>)
    ensures Overlap(a, a, cols) == PositiveMass(a, cols)
    decreases |cols|
  {
    if cols != [] {
      OverlapSelf(a, cols[..|cols| - 1]);
    }
  }

  /** Because min(x, y) <= x, no overlap exceeds either profile's own total. */
  lemma {:induction false} OverlapBounded(a: Profile, b: Profile, cols: seq<string>)
    ensures Overlap(a, b, cols) <= PositiveMass(a, cols)
    ensures Overlap(a, b, cols) <= PositiveMass(b, cols)
    decreases |cols|
  {
    if cols != [] {
      OverlapBounded(a, b, cols[..|cols| - 1]);
    }
  }

  /** Three datasets with one column and totals A = 5, B = 1, C = 5. */
  lemma ExampleOverlaps()
    ensures var a, b, c := Profile(Some("A"), map["k__X" := 5.0]), Profile(Some("B"), map["k__X" := 1.0]),
                           Profile(Some("C"), map["k__X" := 5.0]);
            Overlap(a, a, ["k__X"]) == 5.0 && Overlap(a, b, ["k__X"]) == 1.0 &&
            Overlap(a, c, ["k__X"]) == 5.0 && Overlap(b, b, ["k__X"]) == 1.0 &&
            Overlap(b, c, ["k__X"]) == 1.0 && Overlap(c, c, ["k__X"]) == 5.0
  {
    assert ["k__X"][..0] == [];
  }

  // ---------------------------------------------------------------------------
  // The matrix

  /** `buildMatrix(data, taxonomicColumns)`: a zero-filled square matrix accumulated in place. */
  method BuildMatrix(profiles: seq<Profile>, cols: seq<string>) returns (m: array2<real>)
    ensures fresh(m)
    ensures m.Length0 == |profiles| && m.Length1 == |profiles|
    ensures forall i, j :: 0 <= i < |profiles| && 0 <= j < |profiles| ==>
              m[i, j] == Overlap(profiles[i], profiles[j], cols)
    ensures forall i, j :: 0 <= i < |profiles| && 0 <= j < |profiles| ==> m[i, j] == m[j, i]
    ensures forall i, j :: 0 <= i < |profiles| && 0 <= j < |profiles| ==> 0.0 <= m[i, j] <= m[i, i]
    ensures forall i :: 0 <= i < |profiles| ==> m[i, i] == PositiveMass(profiles[i], cols)
  {
    var size := |profiles|;
    m := new real[size, size]((_, _) => 0.0);
    for i := 0 to size
      invariant forall a, b :: 0 <= a < i && 0 <= b < size ==> m[a, b] == Overlap(profiles[a], profiles[b], cols)
      invariant forall a, b :: i <= a < size && 0 <= b < size ==> m[a, b] == 0.0
    {
      for j := 0 to size
        invariant forall a, b :: 0 <= a < i && 0 <= b < size ==> m[a, b] == Overlap(profiles[a], profiles[b], cols)
        invariant forall b :: 0 <= b < j ==> m[i, b] == Overlap(profiles[i], profiles[b], cols)
        invariant forall b :: j <= b < size ==> m[i, b] == 0.0
        invariant forall a, b :: i < a < size && 0 <= b < size ==> m[a, b] == 0.0
      {
        for k := 0 to |cols|
          invariant forall a, b :: 0 <= a < i && 0 <= b < size ==> m[a, b] == Overlap(profiles[a], profiles[b], cols)
          invariant forall b :: 0 <= b < j ==> m[i, b] == Overlap(profiles[i], profiles[b], cols)
          invariant m[i, j] == Overlap(profiles[i], profiles[j], cols[..k])
          invariant forall b :: j < b < size ==> m[i, b] == 0.0
          invariant forall a, b :: i < a < size && 0 <= b < size ==> m[a, b] == 0.0
        {
          var sourceValue := Value(profiles[i], cols[k]);
          var targetValue := Value(profiles[j], cols[k]);
          if sourceValue > 0.0 && targetValue > 0.0 {
            m[i, j] := m[i, j] + MinReal(sourceValue, targetValue);
          }
          assert cols[..k + 1][..k] == cols[..k];
        }
        assert cols[..|cols|] == cols;
      }
    }
    forall i, j | 0 <= i < size && 0 <= j < size
      ensures m[i, j] == m[j, i] && 0.0 <= m[i, j] <= m[i, i] && m[i, i] == PositiveMass(profiles[i], cols)
    {
      OverlapSymmetric(profiles[i], profiles[j], cols);
      OverlapNonNegative(profiles[i], profiles[j], cols);
      OverlapBounded(profiles[i], profiles[j], cols);
      OverlapSelf(profiles[i], cols);
    }
  }
}
