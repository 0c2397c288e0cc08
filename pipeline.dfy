/**
 * The body of the `d3.csv(...).then` callback (app.js lines 32-72): from the
 * loaded rows to the selection, labels, profiles and matrix handed to the
 * drawing code.
 */
module Pipeline {
  import opened Wrappers
  import opened Rows
  import opened Selection
  import opened Labels
  import opened Aggregation
  import opened Similarity

  /** What the callback derives before drawing. */
  datatype Reduction = Reduction(selection: seq<Option<string>>, filtered: seq<Record>,
                                 labels: seq<string>, columns: seq<string>, profiles: seq<Profile>)

  /**
   * Runs the reduction on the loaded rows. With no rows, `Object.keys(filteredData[0])`
   * throws after the labels were built: `ok` is false, nothing is aggregated
   * and the matrix is empty.
   */
  method OnLoad(data: seq<Record>, parse: string -> Option<real>)
    returns (ok: bool, r: Reduction, matrix: array2<real>)
    requires forall k :: 0 <= k < |data| ==> WellFormed(data[k])
    ensures fresh(matrix)
    ensures ok <==> data != []
    ensures r.selection == Select(data)
    ensures r.filtered == FilterRows(data, r.selection)
    ensures r.labels == DatasetLabels(r.selection, r.filtered)
    ensures |r.filtered| >= |r.selection|
    ensures !ok ==> r.columns == [] && r.profiles == [] && matrix.Length0 == 0 && matrix.Length1 == 0
    ensures ok ==> r.columns == PrefixedKeys(data[0].keys) && NoDup(r.columns)
    ensures ok ==> |r.profiles| == |r.selection| &&
                   forall i :: 0 <= i < |r.selection| ==>
                     r.profiles[i].dataset == r.selection[i] &&
                     r.profiles[i].sums.Keys == SetOf(r.columns) &&
                     forall c :: c in r.profiles[i].sums ==> r.profiles[i].sums[c] == MatchingSum(data, r.selection[i], c, parse)
    ensures ok ==> matrix.Length0 == |r.selection| && matrix.Length1 == |r.selection| &&
                   forall i, j :: 0 <= i < |r.selection| && 0 <= j < |r.selection| ==>
                     matrix[i, j] == Overlap(r.profiles[i], r.profiles[j], r.columns)
  {
    var selection := Select(data);
    var filtered := FilterRows(data, selection);
    var labels := DatasetLabels(selection, filtered);
    FilterCoversSelection(data);
    ColumnsFromFirstRow(data);
    match TaxonColumns(filtered)
    case None =>
      ok := false;
      r := Reduction(selection, filtered, labels, [], []);
      matrix := new real[0, 0];
    case Some(columns) =>
      ok := true;
      PrefixedKeysNoDup(data[0].keys);
      var profiles := Aggregate(selection, filtered, columns, parse);
      forall i, c | 0 <= i < |selection| && c in profiles[i].sums
        ensures profiles[i].sums[c] == MatchingSum(data, selection[i], c, parse)
      {
        AggregationExact(data, selection[i], c, parse);
      }
      r := Reduction(selection, filtered, labels, columns, profiles);
      matrix := BuildMatrix(profiles, columns);
  }

  lemma SelectOfThree(a1: Record, a2: Record, b: Record)
    requires Name(a1) == Name(a2) && Name(a1) != Name(b)
    ensures Select([a1, a2, b]) == [Name(a1), Name(b)]
  {
    var names := Names([a1, a2, b]);
    assert names == [Name(a1), Name(a1), Name(b)];
    var p2 := names[..2];
    assert p2 == [Name(a1), Name(a1)];
    var p1 := p2[..1];
    assert p1 == [Name(a1)];
    assert p1[..0] == [];
    assert Distinct(p1) == [Name(a1)];
    assert Distinct(p2) == [Name(a1)];
  }

  /**
   * The tooltip of group `i` is read from `filteredData[i]`, the i-th filtered
   * row, not from dataset i's first row. With rows A, A, B, hovering B's group
   * (index 1) shows the second row of A, while B's own first row is `b`.
   */
  lemma TooltipRowQuirk(a1: Record, a2: Record, b: Record)
    requires Name(a1) == Name(a2) && Name(a1) != Name(b)
    ensures FilterRows([a1, a2, b], Select([a1, a2, b])) == [a1, a2, b]
    ensures Select([a1, a2, b])[1] == Name(b)
    ensures FindRow([a1, a2, b], Select([a1, a2, b])[1]) == Some(b)
  {
    var data := [a1, a2, b];
    SelectOfThree(a1, a2, b);
    var sel := Select(data);
    assert data[1..] == [a2, b] && data[1..][1..] == [b];
    assert FilterRows(data[1..][1..], sel) == [b];
    assert FilterRows(data[1..], sel) == [a2, b];
    assert FilterRows(data, sel) == [a1, a2, b];
  }
}
