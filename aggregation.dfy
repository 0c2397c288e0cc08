/**
 * Per-dataset abundance profiles (app.js lines 54-62): the taxon columns of
 * the first filtered row and, for each selected dataset and each column, the
 * sum of the parsed cell values over that dataset's rows.
 */
module Aggregation {
  import opened Wrappers
  import opened Rows
  import opened Selection

  /** Taxon columns are the keys that start with this marker. */
  const TaxonPrefix: string := "k__"

  predicate StartsWith(s: string, prefix: string)
  {
    |prefix| <= |s| && s[..|prefix|] == prefix
  }

  /** `keys.filter(col => col.startsWith("k__"))` */
  function PrefixedKeys(keys: seq<string>): (cols: seq<string>)
    ensures |cols| <= |keys|
    ensures forall c :: c in cols <==> c in keys && StartsWith(c, TaxonPrefix)
  {
    if keys == [] then []
    else (if StartsWith(keys[0], TaxonPrefix) then [keys[0]] else []) + PrefixedKeys(keys[1..])
  }

  /** `Object.keys(row)` lists each of the row's own properties exactly once. */
  predicate WellFormed(r: Record)
  {
    NoDup(r.keys) && SetOf(r.keys) == r.cells.Keys
  }

  /** Filtering distinct keys gives distinct columns, so no column is summed twice. */
  lemma {:induction false} PrefixedKeysNoDup(keys: seq<string>)
    requires NoDup(keys)
    ensures NoDup(PrefixedKeys(keys))
  {
    if keys != [] {
      var rest := PrefixedKeys(keys[1..]);
      PrefixedKeysNoDup(keys[1..]);
      assert keys[0] !in keys[1..];
      assert keys[0] !in rest;
      if StartsWith(keys[0], TaxonPrefix) {
        var r := [keys[0]] + rest;
        forall i, j | 0 <= i < j < |r|
          ensures r[i] != r[j]
        {
          if i > 0 {
            assert r[i] == rest[i - 1] && r[j] == rest[j - 1];
          } else {
            assert r[j] in rest;
          }
        }
      }
    }
  }

  /**
   * `Object.keys(filteredData[0]).filter(…)`. With no filtered rows,
   * `filteredData[0]` is undefined and `Object.keys` throws: `None`.
   */
  function TaxonColumns(filtered: seq<Record>): (cols: Option<seq<string>>)
    ensures cols.None? <==> filtered == []
    ensures cols.Some? ==> forall c :: c in cols.value <==> c in filtered[0].keys && StartsWith(c, TaxonPrefix)
  {
    if filtered == [] then None else Some(PrefixedKeys(filtered[0].keys))
  }

  /** `filteredData.filter(d => d.dataset_name === dataset)` */
  function DatasetRows(rows: seq<Record>, dataset: Option<string>): (r: seq<Record>)
    ensures |r| <= |rows|
    ensures forall x :: x in r <==> x in rows && Name(x) == dataset
  {
    if rows == [] then []
    else (if Name(rows[0]) == dataset then [rows[0]] else []) + DatasetRows(rows[1..], dataset)
  }

  /** `d3.sum(rows, row => parseFloat(row[col]) || 0)` */
  function ColumnSum(rows: seq<Record>, col: string, parse: string -> Option<real>): real
  {
    if rows == [] then 0.0
    else NumberOrZero(parse, Field(rows[0], col)) + ColumnSum(rows[1..], col, parse)
  }

  /**
   * The intended total, stated over all of the data: every row of `dataset`
   * contributes its parsed value (0 if unparseable or missing), every other row 0.
   */
  function MatchingSum(data: seq<Record>, dataset: Option<string>, col: string, parse: string -> Option<real>): real
  {
    if data == [] then 0.0
    else (if Name(data[0]) == dataset then NumberOrZero(parse, Field(data[0], col)) else 0.0) +
         MatchingSum(data[1..], dataset, col, parse)
  }

  /** The `aggregated` object of one dataset: `{ dataset_name: dataset, [col]: sum, … }`. */
  datatype Profile = Profile(dataset: Option<string>, sums: map<string, real>)

  /** `p` holds, for each of `columns` and no other key, the column sum over the rows of `dataset`. */
  ghost predicate IsProfileOf(p: Profile, rows: seq<Record>, dataset: Option<string>,
                              columns: seq<string>, parse: string -> Option<real>)
  {
    p.dataset == dataset &&
    p.sums.Keys == SetOf(columns) &&
    forall c :: c in p.sums ==> p.sums[c] == ColumnSum(DatasetRows(rows, dataset), c, parse)
  }

  /** The body of the `uniqueDatasets.map` callback (lines 56-61). */
  method AggregateDataset(rows: seq<Record>, dataset: Option<string>, columns: seq<string>,
                          parse: string -> Option<real>) returns (p: Profile)
    ensures p.dataset == dataset
    ensures p.sums.Keys == SetOf(columns)
    ensures forall c :: c in p.sums ==> p.sums[c] == ColumnSum(DatasetRows(rows, dataset), c, parse)
  {
    var datasetRows := DatasetRows(rows, dataset);
    p := Profile(dataset, map[]);
    for k := 0 to |columns|
      invariant p.dataset == dataset
      invariant p.sums.Keys == SetOf(columns[..k])
      invariant forall c :: c in p.sums ==> p.sums[c] == ColumnSum(datasetRows, c, parse)
    {
      var col := columns[k];
      p := p.(sums := p.sums[col := ColumnSum(datasetRows, col, parse)]);
      assert SetOf(columns[..k + 1]) == SetOf(columns[..k]) + {col} by {
        assert columns[..k + 1] == columns[..k] + [col];
      }
    }
    assert columns[..|columns|] == columns;
  }

  /** `uniqueDatasets.map(…)`: one profile per selected dataset, in selection order. */
  method Aggregate(sel: seq<Option<string>>, rows: seq<Record>, columns: seq<string>,
                   parse: string -> Option<real>) returns (profiles: seq<Profile>)
    ensures |profiles| == |sel|
    ensures forall i :: 0 <= i < |sel| ==> IsProfileOf(profiles[i], rows, sel[i], columns, parse)
  {
    profiles := [];
    for i := 0 to |sel|
      invariant |profiles| == i
      invariant forall j :: 0 <= j < i ==> IsProfileOf(profiles[j], rows, sel[j], columns, parse)
    {
      var p := AggregateDataset(rows, sel[i], columns, parse);
      profiles := profiles + [p];
    }
  }

  // ---------------------------------------------------------------------------
  // Properties

  /** Restricting to one dataset and summing is the sum of that dataset's contributions. */
  lemma {:induction false} DatasetSumIsMatchingSum(rows: seq<Record>, dataset: Option<string>,
                                                   col: string, parse: string -> Option<real>)
    ensures ColumnSum(DatasetRows(rows, dataset), col, parse) == MatchingSum(rows, dataset, col, parse)
  {
    if rows != [] {
      DatasetSumIsMatchingSum(rows[1..], dataset, col, parse);
      var rest := DatasetRows(rows[1..], dataset);
      if Name(rows[0]) == dataset {
        assert DatasetRows(rows, dataset) == [rows[0]] + rest;
        assert ([rows[0]] + rest)[1..] == rest;
      } else {
        assert DatasetRows(rows, dataset) == rest;
      }
    }
  }

  /** Rows of other datasets, which the filter drops, contribute nothing. */
  lemma {:induction false} FilterKeepsMatchingSum(data: seq<Record>, sel: seq<Option<string>>,
                                                  dataset: Option<string>, col: string,
                                                  parse: string -> Option<real>)
    requires dataset in sel
    ensures MatchingSum(FilterRows(data, sel), dataset, col, parse) == MatchingSum(data, dataset, col, parse)
  {
    if data != [] {
      FilterKeepsMatchingSum(data[1..], sel, dataset, col, parse);
      var rest := FilterRows(data[1..], sel);
      if Name(data[0]) in sel {
        assert FilterRows(data, sel) == [data[0]] + rest;
        assert ([data[0]] + rest)[1..] == rest;
      } else {
        assert FilterRows(data, sel) == rest;
      }
    }
  }

  /**
   * Aggregation is exact: a selected dataset's value for a column is the sum
   * of the parsed values over exactly that dataset's rows of the whole
   * input, with unparseable or missing cells counting as 0.
   */
  lemma AggregationExact(data: seq<Record>, dataset: Option<string>, col: string,
                         parse: string -> Option<real>)
    requires dataset in Select(data)
    ensures ColumnSum(DatasetRows(FilterRows(data, Select(data)), dataset), col, parse) ==
            MatchingSum(data, dataset, col, parse)
  {
    DatasetSumIsMatchingSum(FilterRows(data, Select(data)), dataset, col, parse);
    FilterKeepsMatchingSum(data, Select(data), dataset, col, parse);
  }

  /** Sums are non-negative when no cell parses to a negative number (parsing itself does not ensure it). */
  lemma {:induction false} ColumnSumNonNegative(rows: seq<Record>, col: string, parse: string -> Option<real>)
    requires forall s :: parse(s).Some? ==> parse(s).value >= 0.0
    ensures ColumnSum(rows, col, parse) >= 0.0
  {
    if rows != [] {
      ColumnSumNonNegative(rows[1..], col, parse);
    }
  }

  /** The taxon columns come from the first row of the input itself, and exist whenever there is input. */
  lemma ColumnsFromFirstRow(data: seq<Record>)
    ensures TaxonColumns(FilterRows(data, Select(data))).None? <==> data == []
    ensures data != [] ==> TaxonColumns(FilterRows(data, Select(data))) == Some(PrefixedKeys(data[0].keys))
  {
    if data != [] {
      FilterKeepsFirstRow(data);
    }
  }
}
