/**
 * Dataset selection and row filtering (app.js lines 36 and 40):
 * the first ten distinct `dataset_name` values in order of first
 * appearance, and the rows that belong to them.
 */
module Selection {
  import opened Wrappers
  import opened Rows

  /** How many datasets the chord diagram shows (`.slice(0, 10)`). */
  const Limit: nat := 10

  predicate NoDup<T(==)>(s: seq<T>)
  {
    forall i, j :: 0 <= i < j < |s| ==> s[i] != s[j]
  }

  function SetOf<T>(s: seq<T>): set<T>
  {
    set x | x in s
  }

  function Min(a: nat, b: nat): nat
  {
    if a <= b then a else b
  }

  /** `data.map(d => d.dataset_name)` */
  function Names(data: seq<Record>): (ns: seq<Option<string>>)
    ensures |ns| == |data|
    ensures forall k :: 0 <= k < |data| ==> ns[k] == Name(data[k])
  {
    if data == [] then [] else [Name(data[0])] + Names(data[1..])
  }

  /** Position of the first occurrence of `x` in `xs`. */
  function FirstIndex<T(==)>(xs: seq<T>, x: T): (k: nat)
    requires x in xs
    ensures k < |xs| && xs[k] == x
    ensures forall j :: 0 <= j < k ==> xs[j] != x
  {
    if xs[0] == x then 0 else 1 + FirstIndex(xs[1..], x)
  }

  /**
   * `Array.from(new Set(xs))`: a `Set` keeps its elements in insertion order,
   * so this is every value of `xs` once, where it first appears.
   */
  function Distinct<T(==)>(xs: seq<T>): (r: seq<T>)
    ensures NoDup(r)
    ensures forall i :: 0 <= i < |r| ==> r[i] in xs
    ensures forall i :: 0 <= i < |xs| ==> xs[i] in r
    decreases |xs|
  {
    if xs == [] then []
    else
      var d := Distinct(xs[..|xs| - 1]);
      var x := xs[|xs| - 1];
      if x in d then d else d + [x]
  }

  /** `Array.from(new Set(data.map(d => d.dataset_name))).slice(0, 10)` */
  function Select(data: seq<Record>): (sel: seq<Option<string>>)
    ensures |sel| == Min(Limit, |SetOf(Names(data))|)
    ensures NoDup(sel)
    ensures forall n :: n in sel ==> n in Names(data)
  {
    var d := Distinct(Names(data));
    NoDupCard(d);
    assert SetOf(d) == SetOf(Names(data));
    if |d| <= Limit then d else d[..Limit]
  }

  /** `data.filter(d => sel.includes(d.dataset_name))` */
  function FilterRows(data: seq<Record>, sel: seq<Option<string>>): (r: seq<Record>)
    ensures |r| <= |data|
    ensures forall x :: x in r <==> x in data && Name(x) in sel
  {
    if data == [] then []
    else (if Name(data[0]) in sel then [data[0]] else []) + FilterRows(data[1..], sel)
  }

  /** `rows.find(d => d.dataset_name === n)`: the first row of dataset `n`. */
  function FindRow(rows: seq<Record>, n: Option<string>): (r: Option<Record>)
    ensures r.None? <==> forall k :: 0 <= k < |rows| ==> Name(rows[k]) != n
    ensures r.Some? ==> exists k :: 0 <= k < |rows| && rows[k] == r.value && Name(r.value) == n &&
                                    forall j :: 0 <= j < k ==> Name(rows[j]) != n
  {
    if rows == [] then None
    else if Name(rows[0]) == n then Some(rows[0])
    else
      var r := FindRow(rows[1..], n);
      assert forall k :: 1 <= k < |rows| ==> rows[k] == rows[1..][k - 1];
      r
  }

  // ---------------------------------------------------------------------------
  // Cardinality helpers

  lemma {:induction false} NoDupCard<T>(s: seq<T>)
    requires NoDup(s)
    ensures |SetOf(s)| == |s|
  {
    if s != [] {
      NoDupCard(s[1..]);
      assert SetOf(s) == {s[0]} + SetOf(s[1..]);
    }
  }

  lemma {:induction false} SetOfCard<T>(s: seq<T>)
    ensures |SetOf(s)| <= |s|
  {
    if s != [] {
      SetOfCard(s[1..]);
      assert SetOf(s) == {s[0]} + SetOf(s[1..]);
    }
  }

  lemma SubsetCard<T>(a: set<T>, b: set<T>)
    requires a <= b
    ensures |a| <= |b|
  {
    assert b == a + (b - a);
  }

  // ---------------------------------------------------------------------------
  // Properties of the selection

  /** A first occurrence in a prefix is the first occurrence in the whole sequence. */
  lemma FirstIndexPrefix<T>(xs: seq<T>, m: nat, x: T)
    requires m <= |xs| && x in xs[..m]
    ensures x in xs && FirstIndex(xs[..m], x) == FirstIndex(xs, x)
  {
    var k := FirstIndex(xs[..m], x);
    assert xs[k] == x;
    var k' := FirstIndex(xs, x);
    assert k' <= k;
    assert forall j :: 0 <= j < k ==> xs[j] == xs[..m][j];
  }

  /** `Distinct` lists the values in strictly increasing order of first appearance. */
  lemma {:induction false} DistinctOrder<T>(xs: seq<T>)
    ensures forall i, j :: 0 <= i < j < |Distinct(xs)| ==>
              FirstIndex(xs, Distinct(xs)[i]) < FirstIndex(xs, Distinct(xs)[j])
    decreases |xs|
  {
    if xs != [] {
      var n := |xs|;
      var p := xs[..n - 1];
      DistinctOrder(p);
      var d := Distinct(p);
      forall v | v in d
        ensures FirstIndex(p, v) == FirstIndex(xs, v)
      {
        assert p == xs[..n - 1];
        FirstIndexPrefix(xs, n - 1, v);
      }
      var x := xs[n - 1];
      if x !in d {
        assert x !in p;
        assert FirstIndex(xs, x) == n - 1;
        forall i | 0 <= i < |d|
          ensures FirstIndex(xs, d[i]) < n - 1
        {
          assert FirstIndex(p, d[i]) < |p|;
        }
      }
    }
  }

  /** The selection is ordered by first appearance in the data. */
  lemma SelectOrder(data: seq<Record>)
    ensures forall i, j :: 0 <= i < j < |Select(data)| ==>
              FirstIndex(Names(data), Select(data)[i]) < FirstIndex(Names(data), Select(data)[j])
  {
    var d := Distinct(Names(data));
    DistinctOrder(Names(data));
    var sel := Select(data);
    assert forall i :: 0 <= i < |sel| ==> sel[i] == d[i];
  }

  /**
   * The selection is the FIRST names to appear: a name that first appears no
   * later than some selected name is itself selected.
   */
  lemma SelectPrefixClosed(data: seq<Record>, n: Option<string>, i: nat)
    requires n in Names(data) && i < |Select(data)|
    requires FirstIndex(Names(data), n) <= FirstIndex(Names(data), Select(data)[i])
    ensures n in Select(data)
  {
    var names := Names(data);
    var d := Distinct(names);
    DistinctOrder(names);
    var sel := Select(data);
    assert forall k :: 0 <= k < |sel| ==> sel[k] == d[k];
    assert n in d;
    var p :| 0 <= p < |d| && d[p] == n;
    assert p <= i;
    assert sel[p] == n;
  }

  /** Every name of the data is selected when there are at most ten of them. */
  lemma SelectAllWhenFew(data: seq<Record>, n: Option<string>)
    requires |SetOf(Names(data))| <= Limit && n in Names(data)
    ensures n in Select(data)
  {
    var d := Distinct(Names(data));
    NoDupCard(d);
    assert SetOf(d) == SetOf(Names(data));
  }

  /** The first row's dataset is always selected, so it is the first filtered row. */
  lemma FilterKeepsFirstRow(data: seq<Record>)
    requires data != []
    ensures FilterRows(data, Select(data)) != []
    ensures FilterRows(data, Select(data))[0] == data[0]
  {
    var names := Names(data);
    assert names[0] == Name(data[0]);
    assert FirstIndex(names, names[0]) == 0;
    assert |SetOf(names)| >= 1 by { assert names[0] in SetOf(names); }
    SelectPrefixClosed(data, names[0], 0);
  }

  // ---------------------------------------------------------------------------
  // Properties of the filter

  /** Filtering distributes over concatenation, so relative order is kept. */
  lemma {:induction false} FilterAppend(a: seq<Record>, b: seq<Record>, sel: seq<Option<string>>)
    ensures FilterRows(a + b, sel) == FilterRows(a, sel) + FilterRows(b, sel)
  {
    if a != [] {
      var head := if Name(a[0]) in sel then [a[0]] else [];
      assert (a + b)[0] == a[0];
      assert (a + b)[1..] == a[1..] + b;
      FilterAppend(a[1..], b, sel);
      calc {
        FilterRows(a + b, sel);
        head + FilterRows(a[1..] + b, sel);
        head + (FilterRows(a[1..], sel) + FilterRows(b, sel));
        (head + FilterRows(a[1..], sel)) + FilterRows(b, sel);
      }
    } else {
      assert a + b == b;
    }
  }

  /** A single row is kept exactly when its dataset is selected. */
  lemma FilterSingle(r: Record, sel: seq<Option<string>>)
    ensures FilterRows([r], sel) == if Name(r) in sel then [r] else []
  {
    assert [r][1..] == [];
  }

  /** Every selected dataset has at least one filtered row, so there are at least as many rows as datasets. */
  lemma FilterCoversSelection(data: seq<Record>)
    ensures |FilterRows(data, Select(data))| >= |Select(data)|
  {
    var sel := Select(data);
    var f := FilterRows(data, sel);
    forall n | n in SetOf(sel)
      ensures n in SetOf(Names(f))
    {
      var k :| 0 <= k < |data| && Names(data)[k] == n;
      assert data[k] in f;
      var j :| 0 <= j < |f| && f[j] == data[k];
      assert Names(f)[j] == n;
    }
    NoDupCard(sel);
    SubsetCard(SetOf(sel), SetOf(Names(f)));
    SetOfCard(Names(f));
  }

  /** Searching the filtered rows finds the same first row as searching all rows. */
  lemma {:induction false} FindInFiltered(data: seq<Record>, sel: seq<Option<string>>, n: Option<string>)
    requires n in sel
    ensures FindRow(FilterRows(data, sel), n) == FindRow(data, n)
  {
    if data != [] {
      var rest := FilterRows(data[1..], sel);
      if Name(data[0]) == n {
        assert FilterRows(data, sel) == [data[0]] + rest;
      } else {
        FindInFiltered(data[1..], sel, n);
        if Name(data[0]) in sel {
          assert FilterRows(data, sel) == [data[0]] + rest;
          assert ([data[0]] + rest)[1..] == rest;
        } else {
          assert FilterRows(data, sel) == rest;
        }
      }
    }
  }

  /** Every selected dataset has a first row. */
  lemma SelectedIsFound(data: seq<Record>, n: Option<string>)
    requires n in Select(data)
    ensures FindRow(data, n).Some?
  {
    var k :| 0 <= k < |data| && Names(data)[k] == n;
  }
}
