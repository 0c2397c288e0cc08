/**
 * Dataset labels (app.js lines 44-50) and the `" | "` split that breaks a
 * label into lines (app.js line 157).
 */
module Labels {
  import opened Wrappers
  import opened Rows
  import opened Selection

  const Delimiter: string := " | "
  const UnknownDataset: string := "Unknown Dataset"
  const UnknownSample: string := "Unknown Sample"
  const UnknownCountry: string := "Unknown Country"

  /** `a + sep + b + sep + c + …`; the inverse of `Split`. */
  function Join(parts: seq<string>, sep: string): string
  {
    if parts == [] then ""
    else if |parts| == 1 then parts[0]
    else parts[0] + sep + Join(parts[1..], sep)
  }

  /** The label template of the row found for a dataset (line 47). */
  function LabelText(sample: Record): string
  {
    Join([OrElse(Name(sample), UnknownDataset),
          OrElse(Field(sample, "sampleID"), UnknownSample),
          OrElse(Field(sample, "country"), UnknownCountry)], Delimiter)
  }

  /** The label of one selected dataset, from its first filtered row or, if none, the fallback of line 49. */
  function Label(dataset: Option<string>, rows: seq<Record>): string
  {
    match FindRow(rows, dataset)
    case Some(sample) => LabelText(sample)
    case None => Join([Show(dataset), UnknownSample, UnknownCountry], Delimiter)
  }

  /** `uniqueDatasets.map(dataset => …)`: one label per selected dataset, in selection order. */
  function DatasetLabels(sel: seq<Option<string>>, rows: seq<Record>): (ls: seq<string>)
    ensures |ls| == |sel|
    ensures forall i :: 0 <= i < |sel| ==> ls[i] == Label(sel[i], rows)
  {
    seq(|sel|, i requires 0 <= i < |sel| => Label(sel[i], rows))
  }

  // ---------------------------------------------------------------------------
  // String.prototype.split with a non-empty separator

  /** `sep` occurs in `s` at position `k`. */
  predicate OccursAt(s: string, sep: string, k: nat)
  {
    k + |sep| <= |s| && s[k..k + |sep|] == sep
  }

  predicate Contains(s: string, sep: string)
  {
    exists k: nat | k <= |s| :: OccursAt(s, sep, k)
  }

  /** `s.indexOf(sep, from)`: the first occurrence at or after `from`. */
  function IndexOf(s: string, sep: string, from: nat): (r: Option<nat>)
    requires |sep| > 0
    ensures r.Some? ==> from <= r.value && OccursAt(s, sep, r.value)
    ensures r.Some? ==> forall k: nat :: from <= k < r.value ==> !OccursAt(s, sep, k)
    ensures r.None? ==> forall k: nat :: from <= k ==> !OccursAt(s, sep, k)
    decreases |s| - from
  {
    if from + |sep| > |s| then None
    else if s[from..from + |sep|] == sep then Some(from)
    else IndexOf(s, sep, from + 1)
  }

  /** `s.split(sep)`: the pieces between successive first occurrences of `sep`, left to right. */
  function Split(s: string, sep: string): (parts: seq<string>)
    requires |sep| > 0
    ensures |parts| >= 1
    ensures Join(parts, sep) == s
    ensures forall i :: 0 <= i < |parts| ==> !Contains(parts[i], sep)
    ensures forall i :: 0 <= i < |parts| - 1 ==> IndexOf(Join(parts[i..], sep), sep, 0) == Some(|parts[i]|)
    decreases |s|
  {
    match IndexOf(s, sep, 0)
    case None => [s]
    case Some(k) =>
      var head := s[..k];
      var rest := Split(s[k + |sep|..], sep);
      PieceBeforeFirst(s, sep, k);
      assert s == head + sep + s[k + |sep|..];
      var parts := [head] + rest;
      assert parts[1..] == rest;
      assert parts[0..] == parts;
      forall i | 1 <= i < |parts| - 1
        ensures IndexOf(Join(parts[i..], sep), sep, 0) == Some(|parts[i]|)
      {
        assert parts[i..] == rest[i - 1..];
      }
      parts
  }

  lemma PieceBeforeFirst(s: string, sep: string, k: nat)
    requires |sep| > 0 && OccursAt(s, sep, k)
    requires forall j: nat :: j < k ==> !OccursAt(s, sep, j)
    ensures !Contains(s[..k], sep)
  {
    forall j: nat | OccursAt(s[..k], sep, j)
      ensures false
    {
      assert s[..k][j..j + |sep|] == s[j..j + |sep|];
      assert OccursAt(s, sep, j);
    }
  }

  /** No `|` anywhere in the text, so no `" | "` can begin, end or straddle inside it. */
  predicate NoBar(t: string)
  {
    forall i :: 0 <= i < |t| ==> t[i] != '|'
  }

  lemma NoDelimiter(t: string)
    requires NoBar(t)
    ensures forall k: nat :: !OccursAt(t, Delimiter, k)
  {
    forall k: nat
      ensures !OccursAt(t, Delimiter, k)
    {
      if k + 3 <= |t| {
        assert t[k..k + 3][1] == t[k + 1] != '|';
      }
    }
  }

  lemma SplitPlain(t: string)
    requires NoBar(t)
    ensures Split(t, Delimiter) == [t]
  {
    NoDelimiter(t);
  }

  /** A field without `|` followed by the delimiter splits off as exactly that field. */
  lemma SplitField(a: string, rest: string)
    requires NoBar(a)
    ensures Split(a + Delimiter + rest, Delimiter) == [a] + Split(rest, Delimiter)
  {
    var s := a + Delimiter + rest;
    assert s[|a|..|a| + 3] == Delimiter;
    assert OccursAt(s, Delimiter, |a|);
    forall k: nat | k < |a|
      ensures !OccursAt(s, Delimiter, k)
    {
      if k + 1 < |a| {
        assert s[k + 1] == a[k + 1];
      } else {
        assert s[k + 1] == Delimiter[0];
      }
      assert s[k..k + 3][1] == s[k + 1] != '|';
    }
    var r := IndexOf(s, Delimiter, 0);
    assert r == Some(|a|);
    assert s[..|a|] == a;
    assert s[|a| + 3..] == rest;
  }

  /** Three fields without `|` joined by the delimiter split back into those three fields. */
  lemma SplitJoin3(a: string, b: string, c: string)
    requires NoBar(a) && NoBar(b) && NoBar(c)
    ensures Split(Join([a, b, c], Delimiter), Delimiter) == [a, b, c]
  {
    assert Join([a, b, c], Delimiter) == a + Delimiter + (b + Delimiter + c) by {
      assert [a, b, c][1..] == [b, c];
      assert [b, c][1..] == [c];
      assert Join([c], Delimiter) == c;
      assert Join([b, c], Delimiter) == b + Delimiter + c;
    }
    SplitField(a, b + Delimiter + c);
    SplitField(b, c);
    SplitPlain(c);
  }

  /**
   * Not having `" | "` inside each field is not enough: a field that ends in
   * `" |"` makes the delimiter after it start one character early.
   */
  lemma SplitStraddle()
    ensures Split(Join(["x |", "y", "z"], Delimiter), Delimiter) != ["x |", "y", "z"]
  {
    var s := Join(["x |", "y", "z"], Delimiter);
    assert s == "x | | y | z" by {
      assert ["x |", "y", "z"][1..] == ["y", "z"];
      assert ["y", "z"][1..] == ["z"];
    }
    assert s[0..3] != Delimiter by { assert s[0..3][0] == 'x'; }
    assert OccursAt(s, Delimiter, 1);
    assert IndexOf(s, Delimiter, 0) == Some(1);
    assert Split(s, Delimiter)[0] == s[..1];
  }

  // ---------------------------------------------------------------------------
  // Labels of the selected datasets

  /** The three label fields of a row contain no `|`. */
  predicate PlainFields(sample: Record)
  {
    NoBar(OrElse(Name(sample), UnknownDataset)) &&
    NoBar(OrElse(Field(sample, "sampleID"), UnknownSample)) &&
    NoBar(OrElse(Field(sample, "country"), UnknownCountry))
  }

  /**
   * Each selected dataset's label comes from its first row in the data (the
   * fallback of line 49 is never taken), and that row's name is the dataset.
   */
  lemma LabelOfSelected(data: seq<Record>, i: nat)
    requires i < |Select(data)|
    ensures FindRow(data, Select(data)[i]).Some?
    ensures Name(FindRow(data, Select(data)[i]).value) == Select(data)[i]
    ensures DatasetLabels(Select(data), FilterRows(data, Select(data)))[i] ==
            LabelText(FindRow(data, Select(data)[i]).value)
  {
    var sel := Select(data);
    SelectedIsFound(data, sel[i]);
    FindInFiltered(data, sel, sel[i]);
  }

  /**
   * The label splits back into its three segments; each is the row's value
   * for that field, or its own placeholder when the value is missing or empty.
   */
  lemma LabelSegments(sample: Record)
    requires PlainFields(sample)
    ensures Split(LabelText(sample), Delimiter) ==
            [OrElse(Name(sample), UnknownDataset),
             OrElse(Field(sample, "sampleID"), UnknownSample),
             OrElse(Field(sample, "country"), UnknownCountry)]
  {
    SplitJoin3(OrElse(Name(sample), UnknownDataset),
               OrElse(Field(sample, "sampleID"), UnknownSample),
               OrElse(Field(sample, "country"), UnknownCountry));
  }
}
