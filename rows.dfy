/**
 * Input rows as `d3.csv` yields them, and the JavaScript coercions the
 * pipeline applies when it reads a cell.
 */
module Rows {
  import opened Wrappers

  /**
   * One CSV row: the column names in header order (what `Object.keys(row)`
   * returns) and the text of every cell.
   */
  datatype Record = Record(keys: seq<string>, cells: map<string, string>)

  /** A property read `row[key]`; `None` is `undefined`. */
  function Field(r: Record, key: string): Option<string>
  {
    if key in r.cells then Some(r.cells[key]) else None
  }

  /** `row.dataset_name`. Missing columns read as `undefined`, which is a value of its own. */
  function Name(r: Record): Option<string>
  {
    Field(r, "dataset_name")
  }

  /** JavaScript truthiness of a string-or-undefined value: `undefined` and `""` are falsy. */
  predicate Truthy(v: Option<string>)
  {
    v.Some? && v.value != ""
  }

  /** `v || fallback` for a value that is a string or `undefined`. */
  function OrElse(v: Option<string>, fallback: string): (s: string)
    ensures Truthy(v) ==> s == v.value
    ensures !Truthy(v) ==> s == fallback
  {
    if Truthy(v) then v.value else fallback
  }

  /** What a template literal prints for a string-or-undefined value. */
  function Show(v: Option<string>): string
  {
    match v
    case Some(s) => s
    case None => "undefined"
  }

  /**
   * `parseFloat(v) || 0`. `parse` stands for `parseFloat` on text, `None`
   * meaning NaN; `parseFloat(undefined)` is NaN too. NaN and 0 are falsy,
   * so both become 0.
   */
  function NumberOrZero(parse: string -> Option<real>, v: Option<string>): (x: real)
    ensures (v.Some? && parse(v.value).Some?) ==> x == parse(v.value).value
    ensures (v.None? || parse(v.value).None?) ==> x == 0.0
  {
    match v
    case None => 0.0
    case Some(s) =>
      match parse(s)
      case None => 0.0
      case Some(n) => n
  }
}
