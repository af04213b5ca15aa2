/**
 * The part of a pandas DataFrame the download logic uses: a header of column
 * names and rows of string cells, read by column name.
 */
module Frames {
  import opened Wrappers

  datatype Frame = Frame(header: seq<string>, rows: seq<seq<string>>)

  /** Every row has one cell per column, as a parsed DataFrame has. */
  predicate Rectangular(f: Frame) {
    forall k :: 0 <= k < |f.rows| ==> |f.rows[k]| == |f.header|
  }

  type Table = f: Frame | Rectangular(f) witness Frame([], [])

  /** Position of the first column called `name`, if any. */
  function ColumnIndex(header: seq<string>, name: string): (r: Option<nat>)
    ensures r.None? <==> name !in header
    ensures r.Some? ==> r.value < |header| && header[r.value] == name && name !in header[..r.value]
  {
    if |header| == 0 then None
    else if header[0] == name then Some(0)
    else match ColumnIndex(header[1..], name)
      case None => None
      case Some(i) =>
        assert header[..i + 1] == [header[0]] + header[1..][..i];
        Some(i + 1)
  }

  /** `t[name]`: the cells of column `name` in row order, or None (a KeyError). */
  function Column(t: Table, name: string): (r: Option<seq<string>>)
    ensures r.None? <==> name !in t.header
    ensures r.Some? ==> |r.value| == |t.rows|
    ensures r.Some? ==> (exists c :: 0 <= c < |t.header| && t.header[c] == name &&
                                     forall k :: 0 <= k < |t.rows| ==> r.value[k] == t.rows[k][c])
  {
    match ColumnIndex(t.header, name)
    case None => None
    case Some(c) => Some(seq(|t.rows|, k requires 0 <= k < |t.rows| => t.rows[k][c]))
  }
}
