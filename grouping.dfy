/**
 * `groupby(on)` on the abstract table of `Frames`: the key columns `on`
 * names, each row's key, the distinct complete keys (a row with a missing
 * key cell belongs to no group, as with pandas's default `dropna=True`),
 * and the rows of each group, which `groupby` hands out as sub-tables.
 */
module Grouping {
  import opened Wrappers
  import opened Frames
  import opened Encoding

  /** Every key column has at least `n` cells, so rows `0..n-1` have keys. */
  predicate Reaches(kc: seq<Column>, n: nat)
  {
    forall i :: 0 <= i < |kc| ==> n <= |kc[i].cells|
  }

  /** The columns `on` names, in the order of `on`, or None when one of them
      is not a column (the KeyError of `groupby`). */
  function KeyColumns(f: Frame, on: seq<string>): (r: Option<seq<Column>>)
    ensures r.Some? <==> forall k :: k in on ==> HasColumn(f.columns, k)
    ensures r.Some? ==> |r.value| == |on|
    ensures r.Some? ==> forall i :: 0 <= i < |on| ==> r.value[i].name == on[i] && r.value[i] in f.columns
    ensures r.Some? && Rectangular(f) ==> Reaches(r.value, f.height)
  {
    if forall k :: k in on ==> HasColumn(f.columns, k) then
      Some(seq(|on|, i requires 0 <= i < |on| && HasColumn(f.columns, on[i]) => ColumnNamed(f.columns, on[i])))
    else None
  }

  /** The key of row `r`: its cells in the key columns. */
  function Key(kc: seq<Column>, r: nat): (k: seq<Cell>)
    requires Reaches(kc, r + 1)
    ensures |k| == |kc|
    ensures forall i :: 0 <= i < |kc| ==> k[i] == kc[i].cells[r]
  {
    seq(|kc|, i requires 0 <= i < |kc| => kc[i].cells[r])
  }

  /** A key without a missing cell; only such rows are grouped. */
  predicate Complete(key: seq<Cell>)
  {
    Missing !in key
  }

  /** The distinct complete keys of rows `0..n-1`, in order of first appearance. */
  function GroupKeys(kc: seq<Column>, n: nat): (keys: seq<seq<Cell>>)
    requires Reaches(kc, n)
    ensures Distinct(keys)
    ensures forall key :: key in keys ==> Complete(key)
    ensures forall r :: 0 <= r < n && Complete(Key(kc, r)) ==> Key(kc, r) in keys
    ensures forall key :: key in keys ==> exists r :: 0 <= r < n && Key(kc, r) == key
  {
    if n == 0 then []
    else
      var keys := GroupKeys(kc, n - 1);
      var k := Key(kc, n - 1);
      if Complete(k) && k !in keys then keys + [k] else keys
  }

  /** The rows among `0..n-1` whose key is `key`, in increasing order. */
  function RowsWith(kc: seq<Column>, key: seq<Cell>, n: nat): (rows: seq<nat>)
    requires Reaches(kc, n)
    ensures |rows| <= n
    ensures forall r: nat :: r in rows <==> r < n && Key(kc, r) == key
    ensures forall i :: 0 <= i < |rows| ==> rows[i] < n
    ensures forall i, j :: 0 <= i < j < |rows| ==> rows[i] < rows[j]
  {
    if n == 0 then []
    else
      var rows := RowsWith(kc, key, n - 1);
      assert forall i :: 0 <= i < |rows| ==> rows[i] in rows;
      rows + (if Key(kc, n - 1) == key then [n - 1] else [])
  }

  /** The cells of column `c` at `rows`. */
  function Pick(c: Column, rows: seq<nat>): (r: Column)
    requires forall i :: 0 <= i < |rows| ==> rows[i] < |c.cells|
    ensures r.name == c.name && r.kind == c.kind && |r.cells| == |rows|
    ensures forall i :: 0 <= i < |rows| ==> r.cells[i] == c.cells[rows[i]]
  {
    Column(c.name, c.kind, seq(|rows|, i requires 0 <= i < |rows| => c.cells[rows[i]]))
  }

  /** The sub-table of the given rows, every column kept: what `groupby`
      yields as a group's chunk. */
  function SelectRows(f: Frame, rows: seq<nat>): (g: Frame)
    requires Rectangular(f)
    requires forall i :: 0 <= i < |rows| ==> rows[i] < f.height
    ensures Rectangular(g) && g.height == |rows|
    ensures |g.index| == |f.index| && |g.columns| == |f.columns|
    ensures forall j :: 0 <= j < |f.columns| ==> g.columns[j] == Pick(f.columns[j], rows)
  {
    Frame(|rows|,
          seq(|f.index|, j requires 0 <= j < |f.index| => Pick(f.index[j], rows)),
          seq(|f.columns|, j requires 0 <= j < |f.columns| => Pick(f.columns[j], rows)))
  }
}
