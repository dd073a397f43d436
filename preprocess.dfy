/**
 * `preprocess` (rad.py:187-233): optionally move columns into the index,
 * optionally drop columns, encode every object or bool column as float
 * category codes while recording each column's category mapping, and keep
 * only numeric columns. A missing `index` or `drop` column is caught and
 * answered with an empty table and an empty mapping.
 */
module Preprocess {
  import opened Wrappers
  import opened Frames
  import opened Encoding

  /** Column name to (category to code). */
  type Mappings = map<string, map<Cell, int>>

  /** A column after encoding: an object or bool column becomes the float
      codes of its cells; any other column is left as it is. */
  function EncodeColumn(c: Column): Column
  {
    if IsCategorical(c.kind) then Column(c.name, Numeric, Codes(Categories(c.cells), c.cells)) else c
  }

  /** Every column after encoding, in order. */
  function EncodedColumns(cols: seq<Column>): (r: seq<Column>)
    ensures |r| == |cols|
    ensures forall j :: 0 <= j < |cols| ==> r[j] == EncodeColumn(cols[j])
  {
    if cols == [] then [] else EncodedColumns(cols[..|cols| - 1]) + [EncodeColumn(cols[|cols| - 1])]
  }

  /** The mappings recorded for the object and bool columns: one under the
      name of each such column, mapping its categories to their codes. */
  function ColumnMappings(cols: seq<Column>): (m: Mappings)
    ensures forall c :: c in cols && IsCategorical(c.kind) ==> c.name in m
    ensures forall n :: n in m ==> exists c :: c in cols && c.name == n && IsCategorical(c.kind)
                                              && m[n] == CategoryMap(Categories(c.cells))
  {
    if cols == [] then map[]
    else
      var c := cols[|cols| - 1];
      var m := ColumnMappings(cols[..|cols| - 1]);
      if IsCategorical(c.kind) then m[c.name := CategoryMap(Categories(c.cells))] else m
  }

  /** The table after `set_index(index)` and `drop(drop, axis=1)`, or None
      when either names a column that is not there (the KeyError). */
  function Selected(f: Frame, index: Option<seq<string>>, drop: Option<seq<string>>): (r: Option<Frame>)
    ensures r.Some? ==> forall c :: c in r.value.columns ==> c in f.columns
  {
    var indexed := if index.Some? then SetIndex(f, index.value) else Some(f);
    if indexed.None? then None
    else if drop.Some? then DropColumns(indexed.value, drop.value)
    else indexed
  }

  /** What `preprocess(f, index, drop)` returns. */
  function PreprocessSpec(f: Frame, index: Option<seq<string>>, drop: Option<seq<string>>): (r: (Frame, Mappings))
    ensures forall c :: c in r.0.columns ==> c.kind == Numeric
    ensures forall n :: n in r.1 ==> exists c :: c in f.columns && c.name == n && IsCategorical(c.kind)
  {
    match Selected(f, index, drop)
    case None => (EmptyFrame, map[])
    case Some(g) => (Frame(g.height, g.index, KeepNumeric(EncodedColumns(g.columns))), ColumnMappings(g.columns))
  }

  /** The encoding loop of `preprocess` (rad.py:215-224): each object or
      bool column is overwritten by its codes and its mapping recorded. */
  method EncodeCategoricals(selected: seq<Column>) returns (cols: seq<Column>, mappings: Mappings)
    ensures cols == EncodedColumns(selected)
    ensures mappings == ColumnMappings(selected)
  {
    cols := selected;
    mappings := map[];
    for j := 0 to |cols|
      invariant |cols| == |selected|
      invariant forall t :: 0 <= t < j ==> cols[t] == EncodeColumn(selected[t])
      invariant forall t :: j <= t < |cols| ==> cols[t] == selected[t]
      invariant mappings == ColumnMappings(selected[..j])
    {
      assert selected[..j + 1][..j] == selected[..j];
      var column := cols[j];
      if IsCategorical(column.kind) {
        var cats := Categories(column.cells);
        cols := cols[j := Column(column.name, Numeric, Codes(cats, column.cells))];
        mappings := mappings[column.name := CategoryMap(cats)];
      }
    }
    assert selected[..|selected|] == selected;
  }

  /** `preprocess` (rad.py:203-233). */
  method Preprocess(frame: Frame, index: Option<seq<string>>, drop: Option<seq<string>>)
    returns (df: Frame, mappings: Mappings)
    ensures (df, mappings) == PreprocessSpec(frame, index, drop)
  {
    df := frame;
    if index.Some? {
      var indexed := SetIndex(df, index.value);
      if indexed.None? {
        return EmptyFrame, map[];
      }
      df := indexed.value;
    }
    if drop.Some? {
      var dropped := DropColumns(df, drop.value);
      if dropped.None? {
        return EmptyFrame, map[];
      }
      df := dropped.value;
    }
    assert Selected(frame, index, drop) == Some(df);
    var cols;
    cols, mappings := EncodeCategoricals(df.columns);
    df := Frame(df.height, df.index, KeepNumeric(cols));
  }
}
