/**
 * What `preprocess` promises (rad.py:215-233): numeric tables pass through
 * unchanged, every object or bool column gets exactly one mapping onto
 * `0..k-1`, only numeric columns remain, a missing key empties the result,
 * and the table stays rectangular.
 */
module PreprocessProperties {
  import opened Wrappers
  import opened Frames
  import opened Encoding
  import opened Preprocess

  /** The names of the columns, in order. */
  function Names(cols: seq<Column>): seq<string>
  {
    seq(|cols|, j requires 0 <= j < |cols| => cols[j].name)
  }

  /** How many columns are object or bool columns. */
  function CountCategorical(cols: seq<Column>): nat
  {
    if cols == [] then 0
    else CountCategorical(cols[..|cols| - 1]) + (if IsCategorical(cols[|cols| - 1].kind) then 1 else 0)
  }

  /** The columns that are numeric, object or bool, in order. */
  function Encodable(cols: seq<Column>): seq<Column>
  {
    if cols == [] then []
    else Encodable(cols[..|cols| - 1]) + (if cols[|cols| - 1].kind != OtherKind then [cols[|cols| - 1]] else [])
  }

  lemma {:induction false} KeepNumericOfNumeric(cols: seq<Column>)
    requires forall j :: 0 <= j < |cols| ==> cols[j].kind == Numeric
    ensures KeepNumeric(cols) == cols
  {
    if cols != [] {
      KeepNumericOfNumeric(cols[..|cols| - 1]);
      assert cols == cols[..|cols| - 1] + [cols[|cols| - 1]];
    }
  }

  lemma {:induction false} NoMappingsWithoutCategoricals(cols: seq<Column>)
    requires forall j :: 0 <= j < |cols| ==> !IsCategorical(cols[j].kind)
    ensures ColumnMappings(cols) == map[]
  {
    if cols != [] {
      NoMappingsWithoutCategoricals(cols[..|cols| - 1]);
    }
  }

  /** A table of numeric columns only comes back unchanged, with no mappings. */
  lemma NumericFrameUnchanged(f: Frame)
    requires forall j :: 0 <= j < |f.columns| ==> f.columns[j].kind == Numeric
    ensures PreprocessSpec(f, None, None) == (f, map[])
  {
    assert EncodedColumns(f.columns) == f.columns;
    KeepNumericOfNumeric(f.columns);
    NoMappingsWithoutCategoricals(f.columns);
  }

  /** `m`'s keys are the non-missing values of `cells`, and its values are
      exactly `0..k-1`, `k` being the number of categories. */
  ghost predicate CodeRange(m: map<Cell, int>, cells: seq<Cell>)
  {
    (forall c :: c in m <==> c in cells && c != Missing)
    && (forall v :: v in m.Values <==> 0 <= v < |Categories(cells)|)
  }

  lemma ColumnCategoryMap(cells: seq<Cell>)
    ensures CodeRange(CategoryMap(Categories(cells)), cells)
  {
    CategoryMapIsBijection(Categories(cells));
  }

  /** Every recorded mapping sends its column's categories one-to-one onto
      `0..k-1`, `k` being the number of categories. */
  lemma MappingIsCodeRange(cols: seq<Column>, n: string)
    requires n in ColumnMappings(cols)
    ensures exists col :: col in cols && col.name == n && IsCategorical(col.kind)
                       && CodeRange(ColumnMappings(cols)[n], col.cells)
  {
    var col :| col in cols && col.name == n && IsCategorical(col.kind)
             && ColumnMappings(cols)[n] == CategoryMap(Categories(col.cells));
    ColumnCategoryMap(col.cells);
  }

  /** With distinct column names, there is one mapping per object or bool column. */
  lemma {:induction false} MappingCount(cols: seq<Column>)
    requires Distinct(Names(cols))
    ensures |ColumnMappings(cols)| == CountCategorical(cols)
  {
    if cols != [] {
      var prefix := cols[..|cols| - 1];
      var last := cols[|cols| - 1];
      assert forall j :: 0 <= j < |prefix| ==> Names(prefix)[j] == Names(cols)[j];
      MappingCount(prefix);
      if IsCategorical(last.kind) {
        forall j | 0 <= j < |prefix|
          ensures prefix[j].name != last.name
        {
          assert Names(cols)[j] != Names(cols)[|cols| - 1];
        }
      }
    }
  }

  lemma EncodedColumnsSnoc(cols: seq<Column>, c: Column)
    ensures EncodedColumns(cols + [c]) == EncodedColumns(cols) + [EncodeColumn(c)]
  {
    assert (cols + [c])[..|cols|] == cols;
  }

  lemma KeepNumericSnoc(cols: seq<Column>, c: Column)
    ensures KeepNumeric(cols + [c]) == KeepNumeric(cols) + (if c.kind == Numeric then [c] else [])
  {
    assert (cols + [c])[..|cols|] == cols;
  }

  /** Encoding then keeping the numeric columns is encoding the numeric,
      object and bool columns: exactly the other columns are removed. */
  lemma {:induction false} OnlyOtherColumnsRemoved(cols: seq<Column>)
    ensures KeepNumeric(EncodedColumns(cols)) == EncodedColumns(Encodable(cols))
  {
    if cols != [] {
      var prefix := cols[..|cols| - 1];
      var last := cols[|cols| - 1];
      assert cols == prefix + [last];
      OnlyOtherColumnsRemoved(prefix);
      EncodedColumnsSnoc(prefix, last);
      KeepNumericSnoc(EncodedColumns(prefix), EncodeColumn(last));
      if last.kind != OtherKind {
        EncodedColumnsSnoc(Encodable(prefix), last);
      }
    }
  }

  /** The columns `drop` sees: the data columns left after `set_index`. */
  function DataColumns(f: Frame, index: Option<seq<string>>): (cols: seq<Column>)
    ensures forall c :: c in cols <==> c in f.columns && (index.Some? ==> c.name !in index.value)
  {
    if index.Some? then Without(f.columns, index.value) else f.columns
  }

  /** `set_index` and `drop` fail exactly when an `index` key is not a column,
      or when a `drop` label is not among the data columns left after the
      index was set (so also when it names an index column). */
  lemma SelectedNoneIff(f: Frame, index: Option<seq<string>>, drop: Option<seq<string>>)
    ensures Selected(f, index, drop).None? <==>
              (index.Some? && exists k :: k in index.value && !HasColumn(f.columns, k))
              || (drop.Some? && exists k :: k in drop.value && !HasColumn(DataColumns(f, index), k))
  {
  }

  /** A missing `index` column, or a `drop` label missing from the data
      columns (with or without an index), yields an empty table and no
      mappings. */
  lemma MissingKeyEmpties(f: Frame, index: Option<seq<string>>, drop: Option<seq<string>>)
    requires (index.Some? && exists k :: k in index.value && !HasColumn(f.columns, k))
             || (drop.Some? && exists k :: k in drop.value && !HasColumn(DataColumns(f, index), k))
    ensures PreprocessSpec(f, index, drop) == (EmptyFrame, map[])
  {
    SelectedNoneIff(f, index, drop);
  }

  /** The case `preprocess_on` runs into: a valid index column together with
      a `drop` label that is no column at all. */
  lemma ValidIndexMissingDropEmpties(f: Frame, k: string, missing: string)
    requires HasColumn(f.columns, k)
    requires !HasColumn(f.columns, missing)
    ensures PreprocessSpec(f, Some([k]), Some([missing])) == (EmptyFrame, map[])
  {
    var data := DataColumns(f, Some([k]));
    forall j | 0 <= j < |data|
      ensures data[j].name != missing
    {
      assert data[j] in f.columns;
    }
    assert !HasColumn(data, missing);
    assert missing in [missing];
    MissingKeyEmpties(f, Some([k]), Some([missing]));
  }

  /** Dropping the column just moved into the index fails: `drop` only sees
      data columns, so the call answers with the empty result. */
  lemma DropOfIndexColumnEmpties(f: Frame, k: string)
    requires HasColumn(f.columns, k)
    ensures PreprocessSpec(f, Some([k]), Some([k])) == (EmptyFrame, map[])
  {
  }

  /** A valid `index` column becomes the result's index. */
  lemma IndexColumnBecomesIndex(f: Frame, k: string)
    requires HasColumn(f.columns, k)
    ensures |PreprocessSpec(f, Some([k]), None).0.index| == 1
    ensures PreprocessSpec(f, Some([k]), None).0.index[0].name == k
  {
  }

  lemma SetIndexKeepsRectangular(f: Frame, keys: seq<string>)
    requires Rectangular(f) && SetIndex(f, keys).Some?
    ensures Rectangular(SetIndex(f, keys).value)
  {
    var g := SetIndex(f, keys).value;
    forall j | 0 <= j < |g.index|
      ensures |g.index[j].cells| == f.height
    {
      var c := ColumnNamed(f.columns, keys[j]);
      var t :| 0 <= t < |f.columns| && f.columns[t] == c;
    }
    forall j | 0 <= j < |g.columns|
      ensures |g.columns[j].cells| == f.height
    {
      var t :| 0 <= t < |f.columns| && f.columns[t] == g.columns[j];
    }
  }

  lemma DropKeepsRectangular(f: Frame, labels: seq<string>)
    requires Rectangular(f) && DropColumns(f, labels).Some?
    ensures Rectangular(DropColumns(f, labels).value)
  {
    var g := DropColumns(f, labels).value;
    forall j | 0 <= j < |g.columns|
      ensures |g.columns[j].cells| == f.height
    {
      var t :| 0 <= t < |f.columns| && f.columns[t] == g.columns[j];
    }
  }

  lemma EncodingKeepsRectangular(g: Frame)
    requires Rectangular(g)
    ensures Rectangular(Frame(g.height, g.index, KeepNumeric(EncodedColumns(g.columns))))
  {
    var enc := EncodedColumns(g.columns);
    forall t | 0 <= t < |enc|
      ensures |enc[t].cells| == g.height
    {
      assert enc[t] == EncodeColumn(g.columns[t]);
    }
    assert forall c :: c in enc ==> |c.cells| == g.height;
    var kept := KeepNumeric(enc);
    assert forall j :: 0 <= j < |kept| ==> kept[j] in enc;
  }

  /** `preprocess` keeps every column at one cell per row. */
  lemma StaysRectangular(f: Frame, index: Option<seq<string>>, drop: Option<seq<string>>)
    requires Rectangular(f)
    ensures Rectangular(PreprocessSpec(f, index, drop).0)
  {
    var indexed := if index.Some? then SetIndex(f, index.value) else Some(f);
    if index.Some? && indexed.Some? {
      SetIndexKeepsRectangular(f, index.value);
    }
    if indexed.Some? && drop.Some? && DropColumns(indexed.value, drop.value).Some? {
      DropKeepsRectangular(indexed.value, drop.value);
    }
    var g := Selected(f, index, drop);
    if g.Some? {
      EncodingKeepsRectangular(g.value);
    }
  }
}
