/**
 * An abstract table, as far as `preprocess` and `preprocess_on` look at one:
 * named columns tagged with the dtype family that `select_dtypes` selects
 * on, the columns moved into the row index by `set_index`, and the row
 * count. The pandas operations the two functions call are stated here as
 * rules on this table.
 */
module Frames {
  import opened Wrappers

  /** One cell. `Missing` is pandas's NaN / None. */
  datatype Cell = Missing | Num(x: real) | Flag(b: bool) | Text(s: string) | Stamp(t: int)

  /** The dtype family of a column: numeric (which in pandas takes in
      timedeltas too), object, bool, or anything else (datetimes,
      categoricals). */
  datatype Kind = Numeric | ObjectKind | BoolKind | OtherKind

  datatype Column = Column(name: string, kind: Kind, cells: seq<Cell>)

  /** A table of `height` rows: the columns that form its row index, and its
      data columns. An empty `index` stands for pandas's default range index. */
  datatype Frame = Frame(height: nat, index: seq<Column>, columns: seq<Column>)

  /** `pd.DataFrame()`: no rows, no columns. */
  const EmptyFrame := Frame(0, [], [])

  /** Every column of a pandas table holds one cell per row. */
  predicate Rectangular(f: Frame)
  {
    (forall j :: 0 <= j < |f.index| ==> |f.index[j].cells| == f.height)
    && (forall j :: 0 <= j < |f.columns| ==> |f.columns[j].cells| == f.height)
  }

  predicate IsCategorical(k: Kind)
  {
    k == ObjectKind || k == BoolKind
  }

  /** Whether some column is called `name`. */
  predicate HasColumn(cols: seq<Column>, name: string)
  {
    exists j :: 0 <= j < |cols| && cols[j].name == name
  }

  /** The first column called `name`. */
  function ColumnNamed(cols: seq<Column>, name: string): (c: Column)
    requires HasColumn(cols, name)
    ensures c in cols && c.name == name
  {
    if cols[0].name == name then cols[0]
    else
      assert HasColumn(cols[1..], name) by {
        var j :| 0 <= j < |cols| && cols[j].name == name;
        assert cols[1..][j - 1] == cols[j];
      }
      ColumnNamed(cols[1..], name)
  }

  /** The columns whose names are not among `names`, in their order. */
  function Without(cols: seq<Column>, names: seq<string>): (r: seq<Column>)
    ensures forall c :: c in r <==> c in cols && c.name !in names
  {
    if cols == [] then []
    else Without(cols[..|cols| - 1], names) + (if cols[|cols| - 1].name in names then [] else [cols[|cols| - 1]])
  }

  /** `set_index(keys)`: every key must name a column (else KeyError, here
      None); the named columns become the index and leave the data columns. */
  function SetIndex(f: Frame, keys: seq<string>): (r: Option<Frame>)
    ensures r.Some? <==> forall k :: k in keys ==> HasColumn(f.columns, k)
  {
    if forall k :: k in keys ==> HasColumn(f.columns, k) then
      Some(Frame(f.height,
                 seq(|keys|, i requires 0 <= i < |keys| && HasColumn(f.columns, keys[i]) => ColumnNamed(f.columns, keys[i])),
                 Without(f.columns, keys)))
    else None
  }

  /** `drop(labels, axis=1)`: every label must name a data column (else
      KeyError, here None); all columns so named are removed. */
  function DropColumns(f: Frame, labels: seq<string>): (r: Option<Frame>)
    ensures r.Some? <==> forall k :: k in labels ==> HasColumn(f.columns, k)
  {
    if forall k :: k in labels ==> HasColumn(f.columns, k) then
      Some(Frame(f.height, f.index, Without(f.columns, labels)))
    else None
  }

  /** `select_dtypes(include=np.number)`: the numeric columns, in order. */
  function KeepNumeric(cols: seq<Column>): (r: seq<Column>)
    ensures forall c :: c in r <==> c in cols && c.kind == Numeric
  {
    if cols == [] then []
    else KeepNumeric(cols[..|cols| - 1]) + (if cols[|cols| - 1].kind == Numeric then [cols[|cols| - 1]] else [])
  }
}
