/**
 * Categorical encoding of one object or bool column (rad.py:219-224): the
 * column's categories, the integer code of every cell, and the mapping from
 * category to code that `preprocess` records.
 */
module Encoding {
  import opened Frames

  /** No value occurs twice in `s`. */
  predicate Distinct<T(==)>(s: seq<T>)
  {
    forall i, j :: 0 <= i < j < |s| ==> s[i] != s[j]
  }

  /** The categories of a column: its distinct non-missing cells. (pandas
      orders them by value; this model keeps the order of first appearance.) */
  function Categories(cells: seq<Cell>): (cats: seq<Cell>)
    ensures Distinct(cats)
    ensures forall c :: c in cats <==> c in cells && c != Missing
  {
    if cells == [] then []
    else
      var before := Categories(cells[..|cells| - 1]);
      var last := cells[|cells| - 1];
      assert cells == cells[..|cells| - 1] + [last];
      if last == Missing || last in before then before else before + [last]
  }

  /** The position of `c` in `cats`, or -1 when it is not there. */
  function IndexOf(cats: seq<Cell>, c: Cell): (k: int)
    ensures -1 <= k < |cats|
    ensures k == -1 <==> c !in cats
    ensures k >= 0 ==> cats[k] == c
  {
    if cats == [] then -1
    else if cats[|cats| - 1] == c then |cats| - 1
    else IndexOf(cats[..|cats| - 1], c)
  }

  /** `cat.codes.astype(float)`: each cell's category position, -1 for a
      missing cell, as a float. */
  function Codes(cats: seq<Cell>, cells: seq<Cell>): (r: seq<Cell>)
    ensures |r| == |cells|
    ensures forall i :: 0 <= i < |cells| ==>
              r[i].Num? && -1.0 <= r[i].x < |cats| as real && r[i].x == r[i].x.Floor as real
    ensures forall i :: 0 <= i < |cells| ==> (r[i].x == -1.0 <==> cells[i] !in cats)
    ensures forall i :: 0 <= i < |cells| && r[i].x >= 0.0 ==> cats[r[i].x.Floor] == cells[i]
  {
    seq(|cells|, i requires 0 <= i < |cells| => Num(IndexOf(cats, cells[i]) as real))
  }

  /** `dict(zip(cats, range(len(cats))))`. */
  function CategoryMap(cats: seq<Cell>): (m: map<Cell, int>)
    ensures m.Keys == set c | c in cats
    ensures forall c :: c in m ==> 0 <= m[c] < |cats| && cats[m[c]] == c
  {
    map c | c in cats :: IndexOf(cats, c)
  }

  /** In a sequence without repeats, the position found for `cats[i]` is `i`. */
  lemma {:induction false} IndexOfDistinct(cats: seq<Cell>, i: nat)
    requires Distinct(cats)
    requires i < |cats|
    ensures IndexOf(cats, cats[i]) == i
  {
    if i < |cats| - 1 {
      var prefix := cats[..|cats| - 1];
      assert prefix[i] == cats[i];
      IndexOfDistinct(prefix, i);
    }
  }

  /** The mapping sends the categories one-to-one onto `0..k-1`, where `k`
      is the number of categories. */
  lemma CategoryMapIsBijection(cats: seq<Cell>)
    requires Distinct(cats)
    ensures CategoryMap(cats).Keys == set c | c in cats
    ensures forall v :: v in CategoryMap(cats).Values <==> 0 <= v < |cats|
    ensures forall i :: 0 <= i < |cats| ==> CategoryMap(cats)[cats[i]] == i
  {
    var m := CategoryMap(cats);
    forall i | 0 <= i < |cats|
      ensures m[cats[i]] == i
    {
      IndexOfDistinct(cats, i);
    }
    forall i | 0 <= i < |cats|
      ensures i in m.Values
    {
      assert m[cats[i]] == i;
    }
  }

  /** Decoding a code through the categories gives the cell back; a missing
      cell, and only a missing cell, gets code -1. */
  lemma CodesRoundTrip(cells: seq<Cell>, i: nat)
    requires i < |cells|
    ensures var cats := Categories(cells);
            var code := IndexOf(cats, cells[i]);
            (cells[i] == Missing <==> code == -1)
            && (code >= 0 ==> cats[code] == cells[i])
            && Codes(cats, cells)[i] == Num(code as real)
  {
  }
}
