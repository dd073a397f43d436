/**
 * `preprocess_on` (rad.py:236-272): group the table on the `on` columns,
 * keep the groups with more than `min_records` rows, and run `preprocess`
 * on each, with `on` as the index when no `index` is given. A missing `on`
 * column is caught: the function then returns None.
 */
module Chunking {
  import opened Wrappers
  import opened Frames
  import opened Grouping
  import opened Preprocess

  /** The index every chunk is preprocessed with: `on` when no `index` is given. */
  function EffectiveIndex(index: Option<seq<string>>, on: seq<string>): (r: Option<seq<string>>)
    ensures r.Some?
    ensures r == index || (index.None? && r.value == on)
  {
    if index.None? then Some(on) else index
  }

  /** `preprocess` of the chunk of the group with key `key`. */
  function ChunkOf(f: Frame, kc: seq<Column>, key: seq<Cell>,
                   index: Option<seq<string>>, drop: Option<seq<string>>): (Frame, Mappings)
    requires Rectangular(f) && Reaches(kc, f.height)
  {
    PreprocessSpec(SelectRows(f, RowsWith(kc, key, f.height)), index, drop)
  }

  /** The preprocessed chunks of the groups `keys` that have more than
      `minRecords` rows, in the order of `keys`. */
  function ChunkResults(f: Frame, kc: seq<Column>, keys: seq<seq<Cell>>, minRecords: int,
                        index: Option<seq<string>>, drop: Option<seq<string>>): (r: seq<(Frame, Mappings)>)
    requires Rectangular(f) && Reaches(kc, f.height)
    ensures |r| <= |keys|
  {
    if keys == [] then []
    else
      var out := ChunkResults(f, kc, keys[..|keys| - 1], minRecords, index, drop);
      var last := keys[|keys| - 1];
      if IsBig(f, kc, last, minRecords) then out + [ChunkOf(f, kc, last, index, drop)] else out
  }

  /** Whether the group of `key` has more than `minRecords` rows. */
  predicate IsBig(f: Frame, kc: seq<Column>, key: seq<Cell>, minRecords: int)
    requires Rectangular(f) && Reaches(kc, f.height)
    ensures IsBig(f, kc, key, minRecords) ==> minRecords < f.height
  {
    |RowsWith(kc, key, f.height)| > minRecords
  }

  /** The keys of the groups with more than `minRecords` rows, in the order of `keys`. */
  function BigGroups(f: Frame, kc: seq<Column>, keys: seq<seq<Cell>>, minRecords: int): (r: seq<seq<Cell>>)
    requires Rectangular(f) && Reaches(kc, f.height)
    ensures |r| <= |keys|
    ensures forall i :: 0 <= i < |r| ==> IsBig(f, kc, r[i], minRecords)
  {
    if keys == [] then []
    else
      var last := keys[|keys| - 1];
      BigGroups(f, kc, keys[..|keys| - 1], minRecords) + (if IsBig(f, kc, last, minRecords) then [last] else [])
  }

  /** What `preprocess_on(f, on, minRecords, index, drop)` returns. */
  function PreprocessOnSpec(f: Frame, on: seq<string>, minRecords: int,
                            index: Option<seq<string>>, drop: Option<seq<string>>): (r: Option<seq<(Frame, Mappings)>>)
    requires Rectangular(f)
    ensures r.Some? <==> forall k :: k in on ==> HasColumn(f.columns, k)
    ensures r.Some? ==> |r.value| <= |GroupKeys(KeyColumns(f, on).value, f.height)|
  {
    match KeyColumns(f, on)
    case None => None
    case Some(kc) =>
      Some(ChunkResults(f, kc, GroupKeys(kc, f.height), minRecords, EffectiveIndex(index, on), drop))
  }

  /** One pass of the loop of `preprocess_on` (rad.py:260-268): a group with
      more than `minRecords` rows sets `index` to `on` when none is set yet,
      and appends `preprocess` of its chunk; a smaller group is skipped. */
  method AddChunk(frame: Frame, kc: seq<Column>, key: seq<Cell>, minRecords: int, on: seq<string>,
                  index: Option<seq<string>>, drop: Option<seq<string>>,
                  idx: Option<seq<string>>, chunks: seq<(Frame, Mappings)>)
    returns (idx': Option<seq<string>>, chunks': seq<(Frame, Mappings)>)
    requires Rectangular(frame) && Reaches(kc, frame.height)
    requires idx == index || (index.None? && idx == Some(on))
    ensures idx' == index || (index.None? && idx' == Some(on))
    ensures chunks' == if IsBig(frame, kc, key, minRecords)
                       then chunks + [ChunkOf(frame, kc, key, EffectiveIndex(index, on), drop)]
                       else chunks
  {
    idx', chunks' := idx, chunks;
    if IsBig(frame, kc, key, minRecords) {
      if idx'.None? {
        idx' := Some(on);
      }
      var chunk, mapping := Preprocess.Preprocess(SelectRows(frame, RowsWith(kc, key, frame.height)), idx', drop);
      chunks' := chunks' + [(chunk, mapping)];
    }
  }

  /** `preprocess_on` (rad.py:252-272). The first chunk large enough sets
      `index` to `on` for good when no `index` was given. */
  method PreprocessOn(frame: Frame, on: seq<string>, minRecords: int := 50,
                      index: Option<seq<string>>, drop: Option<seq<string>>)
    returns (out: Option<seq<(Frame, Mappings)>>)
    requires on != []
    requires Rectangular(frame)
    ensures out == PreprocessOnSpec(frame, on, minRecords, index, drop)
  {
    var keyColumns := KeyColumns(frame, on);
    if keyColumns.None? {
      return None;
    }
    var kc := keyColumns.value;
    var keys := GroupKeys(kc, frame.height);
    var chunks: seq<(Frame, Mappings)> := [];
    var idx := index;
    for i := 0 to |keys|
      invariant idx == index || (index.None? && idx == Some(on))
      invariant chunks == ChunkResults(frame, kc, keys[..i], minRecords, EffectiveIndex(index, on), drop)
    {
      assert keys[..i + 1][..i] == keys[..i];
      idx, chunks := AddChunk(frame, kc, keys[i], minRecords, on, index, drop, idx, chunks);
    }
    assert keys[..|keys|] == keys;
    return Some(chunks);
  }
}
