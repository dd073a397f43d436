/**
 * What `preprocess_on` promises: every group is non-empty and the groups
 * split the rows with a complete key; each returned chunk is `preprocess`
 * of one group with more than `min_records` rows and every such group gives
 * one; with `min_records <= 0` there is one chunk per distinct key; and
 * without `index` or `drop` every chunk is indexed by the `on` columns.
 */
module ChunkingProperties {
  import opened Wrappers
  import opened Frames
  import opened Encoding
  import opened Grouping
  import opened Preprocess
  import opened Chunking

  /** Each group has a row, and every row with a complete key lies in the
      group of its own key and in no other; a row with a missing key cell
      lies in no group. */
  lemma GroupsPartitionRows(kc: seq<Column>, n: nat, r: nat)
    requires Reaches(kc, n) && r < n
    ensures forall key :: key in GroupKeys(kc, n) ==> |RowsWith(kc, key, n)| > 0
    ensures Complete(Key(kc, r)) ==> Key(kc, r) in GroupKeys(kc, n) && r in RowsWith(kc, Key(kc, r), n)
    ensures forall key :: key in GroupKeys(kc, n) && r in RowsWith(kc, key, n) ==> key == Key(kc, r)
    ensures !Complete(Key(kc, r)) ==> forall key :: key in GroupKeys(kc, n) ==> r !in RowsWith(kc, key, n)
  {
    forall key | key in GroupKeys(kc, n)
      ensures |RowsWith(kc, key, n)| > 0
    {
      var s: nat :| s < n && Key(kc, s) == key;
      assert s in RowsWith(kc, key, n);
    }
  }

  /** The big groups are exactly the keys whose group has more than `minRecords` rows. */
  lemma {:induction false} BigGroupsMembers(f: Frame, kc: seq<Column>, keys: seq<seq<Cell>>, minRecords: int)
    requires Rectangular(f) && Reaches(kc, f.height)
    ensures forall key :: key in BigGroups(f, kc, keys, minRecords) <==> key in keys && IsBig(f, kc, key, minRecords)
  {
    if keys != [] {
      var prefix := keys[..|keys| - 1];
      BigGroupsMembers(f, kc, prefix, minRecords);
      assert keys == prefix + [keys[|keys| - 1]];
    }
  }

  /** The chunks of `groups`, one for one and in order. */
  function ChunksOf(f: Frame, kc: seq<Column>, groups: seq<seq<Cell>>,
                    index: Option<seq<string>>, drop: Option<seq<string>>): (r: seq<(Frame, Mappings)>)
    requires Rectangular(f) && Reaches(kc, f.height)
    ensures |r| == |groups|
    ensures forall k :: 0 <= k < |groups| ==> r[k] == ChunkOf(f, kc, groups[k], index, drop)
  {
    if groups == [] then []
    else ChunksOf(f, kc, groups[..|groups| - 1], index, drop) + [ChunkOf(f, kc, groups[|groups| - 1], index, drop)]
  }

  /** The chunks are `preprocess` of the big groups' chunks, one each, in order. */
  lemma {:induction false} ChunksOfBigGroups(f: Frame, kc: seq<Column>, keys: seq<seq<Cell>>, minRecords: int,
                                             index: Option<seq<string>>, drop: Option<seq<string>>)
    requires Rectangular(f) && Reaches(kc, f.height)
    ensures ChunkResults(f, kc, keys, minRecords, index, drop) == ChunksOf(f, kc, BigGroups(f, kc, keys, minRecords), index, drop)
  {
    if keys != [] {
      var prefix := keys[..|keys| - 1];
      var last := keys[|keys| - 1];
      ChunksOfBigGroups(f, kc, prefix, minRecords, index, drop);
      var big := BigGroups(f, kc, prefix, minRecords);
      if IsBig(f, kc, last, minRecords) {
        assert BigGroups(f, kc, keys, minRecords) == big + [last];
        assert (big + [last])[..|big|] == big;
        assert ChunksOf(f, kc, big + [last], index, drop)
            == ChunksOf(f, kc, big, index, drop) + [ChunkOf(f, kc, last, index, drop)];
      } else {
        assert BigGroups(f, kc, keys, minRecords) == big;
      }
    }
  }

  /** Each returned chunk is `preprocess` of a group of `keys` with more than
      `minRecords` rows. */
  lemma ChunkOrigin(f: Frame, kc: seq<Column>, keys: seq<seq<Cell>>, minRecords: int,
                    index: Option<seq<string>>, drop: Option<seq<string>>, k: nat)
    requires Rectangular(f) && Reaches(kc, f.height)
    requires k < |ChunkResults(f, kc, keys, minRecords, index, drop)|
    ensures exists key :: key in keys && |RowsWith(kc, key, f.height)| > minRecords
                       && ChunkResults(f, kc, keys, minRecords, index, drop)[k] == ChunkOf(f, kc, key, index, drop)
  {
    ChunksOfBigGroups(f, kc, keys, minRecords, index, drop);
    BigGroupsMembers(f, kc, keys, minRecords);
    var big := BigGroups(f, kc, keys, minRecords);
    assert big[k] in big;
  }

  /** Every group of `keys` with more than `minRecords` rows gives a chunk. */
  lemma EveryBigGroupChunked(f: Frame, kc: seq<Column>, keys: seq<seq<Cell>>, minRecords: int,
                             index: Option<seq<string>>, drop: Option<seq<string>>, key: seq<Cell>)
    requires Rectangular(f) && Reaches(kc, f.height)
    requires key in keys && |RowsWith(kc, key, f.height)| > minRecords
    ensures ChunkOf(f, kc, key, index, drop) in ChunkResults(f, kc, keys, minRecords, index, drop)
  {
    ChunksOfBigGroups(f, kc, keys, minRecords, index, drop);
    BigGroupsMembers(f, kc, keys, minRecords);
    var big := BigGroups(f, kc, keys, minRecords);
    assert IsBig(f, kc, key, minRecords);
    var k :| 0 <= k < |big| && big[k] == key;
    var chunks := ChunksOf(f, kc, big, index, drop);
    assert chunks[k] == ChunkOf(f, kc, key, index, drop);
    assert chunks[k] in chunks;
  }

  /** When every group of `keys` is large enough, every group is big. */
  lemma {:induction false} AllGroupsBig(f: Frame, kc: seq<Column>, keys: seq<seq<Cell>>, minRecords: int)
    requires Rectangular(f) && Reaches(kc, f.height)
    requires forall i :: 0 <= i < |keys| ==> IsBig(f, kc, keys[i], minRecords)
    ensures BigGroups(f, kc, keys, minRecords) == keys
  {
    if keys != [] {
      var prefix := keys[..|keys| - 1];
      var last := keys[|keys| - 1];
      assert forall i :: 0 <= i < |prefix| ==> prefix[i] == keys[i];
      AllGroupsBig(f, kc, prefix, minRecords);
      assert IsBig(f, kc, last, minRecords);
      assert BigGroups(f, kc, keys, minRecords) == BigGroups(f, kc, prefix, minRecords) + [last];
      assert keys == prefix + [last];
    }
  }

  /** When every group of `keys` is large enough, there is one chunk per group. */
  lemma AllGroupsChunked(f: Frame, kc: seq<Column>, keys: seq<seq<Cell>>, minRecords: int,
                         index: Option<seq<string>>, drop: Option<seq<string>>)
    requires Rectangular(f) && Reaches(kc, f.height)
    requires forall key :: key in keys ==> |RowsWith(kc, key, f.height)| > minRecords
    ensures |ChunkResults(f, kc, keys, minRecords, index, drop)| == |keys|
  {
    assert forall i :: 0 <= i < |keys| ==> keys[i] in keys;
    AllGroupsBig(f, kc, keys, minRecords);
    ChunksOfBigGroups(f, kc, keys, minRecords, index, drop);
  }

  /** With `minRecords <= 0` there is one chunk per distinct complete key of
      the `on` columns. */
  lemma OneChunkPerGroup(f: Frame, on: seq<string>, minRecords: int,
                         index: Option<seq<string>>, drop: Option<seq<string>>)
    requires Rectangular(f) && minRecords <= 0
    requires forall k :: k in on ==> HasColumn(f.columns, k)
    ensures PreprocessOnSpec(f, on, minRecords, index, drop).Some?
    ensures |PreprocessOnSpec(f, on, minRecords, index, drop).value| == |GroupKeys(KeyColumns(f, on).value, f.height)|
  {
    var kc := KeyColumns(f, on).value;
    var keys := GroupKeys(kc, f.height);
    forall key | key in keys
      ensures |RowsWith(kc, key, f.height)| > minRecords
    {
      var s: nat :| s < f.height && Key(kc, s) == key;
      assert s in RowsWith(kc, key, f.height);
    }
    AllGroupsChunked(f, kc, keys, minRecords, EffectiveIndex(index, on), drop);
  }

  /** A missing `on` column makes `preprocess_on` answer None. */
  lemma MissingOnColumnGivesNone(f: Frame, on: seq<string>, minRecords: int,
                                 index: Option<seq<string>>, drop: Option<seq<string>>)
    requires Rectangular(f)
    requires exists k :: k in on && !HasColumn(f.columns, k)
    ensures PreprocessOnSpec(f, on, minRecords, index, drop) == None
  {
  }

  /** A chunk keeps every column, so `preprocess(chunk, index=on)` finds the
      `on` columns and makes them the index. */
  lemma ChunkIndexedByOn(f: Frame, rows: seq<nat>, on: seq<string>)
    requires Rectangular(f)
    requires forall i :: 0 <= i < |rows| ==> rows[i] < f.height
    requires forall k :: k in on ==> HasColumn(f.columns, k)
    ensures |PreprocessSpec(SelectRows(f, rows), Some(on), None).0.index| == |on|
    ensures forall i :: 0 <= i < |on| ==> PreprocessSpec(SelectRows(f, rows), Some(on), None).0.index[i].name == on[i]
    ensures PreprocessSpec(SelectRows(f, rows), Some(on), None).0.height == |rows|
  {
    var g := SelectRows(f, rows);
    forall k | k in on
      ensures HasColumn(g.columns, k)
    {
      var j :| 0 <= j < |f.columns| && f.columns[j].name == k;
      assert g.columns[j].name == k;
    }
  }

  /** Without `index` and `drop`, every chunk is indexed by the `on` columns
      and has more than `minRecords` rows. */
  lemma ChunksIndexedByOn(f: Frame, on: seq<string>, minRecords: int, k: nat)
    requires Rectangular(f)
    requires PreprocessOnSpec(f, on, minRecords, None, None).Some?
    requires k < |PreprocessOnSpec(f, on, minRecords, None, None).value|
    ensures |PreprocessOnSpec(f, on, minRecords, None, None).value[k].0.index| == |on|
    ensures forall i :: 0 <= i < |on| ==> PreprocessOnSpec(f, on, minRecords, None, None).value[k].0.index[i].name == on[i]
    ensures PreprocessOnSpec(f, on, minRecords, None, None).value[k].0.height > minRecords
  {
    var kc := KeyColumns(f, on).value;
    var keys := GroupKeys(kc, f.height);
    ChunkOrigin(f, kc, keys, minRecords, Some(on), None, k);
    var key :| key in keys && |RowsWith(kc, key, f.height)| > minRecords
               && ChunkResults(f, kc, keys, minRecords, Some(on), None)[k] == ChunkOf(f, kc, key, Some(on), None);
    ChunkIndexedByOn(f, RowsWith(kc, key, f.height), on);
  }
}
