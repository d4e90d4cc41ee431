/** Saving the config over an existing document (merge_toml_table in
    src/config.rs): the deep merge and its laws. A document is a finite tree of
    tables and values; comments and layout are not part of it. */
module TomlMerge {
  import opened Wrappers

  datatype Value = Scalar(text: string) | Specs(specs: seq<string>) | Inline(fields: map<string, Value>)

  /** An array of tables or an inline table counts as a value, as in the source. */
  datatype Item = Leaf(value: Value) | Table(entries: map<string, Item>)

  /** Deep merge of `src` into `dst`: sub-tables are merged, anything else is
      overwritten, keys only in `dst` stay. */
  function Merge(dst: Item, src: Item): Item
    decreases src
  {
    if dst.Table? && src.Table? then
      Table(map k | k in dst.entries.Keys + src.entries.Keys ::
              if k !in src.entries then dst.entries[k]
              else if k in dst.entries then Merge(dst.entries[k], src.entries[k])
              else src.entries[k])
    else src
  }

  /** The loop over the source's keys, in whatever order they come. */
  method MergeTomlTable(dst: Item, src: Item) returns (merged: Item)
    requires dst.Table? && src.Table?
    ensures merged == Merge(dst, src)
    decreases src
  {
    merged := dst;
    var keys := src.entries.Keys;
    while keys != {}
      invariant merged.Table? && keys <= src.entries.Keys
      invariant merged.entries.Keys == dst.entries.Keys + (src.entries.Keys - keys)
      invariant forall k :: k in merged.entries && (k !in src.entries || k in keys) ==>
          k in dst.entries && merged.entries[k] == dst.entries[k]
      invariant forall k :: k in src.entries && k !in keys ==>
        merged.entries[k] == if k in dst.entries then Merge(dst.entries[k], src.entries[k]) else src.entries[k]
      decreases keys
    {
      var key :| key in keys;
      var item := src.entries[key];
      if key in merged.entries && merged.entries[key].Table? && item.Table? {
        var sub := MergeTomlTable(merged.entries[key], item);
        merged := Table(merged.entries[key := sub]);
      } else {
        merged := Table(merged.entries[key := item]);
      }
      keys := keys - {key};
    }
    assert merged.entries.Keys == dst.entries.Keys + src.entries.Keys;
    assert merged.entries == Merge(dst, src).entries;
  }

  /** What a document holds at a key path, through tables and inline tables alike. */
  function Get(item: Item, path: seq<string>): Option<Item>
    decreases |path|
  {
    if path == [] then Some(item)
    else if item.Table? && path[0] in item.entries then Get(item.entries[path[0]], path[1..])
    else if item.Leaf? && item.value.Inline? && path[0] in item.value.fields
    then Get(Leaf(item.value.fields[path[0]]), path[1..])
    else None
  }

  /** Every value of the source reads back. */
  lemma {:induction false} SourceReadsBack(dst: Item, src: Item, path: seq<string>, v: Value)
    requires Get(src, path) == Some(Leaf(v))
    ensures Get(Merge(dst, src), path) == Some(Leaf(v))
    decreases |path|
  {
    if path != [] && dst.Table? && src.Table? && path[0] in dst.entries {
      SourceReadsBack(dst.entries[path[0]], src.entries[path[0]], path[1..], v);
    }
  }

  /** On the way along the path both hold something, and one of the two is not a
      table, an inline one in particular: the merge puts the source's in its place. */
  ghost predicate Replaced(dst: Item, src: Item, path: seq<string>)
    decreases |path|
  {
    !(dst.Table? && src.Table?)
    || (path != [] && path[0] in dst.entries && path[0] in src.entries
        && Replaced(dst.entries[path[0]], src.entries[path[0]], path[1..]))
  }

  /** Whatever the source does not hold is as it was in the destination, or gone
      with the value that was replaced. */
  lemma {:induction false} UntouchedStays(dst: Item, src: Item, path: seq<string>)
    requires Get(src, path).None?
    ensures Get(Merge(dst, src), path) == if Replaced(dst, src, path) then None else Get(dst, path)
    decreases |path|
  {
    if dst.Table? && src.Table? && path[0] in dst.entries && path[0] in src.entries {
      UntouchedStays(dst.entries[path[0]], src.entries[path[0]], path[1..]);
    }
  }

  /** So of what the destination alone holds, the merge keeps exactly what stands
      below no replaced value. */
  lemma KeptIffNotReplaced(dst: Item, src: Item, path: seq<string>)
    requires Get(src, path).None? && Get(dst, path).Some?
    ensures Get(Merge(dst, src), path) == Get(dst, path) <==> !Replaced(dst, src, path)
  {
    UntouchedStays(dst, src, path);
  }

  /** Some table of `src` on the way along the path lacks the next key. */
  ghost predicate Untouched(src: Item, path: seq<string>)
    decreases |path|
  {
    src.Table? && path != [] && (path[0] !in src.entries || Untouched(src.entries[path[0]], path[1..]))
  }

  lemma UntouchedIsAbsent(src: Item, path: seq<string>)
    requires Untouched(src, path)
    ensures Get(src, path) == None
    decreases |path|
  {
  }

  /** A table of the source meets an inline table of the destination that holds the
      rest of the path. */
  ghost predicate MeetsInline(dst: Item, src: Item, path: seq<string>)
    decreases |path|
  {
    src.Table? && path != []
    && if dst.Leaf? then dst.value.Inline? && Get(dst, path).Some?
       else path[0] in dst.entries && path[0] in src.entries
            && MeetsInline(dst.entries[path[0]], src.entries[path[0]], path[1..])
  }

  /** Where only tables of the source lie on the way, an inline table is the one
      thing that is replaced. */
  lemma {:induction false} OnlyInlineIsReplaced(dst: Item, src: Item, path: seq<string>)
    requires Untouched(src, path)
    ensures Get(dst, path).Some? && Replaced(dst, src, path) <==> MeetsInline(dst, src, path)
    decreases |path|
  {
    if path[0] in src.entries && dst.Table? && path[0] in dst.entries {
      OnlyInlineIsReplaced(dst.entries[path[0]], src.entries[path[0]], path[1..]);
    }
  }

  /** A key of the user's own beside tables of the source is lost exactly when one
      of them replaces the inline table it stands in. */
  lemma InlineKeysAreLost(dst: Item, src: Item, path: seq<string>)
    requires Untouched(src, path)
    ensures Get(Merge(dst, src), path) == Get(dst, path) <==> !MeetsInline(dst, src, path)
  {
    UntouchedIsAbsent(src, path);
    OnlyInlineIsReplaced(dst, src, path);
    UntouchedStays(dst, src, path);
  }

  /** The merge invents nothing: what it holds at a path, the source or the
      destination held there too. */
  lemma {:induction false} NothingInvented(dst: Item, src: Item, path: seq<string>)
    requires Get(Merge(dst, src), path).Some?
    ensures Get(src, path).Some? || Get(dst, path).Some?
    decreases |path|
  {
    if path != [] && dst.Table? && src.Table? && path[0] in src.entries && path[0] in dst.entries {
      NothingInvented(dst.entries[path[0]], src.entries[path[0]], path[1..]);
    }
  }

  /** Saving the same thing twice changes nothing the second time. */
  lemma {:induction false} MergeIdempotent(dst: Item, src: Item)
    ensures Merge(Merge(dst, src), src) == Merge(dst, src)
    decreases src
  {
    if src.Table? {
      var once := Merge(dst, src);
      forall k | k in src.entries && k in once.entries
        ensures Merge(once.entries[k], src.entries[k]) == once.entries[k]
      {
        if dst.Table? && k in dst.entries {
          MergeIdempotent(dst.entries[k], src.entries[k]);
        } else {
          MergeSelf(src.entries[k]);
        }
      }
      assert Merge(once, src).entries == once.entries;
    }
  }

  lemma {:induction false} MergeSelf(item: Item)
    ensures Merge(item, item) == item
    decreases item
  {
    if item.Table? {
      forall k | k in item.entries ensures Merge(item.entries[k], item.entries[k]) == item.entries[k] {
        MergeSelf(item.entries[k]);
      }
      assert Merge(item, item).entries == item.entries;
    }
  }

  /** The last save wins: merging `a` and then `b` of the same shape is merging `b`. */
  predicate SameShape(a: Item, b: Item)
    decreases a
  {
    if a.Table? then
      b.Table? && a.entries.Keys == b.entries.Keys
      && forall k :: k in a.entries ==> SameShape(a.entries[k], b.entries[k])
    else b.Leaf?
  }

  lemma {:induction false} LaterSaveWins(dst: Item, a: Item, b: Item)
    requires SameShape(a, b)
    ensures Merge(Merge(dst, a), b) == Merge(dst, b)
    decreases b
  {
    if b.Table? {
      var first := Merge(dst, a);
      forall k | k in b.entries
        ensures Merge(first.entries[k], b.entries[k]) ==
          if dst.Table? && k in dst.entries then Merge(dst.entries[k], b.entries[k]) else b.entries[k]
      {
        if dst.Table? && k in dst.entries {
          LaterSaveWins(dst.entries[k], a.entries[k], b.entries[k]);
        } else {
          ShapeOverwrites(a.entries[k], b.entries[k]);
        }
      }
      assert Merge(first, b).entries == Merge(dst, b).entries;
    }
  }

  lemma {:induction false} ShapeOverwrites(a: Item, b: Item)
    requires SameShape(a, b)
    ensures Merge(a, b) == b
    decreases b
  {
    if b.Table? {
      forall k | k in b.entries ensures Merge(a.entries[k], b.entries[k]) == b.entries[k] {
        ShapeOverwrites(a.entries[k], b.entries[k]);
      }
      assert Merge(a, b).entries == b.entries;
    }
  }
}
