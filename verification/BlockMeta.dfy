/** Block metadata: known keys promoted to typed columns, all other keys kept as extensions. */
module BlockMeta {

  /** A metadata value: null, or something with a printed form. */
  datatype MetaValue = Nothing | Something(shown: string, content: int)

  type Meta = map<string, MetaValue>

  const KNOWN_KEYS: set<string> := {
    "parent_id", "parent_type", "source_start", "source_end", "markup",
    "list_level", "heading_level", "aggregation"
  }

  datatype Parts = Parts(promoted: Meta, extensions: Meta)

  function Split(meta: Meta): Parts {
    Parts(map k | k in meta && k in KNOWN_KEYS :: meta[k], map k | k in meta && k !in KNOWN_KEYS :: meta[k])
  }

  /** Known keys come from the promoted part alone; it wins over the extensions. */
  function Merge(promoted: Meta, extensions: Meta): Meta {
    extensions + map k | k in promoted && k in KNOWN_KEYS :: promoted[k]
  }

  /** Which part a key goes to, by name. */
  lemma SplitByKey(meta: Meta, k: string)
    ensures k in Split(meta).promoted <==>
      k in meta && k in {"parent_id", "parent_type", "source_start", "source_end", "markup", "list_level",
                         "heading_level", "aggregation"}
    ensures k in Split(meta).extensions <==> k in meta && k !in Split(meta).promoted
    ensures k in Split(meta).promoted ==> Split(meta).promoted[k] == meta[k]
    ensures k in Split(meta).extensions ==> Split(meta).extensions[k] == meta[k]
  {
  }

  /** Splitting loses nothing. */
  lemma MergeSplit(meta: Meta)
    ensures Merge(Split(meta).promoted, Split(meta).extensions) == meta
  {
    var merged := Merge(Split(meta).promoted, Split(meta).extensions);
    assert forall k :: k in merged <==> k in meta;
    assert merged.Keys == meta.Keys;
    assert forall k :: k in meta ==> merged[k] == meta[k];
  }

  /** Merging loses nothing exactly when each part holds only its own keys. */
  lemma SplitMergeIff(promoted: Meta, extensions: Meta)
    ensures Split(Merge(promoted, extensions)) == Parts(promoted, extensions) <==>
      promoted.Keys <= KNOWN_KEYS && extensions.Keys !! KNOWN_KEYS
  {
    var parts := Split(Merge(promoted, extensions));
    if promoted.Keys <= KNOWN_KEYS && extensions.Keys !! KNOWN_KEYS {
      OwnKeysSplitBack(promoted, extensions);
    }
    if parts == Parts(promoted, extensions) {
      assert forall k :: k in parts.promoted ==> k in KNOWN_KEYS;
      assert forall k :: k in parts.extensions ==> k !in KNOWN_KEYS;
    }
  }

  lemma OwnKeysSplitBack(promoted: Meta, extensions: Meta)
    requires promoted.Keys <= KNOWN_KEYS && extensions.Keys !! KNOWN_KEYS
    ensures Split(Merge(promoted, extensions)) == Parts(promoted, extensions)
  {
    var parts := Split(Merge(promoted, extensions));
    assert forall k :: k in promoted ==> k in KNOWN_KEYS;
    assert forall k :: k in extensions ==> k !in KNOWN_KEYS;
    assert forall k :: k in parts.promoted <==> k in promoted;
    assert forall k :: k in parts.extensions <==> k in extensions;
    assert parts.promoted.Keys == promoted.Keys && parts.extensions.Keys == extensions.Keys;
    assert forall k :: k in promoted ==> parts.promoted[k] == promoted[k];
    assert forall k :: k in extensions ==> parts.extensions[k] == extensions[k];
    assert parts.promoted == promoted && parts.extensions == extensions;
  }

  /** The chapter a chunk belongs to: a stored chapter id, even a null one, hides the parent. */
  function ChapterOf(parts: Parts): MetaValue {
    if "chapter_id" in parts.extensions then parts.extensions["chapter_id"]
    else if "parent_id" in parts.promoted then parts.promoted["parent_id"]
    else Nothing
  }
}
