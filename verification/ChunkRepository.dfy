/**
  The transaction that stores a chunk and reads it back.

  The tables are sets of rows.  Saving replaces the rows of one chunk; when its text differs
  from the stored one, everything derived from the old text goes with it.
 */
module ChunkRepository {
  import opened Prelude
  import opened UuidText
  import opened OrderedRows
  import opened BlockMeta
  import opened Embeddings
  import opened EmbeddingStore
  import opened ChunkMapper

  datatype StoredRoot = StoredRoot(row: RootRow, statusId: Option<Id>, categoryId: Option<Id>)

  datatype TextRow = TextRow(text: string, digest: string, charCount: nat, blockMeta: Meta)

  datatype Tables = Tables(
    roots: map<Id, StoredRoot>,
    texts: map<Id, TextRow>,
    statusIds: map<string, Id>,
    categoryIds: map<string, Id>,
    statusOf: map<Id, Id>,
    categoryOf: map<Id, Id>,
    metrics: map<Id, MetricsRow>,
    feedback: map<Id, FeedbackRow>,
    tokens: set<TokenRow>,
    tags: set<TagRow>,
    links: set<LinkRow>,
    embeddings: Store)

  /** What the libraries supply: the text digest, ids for new rows and the clock. */
  datatype Library = Library(digest: string -> string, newStatus: Id, newCategory: Id, embedding: Supply)

  const NEEDS_REVIEW := "needs_review"
  const UNCATEGORIZED := "uncategorized"
  const RESET_KEYS: set<string> := {"category", "tags", "tags_flat", "summary", "title", "classification"}

  // ---------- the steps of a save ----------

  function StoredText(t: Tables, id: Id): string
    requires id in t.roots
  {
    if id in t.texts then t.texts[id].text else t.roots[id].row.text
  }

  predicate TextChanges(t: Tables, root: RootRow) {
    root.id in t.roots && StoredText(t, root.id) != root.text
  }

  function TextValue(s: string): MetaValue {
    Something(s, 0)
  }

  /** Metadata without what a machine derived from the text, marked for review. */
  function ResetMeta(meta: Meta): Meta {
    var kept := map k | k in meta && k !in RESET_KEYS :: meta[k];
    kept["status" := TextValue(NEEDS_REVIEW)]["category" := TextValue(UNCATEGORIZED)]
  }

  /** Rows with every derived part dropped; only root, links and stored metadata remain. */
  function ResetRows(rows: Rows): Rows {
    rows.(root := rows.root.(blockMeta := ResetMeta(rows.root.blockMeta)),
          metrics := None, feedback := None, tokens := [], tags := [], embeddings := [])
  }

  /** The root without its text; a stored root keeps its status and category. */
  function RootsUpserted(roots: map<Id, StoredRoot>, root: RootRow): map<Id, StoredRoot> {
    var bare := root.(text := "");
    roots[root.id := if root.id in roots then roots[root.id].(row := bare) else StoredRoot(bare, None, None)]
  }

  function TextRowOf(root: RootRow, digest: string -> string): TextRow {
    TextRow(root.text, digest(root.text), |root.text|, root.blockMeta)
  }

  /** The id of a dictionary word, entered first if it is missing. */
  function Entered(ids: map<string, Id>, word: string, id: Id): map<string, Id> {
    if word in ids then ids else ids[word := id]
  }

  function Marked(roots: map<Id, StoredRoot>, id: Id, status: Id, category: Id): map<Id, StoredRoot>
    requires id in roots
  {
    roots[id := roots[id].(statusId := Some(status), categoryId := Some(category))]
  }

  function MetricsReplaced(table: map<Id, MetricsRow>, id: Id, row: Option<MetricsRow>): map<Id, MetricsRow> {
    if row.Some? then table[id := row.value.(owner := id)] else table - {id}
  }

  /** Feedback is kept only beside metrics. */
  function FeedbackReplaced(table: map<Id, FeedbackRow>, id: Id, metrics: Option<MetricsRow>,
                            row: Option<FeedbackRow>): map<Id, FeedbackRow> {
    if metrics.Some? && row.Some? then table[id := row.value.(owner := id)] else table - {id}
  }

  function TokenOwner(row: TokenRow): Id { row.owner }

  function TagOwner(row: TagRow): Id { row.owner }

  function LinkOwner(row: LinkRow): Id { row.owner }

  /** The rows of one chunk exchanged for others. */
  function Replaced<T(==)>(table: set<T>, owner: T -> Id, id: Id, rows: seq<T>): set<T> {
    (set r | r in table && owner(r) != id) + (set r | r in rows)
  }

  function Mine<T(==)>(table: set<T>, owner: T -> Id, id: Id): set<T> {
    set r | r in table && owner(r) == id
  }

  function Supplies(n: nat, supply: Supply): (s: seq<Supply>)
    ensures |s| == n
  {
    seq(n, i => supply)
  }

  /** The rows a save writes. */
  function Effective(t: Tables, rows: Rows): Rows {
    if TextChanges(t, rows.root) then ResetRows(rows) else rows
  }

  function EmbeddingsSaved(s: Store, id: Id, payloads: seq<EmbeddingRow>, changed: bool, supply: Supply): Store {
    RecordedAll(if changed then WithoutChunk(s, id) else s, payloads, Supplies(|payloads|, supply))
  }

  /** Root and text written, and the chunk marked for review if its text changes. */
  function Prepared(t: Tables, root: RootRow, changed: bool, lib: Library): Tables {
    var roots := RootsUpserted(t.roots, root);
    var stored := t.(roots := roots, texts := t.texts[root.id := TextRowOf(root, lib.digest)]);
    if !changed then stored
    else
      var statusIds := Entered(t.statusIds, NEEDS_REVIEW, lib.newStatus);
      var categoryIds := Entered(t.categoryIds, UNCATEGORIZED, lib.newCategory);
      var status, category := statusIds[NEEDS_REVIEW], categoryIds[UNCATEGORIZED];
      stored.(roots := Marked(roots, root.id, status, category), statusIds := statusIds, categoryIds := categoryIds,
              statusOf := t.statusOf[root.id := status], categoryOf := t.categoryOf[root.id := category])
  }

  /** Metrics, children and embeddings exchanged. */
  function Exchanged(t: Tables, written: Rows, changed: bool, lib: Library): Tables {
    var id := written.root.id;
    t.(metrics := MetricsReplaced(t.metrics, id, written.metrics),
       feedback := FeedbackReplaced(t.feedback, id, written.metrics, written.feedback),
       tokens := Replaced(t.tokens, TokenOwner, id, written.tokens),
       tags := Replaced(t.tags, TagOwner, id, written.tags),
       links := Replaced(t.links, LinkOwner, id, written.links),
       embeddings := EmbeddingsSaved(t.embeddings, id, written.embeddings, changed, lib.embedding))
  }

  /** The tables after a save. */
  function Saved(t: Tables, rows: Rows, lib: Library): Tables {
    var changed, written := TextChanges(t, rows.root), Effective(t, rows);
    Exchanged(Prepared(t, written.root, changed, lib), written, changed, lib)
  }

  // ---------- reading ----------

  ghost predicate Lists<T>(rows: seq<T>, table: set<T>) {
    multiset(rows) == multiset(table)
  }

  function Found<V>(table: map<Id, V>, id: Id): Option<V> {
    if id in table then Some(table[id]) else None
  }

  function EmbeddingRows(s: Store, id: Id): set<EmbeddingRow> {
    set k | k in s && k.chunk == id :: RowOf(k, s[k])
  }

  /** The bundle is what the tables hold for the chunk; the order of child rows is left open. */
  ghost predicate Reads(t: Tables, id: Id, rows: Rows) {
    && id in t.roots
    && rows.root == t.roots[id].row.(text := StoredText(t, id))
    && rows.metrics == Found(t.metrics, id) && rows.feedback == Found(t.feedback, id)
    && Lists(rows.tokens, Mine(t.tokens, TokenOwner, id))
    && Lists(rows.tags, Mine(t.tags, TagOwner, id))
    && Lists(rows.links, Mine(t.links, LinkOwner, id))
    && Lists(rows.embeddings, EmbeddingRows(t.embeddings, id))
    && rows.blockMeta ==
       BlockMetaRow(id, Split(t.roots[id].row.blockMeta).promoted, Split(t.roots[id].row.blockMeta).extensions)
  }

  /** Rows sit under their own keys, and at most one rival embedding is active. */
  ghost predicate Valid(t: Tables) {
    && (forall id :: id in t.roots ==> t.roots[id].row.id == id)
    && (forall id :: id in t.metrics ==> t.metrics[id].owner == id)
    && (forall id :: id in t.feedback ==> t.feedback[id].owner == id)
    && OneActive(t.embeddings)
  }

  // ---------- what a save keeps ----------

  /** What a save makes of each table but the roots. */
  ghost predicate SavedAs(t: Tables, u: Tables, written: Rows, changed: bool, lib: Library) {
    var id := written.root.id;
    && u.texts == t.texts[id := TextRowOf(written.root, lib.digest)]
    && u.metrics == MetricsReplaced(t.metrics, id, written.metrics)
    && u.feedback == FeedbackReplaced(t.feedback, id, written.metrics, written.feedback)
    && u.tokens == Replaced(t.tokens, TokenOwner, id, written.tokens)
    && u.tags == Replaced(t.tags, TagOwner, id, written.tags)
    && u.links == Replaced(t.links, LinkOwner, id, written.links)
    && u.embeddings == EmbeddingsSaved(t.embeddings, id, written.embeddings, changed, lib.embedding)
  }

  /** What a save makes of the root and of the assignments of status and category. */
  ghost predicate RootSavedAs(t: Tables, u: Tables, root: RootRow, changed: bool) {
    && root.id in u.roots && u.roots[root.id].row == root.(text := "")
    && (forall id :: id != root.id ==>
          && Found(u.roots, id) == Found(t.roots, id)
          && Found(u.statusOf, id) == Found(t.statusOf, id)
          && Found(u.categoryOf, id) == Found(t.categoryOf, id))
    && (!changed ==>
          && u.statusOf == t.statusOf && u.categoryOf == t.categoryOf
          && (root.id in t.roots ==> u.roots[root.id] == t.roots[root.id].(row := root.(text := ""))))
  }

  lemma SaveWrites(t: Tables, rows: Rows, lib: Library)
    ensures SavedAs(t, Saved(t, rows, lib), Effective(t, rows), TextChanges(t, rows.root), lib)
    ensures RootSavedAs(t, Saved(t, rows, lib), Effective(t, rows).root, TextChanges(t, rows.root))
  {
  }

  lemma WritesKeepValid(t: Tables, u: Tables, written: Rows, changed: bool, lib: Library)
    requires Valid(t) && SavedAs(t, u, written, changed, lib) && RootSavedAs(t, u, written.root, changed)
    ensures Valid(u)
  {
    forall id | id in u.roots ensures u.roots[id].row.id == id {
      assert id != written.root.id ==> Found(u.roots, id) == Found(t.roots, id);
    }
    WithoutChunkKeepsOneActive(t.embeddings, written.root.id);
    PayloadsKeepOneActive(if changed then WithoutChunk(t.embeddings, written.root.id) else t.embeddings,
                          written.embeddings, Supplies(|written.embeddings|, lib.embedding));
  }

  lemma SavedKeepsValid(t: Tables, rows: Rows, lib: Library)
    requires Valid(t)
    ensures Valid(Saved(t, rows, lib))
  {
    SaveWrites(t, rows, lib);
    WritesKeepValid(t, Saved(t, rows, lib), Effective(t, rows), TextChanges(t, rows.root), lib);
  }

  /** Everything the tables hold about one chunk. */
  ghost predicate SameAggregate(t: Tables, u: Tables, id: Id) {
    && Found(u.roots, id) == Found(t.roots, id) && Found(u.texts, id) == Found(t.texts, id)
    && Found(u.statusOf, id) == Found(t.statusOf, id) && Found(u.categoryOf, id) == Found(t.categoryOf, id)
    && Found(u.metrics, id) == Found(t.metrics, id) && Found(u.feedback, id) == Found(t.feedback, id)
    && Mine(u.tokens, TokenOwner, id) == Mine(t.tokens, TokenOwner, id)
    && Mine(u.tags, TagOwner, id) == Mine(t.tags, TagOwner, id)
    && Mine(u.links, LinkOwner, id) == Mine(t.links, LinkOwner, id)
    && (forall k: Key :: k.chunk == id ==>
          (k in u.embeddings <==> k in t.embeddings) && (k in t.embeddings ==> u.embeddings[k] == t.embeddings[k]))
  }

  lemma WritesAreLocal(t: Tables, u: Tables, written: Rows, changed: bool, lib: Library, other: Id)
    requires Owned(written) && other != written.root.id
    requires SavedAs(t, u, written, changed, lib) && RootSavedAs(t, u, written.root, changed)
    ensures SameAggregate(t, u, other)
  {
    var base := if changed then WithoutChunk(t.embeddings, written.root.id) else t.embeddings;
    forall k: Key | k.chunk == other
      ensures k in u.embeddings <==> k in t.embeddings
      ensures k in t.embeddings ==> u.embeddings[k] == t.embeddings[k]
    {
      PayloadsAreLocal(base, written.embeddings, Supplies(|written.embeddings|, lib.embedding), k);
    }
  }

  /** Saving one chunk touches nothing that belongs to another. */
  lemma SaveIsLocal(t: Tables, rows: Rows, lib: Library, other: Id)
    requires Owned(rows) && other != rows.root.id
    ensures SameAggregate(t, Saved(t, rows, lib), other)
  {
    SaveWrites(t, rows, lib);
    WritesAreLocal(t, Saved(t, rows, lib), Effective(t, rows), TextChanges(t, rows.root), lib, other);
  }

  ghost predicate TextAgrees(u: Tables, id: Id, text: string, lib: Library) {
    && id in u.roots && id in u.texts && StoredText(u, id) == text && u.roots[id].row.text == ""
    && u.texts[id].digest == lib.digest(text)
    && u.texts[id].charCount == u.roots[id].row.charCount == |text|
    && u.texts[id].blockMeta == u.roots[id].row.blockMeta
  }

  lemma TextWrittenAgrees(t: Tables, u: Tables, written: Rows, changed: bool, lib: Library)
    requires SavedAs(t, u, written, changed, lib) && RootSavedAs(t, u, written.root, changed)
    requires written.root.charCount == |written.root.text|
    ensures TextAgrees(u, written.root.id, written.root.text, lib)
  {
  }

  /** After every save the stored text, its digest and both character counts agree, and the
      root keeps no copy of the text. */
  lemma SavedTextAgrees(t: Tables, rows: Rows, lib: Library)
    requires rows.root.charCount == |rows.root.text|
    ensures TextAgrees(Saved(t, rows, lib), rows.root.id, rows.root.text, lib)
  {
    SaveWrites(t, rows, lib);
    TextWrittenAgrees(t, Saved(t, rows, lib), Effective(t, rows), TextChanges(t, rows.root), lib);
  }

  /** Nothing derived from the replaced text remains, and the chunk waits for review. */
  ghost predicate Invalidated(u: Tables, id: Id) {
    && id !in u.metrics && id !in u.feedback
    && Mine(u.tokens, TokenOwner, id) == {} && Mine(u.tags, TagOwner, id) == {}
    && (forall k :: k in u.embeddings ==> k.chunk != id)
    && NEEDS_REVIEW in u.statusIds && UNCATEGORIZED in u.categoryIds && id in u.roots
    && u.roots[id].statusId == Found(u.statusOf, id) == Some(u.statusIds[NEEDS_REVIEW])
    && u.roots[id].categoryId == Found(u.categoryOf, id) == Some(u.categoryIds[UNCATEGORIZED])
  }

  /** The metadata loses the derived keys and is marked, with every other key as supplied. */
  ghost predicate MetaReset(stored: Meta, supplied: Meta) {
    && "status" in stored && stored["status"] == TextValue(NEEDS_REVIEW)
    && "category" in stored && stored["category"] == TextValue(UNCATEGORIZED)
    && "tags" !in stored && "tags_flat" !in stored && "summary" !in stored
    && "title" !in stored && "classification" !in stored
    && forall k :: k !in {"status", "category", "tags", "tags_flat", "summary", "title", "classification"} ==>
         (k in stored <==> k in supplied) && (k in supplied ==> stored[k] == supplied[k])
  }

  lemma ResetMetaResets(meta: Meta)
    ensures MetaReset(ResetMeta(meta), meta)
  {
    var kept := map k | k in meta && k !in RESET_KEYS :: meta[k];
    assert "tags" !in kept && "tags_flat" !in kept && "summary" !in kept;
    assert "title" !in kept && "classification" !in kept;
  }

  /** A save whose text differs from the stored one invalidates everything derived from it and
      keeps just the links of the new chunk. */
  lemma ChangedTextInvalidates(t: Tables, rows: Rows, lib: Library)
    requires Owned(rows) && TextChanges(t, rows.root)
    ensures Invalidated(Saved(t, rows, lib), rows.root.id)
    ensures MetaReset(Saved(t, rows, lib).roots[rows.root.id].row.blockMeta, rows.root.blockMeta)
    ensures Mine(Saved(t, rows, lib).links, LinkOwner, rows.root.id) == set r | r in rows.links
  {
    ResetMetaResets(rows.root.blockMeta);
    ChangedSaveClears(t, rows, lib);
  }

  lemma ChangedSaveClears(t: Tables, rows: Rows, lib: Library)
    requires TextChanges(t, rows.root)
    ensures Invalidated(Saved(t, rows, lib), rows.root.id)
  {
  }

  /** When a save counts as a change of text: the stored text is the text row's, and the root's
      only while there is no text row. */
  lemma TextChangesIff(t: Tables, root: RootRow)
    ensures TextChanges(t, root) <==>
      root.id in t.roots &&
      ((root.id in t.texts && t.texts[root.id].text != root.text) ||
       (root.id !in t.texts && t.roots[root.id].row.text != root.text))
  {
  }

  /** The dictionaries after a change of text: words keep their ids, and the two words a changed
      chunk is marked with are entered under the supplied ids if they were missing. */
  lemma MarkedByKnownWords(t: Tables, rows: Rows, lib: Library)
    requires TextChanges(t, rows.root)
    ensures var u := Saved(t, rows, lib);
      && u.statusIds.Keys == t.statusIds.Keys + {"needs_review"}
      && u.categoryIds.Keys == t.categoryIds.Keys + {"uncategorized"}
      && (forall word :: word in t.statusIds ==> u.statusIds[word] == t.statusIds[word])
      && (forall word :: word in t.categoryIds ==> u.categoryIds[word] == t.categoryIds[word])
      && ("needs_review" !in t.statusIds ==> u.statusIds["needs_review"] == lib.newStatus)
      && ("uncategorized" !in t.categoryIds ==> u.categoryIds["uncategorized"] == lib.newCategory)
      && u.roots[rows.root.id].statusId == Some(u.statusIds["needs_review"])
      && u.roots[rows.root.id].categoryId == Some(u.categoryIds["uncategorized"])
  {
  }

  /** A save that keeps the text changes no status, no category and no dictionary. */
  lemma KeptTextKeepsReview(t: Tables, rows: Rows, lib: Library)
    requires !TextChanges(t, rows.root)
    ensures var u, id := Saved(t, rows, lib), rows.root.id;
      && u.statusOf == t.statusOf && u.categoryOf == t.categoryOf
      && u.statusIds == t.statusIds && u.categoryIds == t.categoryIds
      && (id in t.roots ==>
            u.roots[id].statusId == t.roots[id].statusId && u.roots[id].categoryId == t.roots[id].categoryId)
      && (id !in t.roots ==> u.roots[id].statusId == None && u.roots[id].categoryId == None)
  {
  }

  /** What every save of an acceptable chunk establishes. */
  lemma SaveEstablishes(t: Tables, c: Chunk, how: Recording, lib: Library)
    requires Valid(t) && Flattened(c, how).Some?
    ensures var rows := Flattened(c, how).value;
      var u := Saved(t, rows, lib);
      && Valid(u) && TextAgrees(u, rows.root.id, c.body, lib)
      && (TextChanges(t, rows.root) ==> Invalidated(u, rows.root.id))
      && forall other :: other != rows.root.id ==> SameAggregate(t, u, other)
  {
    var rows := Flattened(c, how).value;
    FlattenedIsOwned(c, how);
    SavedKeepsValid(t, rows, lib);
    SavedTextAgrees(t, rows, lib);
    if TextChanges(t, rows.root) { ChangedTextInvalidates(t, rows, lib); }
    forall other | other != rows.root.id ensures SameAggregate(t, Saved(t, rows, lib), other) {
      SaveIsLocal(t, rows, lib, other);
    }
  }

  // ---------- what a save reads back ----------

  /** The chunk a save stores: without derived parts if its text changes. */
  function EffectiveChunk(c: Chunk, changed: bool): Chunk {
    if changed then
      c.(blockMeta := ResetMeta(c.blockMeta), metrics := None, tags := None, embedding := None, embeddingModel := None)
    else c
  }

  /** A chunk without what was derived from its text. */
  function Cleared(c: Chunk): Chunk {
    c.(blockMeta := ResetMeta(c.blockMeta), metrics := None, tags := None, tagsFlat := None,
       scoreAliases := NO_SCORES, feedbackAliases := NO_FEEDBACK)
  }

  /** The identities of the hierarchy are no derived metadata. */
  lemma ResetKeepsChapter(meta: Meta)
    ensures ChapterOf(Split(ResetMeta(meta))) == ChapterOf(Split(meta))
  {
    var reset := ResetMeta(meta);
    assert "chapter_id" !in RESET_KEYS && "parent_id" !in RESET_KEYS;
    assert "chapter_id" != "status" && "chapter_id" != "category" && "parent_id" != "status" && "parent_id" != "category";
    assert "chapter_id" in reset <==> "chapter_id" in meta;
    assert "parent_id" in reset <==> "parent_id" in meta;
  }

  lemma EffectiveRoot(c: Chunk, changed: bool)
    requires Root(c).Some?
    ensures var meta := if changed then ResetMeta(c.blockMeta) else c.blockMeta;
      Root(EffectiveChunk(c, changed)) == Some(Root(c).value.(blockMeta := meta))
  {
    ResetKeepsChapter(c.blockMeta);
  }

  ghost predicate Distinct<T>(rows: seq<T>) {
    forall i, j :: 0 <= i < j < |rows| ==> rows[i] != rows[j]
  }

  lemma {:induction false} SetOfDistinct<T>(rows: seq<T>)
    requires Distinct(rows)
    ensures multiset(set r | r in rows) == multiset(rows)
  {
    if rows != [] {
      SetOfDistinct(rows[1..]);
      assert rows == [rows[0]] + rows[1..];
      assert (set r | r in rows) == {rows[0]} + set r | r in rows[1..];
    } else {
      assert (set r | r in rows) == {};
    }
  }

  /** Rows written for a chunk are what is read for it. */
  lemma WrittenIsRead<T>(table: set<T>, owner: T -> Id, id: Id, rows: seq<T>, read: seq<T>)
    requires Distinct(rows) && forall r :: r in rows ==> owner(r) == id
    requires Lists(read, Mine(Replaced(table, owner, id, rows), owner, id))
    ensures multiset(read) == multiset(rows)
    ensures forall r :: r in read ==> r in rows
  {
    assert Mine(Replaced(table, owner, id, rows), owner, id) == set r | r in rows;
    SetOfDistinct(rows);
    forall r | r in read ensures r in rows { assert r in multiset(read); }
  }

  lemma RowsAreDistinct(c: Chunk, owner: Id, links: seq<Link>)
    ensures Distinct(TokensOf(c, owner)) && Distinct(TagRows(owner, OrEmpty(c.tags)))
    ensures Distinct(LinkRows(owner, links))
  {
    assert |TOKENS| != |BM25_TOKENS|;
  }

  lemma ReadOwnership(u: Tables, id: Id, read: Rows)
    requires Reads(u, id, read) && u.roots[id].row.id == id && (forall k :: k in u.feedback ==> u.feedback[k].owner == k)
    requires KnownKinds(read.tokens)
    ensures Owned(read)
  {
    forall r | r in read.tokens ensures r.owner == id { assert r in multiset(read.tokens); }
    forall r | r in read.tags ensures r.owner == id { assert r in multiset(read.tags); }
    forall r | r in read.links ensures r.owner == id { assert r in multiset(read.links); }
    forall r | r in read.embeddings ensures r.owner == id { assert r in multiset(read.embeddings); }
  }

  /** The written rows are the parts of the chunk. */
  ghost predicate PartsOf(e: Chunk, links: seq<Link>, written: Rows) {
    && Root(e) == Some(written.root) && ReadLinks(OrEmpty(e.links)) == Some(links)
    && written.metrics == MetricsOf(e, written.root.id) && written.feedback == FeedbackOf(e, written.root.id)
    && written.tokens == TokensOf(e, written.root.id) && written.tags == TagRows(written.root.id, OrEmpty(e.tags))
    && written.links == LinkRows(written.root.id, links) && written.root.blockMeta == e.blockMeta
  }

  /** What is written is the effective chunk. */
  lemma EffectiveRowsAre(t: Tables, c: Chunk, how: Recording)
    requires Flattened(c, how).Some?
    ensures var rows := Flattened(c, how).value;
      var e, written := EffectiveChunk(c, TextChanges(t, rows.root)), Effective(t, rows);
      && PartsOf(e, ReadLinks(OrEmpty(c.links)).value, written)
      && written.embeddings == EmbeddingsOf(e, rows.root.id, how) && written.root.id == rows.root.id
  {
    EffectiveRoot(c, TextChanges(t, Flattened(c, how).value.root));
  }

  lemma ChildrenAreRead(t: Tables, e: Chunk, links: seq<Link>, written: Rows, read: Rows)
    requires PartsOf(e, links, written)
    requires Lists(read.tokens,
                   Mine(Replaced(t.tokens, TokenOwner, written.root.id, written.tokens), TokenOwner, written.root.id))
    requires Lists(read.tags,
                   Mine(Replaced(t.tags, TagOwner, written.root.id, written.tags), TagOwner, written.root.id))
    requires Lists(read.links,
                   Mine(Replaced(t.links, LinkOwner, written.root.id, written.links), LinkOwner, written.root.id))
    ensures multiset(read.tokens) == multiset(written.tokens) && multiset(read.tags) == multiset(written.tags)
    ensures multiset(read.links) == multiset(written.links) && KnownKinds(read.tokens)
  {
    RowsAreDistinct(e, written.root.id, links);
    TokensAreOwned(e, written.root.id);
    WrittenIsRead(t.tokens, TokenOwner, written.root.id, written.tokens, read.tokens);
    WrittenIsRead(t.tags, TagOwner, written.root.id, written.tags, read.tags);
    WrittenIsRead(t.links, LinkOwner, written.root.id, written.links, read.links);
  }

  lemma SinglesAreRead(t: Tables, u: Tables, e: Chunk, links: seq<Link>, written: Rows, changed: bool, lib: Library,
                       read: Rows)
    requires SavedAs(t, u, written, changed, lib) && RootSavedAs(t, u, written.root, changed)
    requires PartsOf(e, links, written) && Reads(u, written.root.id, read)
    ensures read.root == written.root && read.metrics == written.metrics && read.feedback == written.feedback
    ensures Merge(read.blockMeta.promoted, read.blockMeta.extensions) == e.blockMeta
  {
    MergeSplit(e.blockMeta);
  }

  /** Tables that hold exactly the rows of one chunk read back as that chunk in normal form. */
  lemma HeldReadsBack(t: Tables, u: Tables, e: Chunk, links: seq<Link>, written: Rows, changed: bool, lib: Library,
                      read: Rows, request: Request)
    requires Valid(u) && SavedAs(t, u, written, changed, lib) && RootSavedAs(t, u, written.root, changed)
    requires PartsOf(e, links, written) && Reads(u, written.root.id, read)
    requires request.model.Some? == request.dimension.Some?
    ensures Rebuilt(read, request) == Some(WithEmbedding(Normal(e, false), Selected(read.embeddings, request)))
  {
    ChildrenAreRead(t, e, links, written, read);
    SinglesAreRead(t, u, e, links, written, changed, lib, read);
    ReadOwnership(u, written.root.id, read);
    PartsRebuildNormal(e, links, read, request);
  }

  /** The request a save reads back with. */
  function ReadBackRequest(rows: Rows): Request {
    if rows.embeddings == [] then Request(None, None)
    else Request(Some(rows.embeddings[0].model), Some(rows.embeddings[0].dimension))
  }

  lemma EffectiveNormal(c: Chunk, changed: bool)
    requires Root(c).Some? && ReadLinks(OrEmpty(c.links)).Some?
    ensures Root(EffectiveChunk(c, changed)).Some? && ReadLinks(OrEmpty(EffectiveChunk(c, changed).links)).Some?
    ensures Normal(EffectiveChunk(c, changed), false) ==
      if changed then Cleared(Normal(c, false)) else Normal(c, false)
  {
    EffectiveRoot(c, changed);
  }

  /** A saved chunk reads back in its normal form, cleared if its text changed, with the
      embedding chosen among the stored ones. */
  lemma SavedReadsBack(t: Tables, c: Chunk, how: Recording, lib: Library, read: Rows, request: Request)
    requires Valid(t) && Flattened(c, how).Some? && request.model.Some? == request.dimension.Some?
    requires Reads(Saved(t, Flattened(c, how).value, lib), Flattened(c, how).value.root.id, read)
    ensures var normal := Normal(c, false);
      Rebuilt(read, request) ==
        Some(WithEmbedding(if TextChanges(t, Flattened(c, how).value.root) then Cleared(normal) else normal,
                           Selected(read.embeddings, request)))
  {
    var rows := Flattened(c, how).value;
    var changed := TextChanges(t, rows.root);
    EffectiveRowsAre(t, c, how);
    SaveWrites(t, rows, lib);
    SavedKeepsValid(t, rows, lib);
    HeldReadsBack(t, Saved(t, rows, lib), EffectiveChunk(c, changed), ReadLinks(OrEmpty(c.links)).value,
                  Effective(t, rows), changed, lib, read, request);
    EffectiveNormal(c, changed);
  }

  lemma ListedEmbeddings(rows: seq<EmbeddingRow>, s: Store, id: Id)
    requires Lists(rows, EmbeddingRows(s, id))
    ensures EmbeddingStore.Lists(rows, s, id)
  {
    forall r | r in rows ensures exists k :: k in s && k.chunk == id && r == RowOf(k, s[k]) {
      assert r in multiset(rows);
      assert r in EmbeddingRows(s, id);
    }
    forall k | k in s && k.chunk == id ensures RowOf(k, s[k]) in rows {
      assert RowOf(k, s[k]) in EmbeddingRows(s, id);
      assert RowOf(k, s[k]) in multiset(rows);
    }
  }

  /** After a change of text no embedding is left to select. */
  lemma NothingToSelect(s: Store, id: Id, rows: seq<EmbeddingRow>)
    requires Lists(rows, EmbeddingRows(s, id)) && forall k :: k in s ==> k.chunk != id
    ensures rows == []
  {
    assert forall r :: r !in EmbeddingRows(s, id);
    assert multiset(EmbeddingRows(s, id)) == multiset([]);
    SameContentsSameLength(rows, []);
  }

  /** The active embedding just saved is the one selected. */
  lemma SavedEmbeddingIsSelected(s: Store, e: Chunk, id: Id, how: Recording, supply: Supply, rows: seq<EmbeddingRow>)
    requires OneActive(s) && e.embedding.Some? && e.embeddingModel.Some? && how.active
    requires Lists(rows, EmbeddingRows(EmbeddingsSaved(s, id, EmbeddingsOf(e, id, how), false, supply), id))
    ensures var r := Selected(rows, Request(e.embeddingModel, Some(|e.embedding.value|)));
      r.Some? && r.value.vector == e.embedding.value && r.value.model == e.embeddingModel.value
  {
    var payloads := EmbeddingsOf(e, id, how);
    var u := EmbeddingsSaved(s, id, payloads, false, supply);
    LastActiveWins(s, payloads, Supplies(1, supply));
    PayloadsKeepOneActive(s, payloads, Supplies(1, supply));
    ListedEmbeddings(rows, u, id);
    SelectedIsTheActive(rows, u, KeyOf(payloads[0]));
  }

  lemma ChangedTextLeavesNoEmbedding(t: Tables, rows: Rows, lib: Library, read: Rows)
    requires Owned(rows) && TextChanges(t, rows.root) && Reads(Saved(t, rows, lib), rows.root.id, read)
    ensures read.embeddings == []
  {
    ChangedTextInvalidates(t, rows, lib);
    NothingToSelect(Saved(t, rows, lib).embeddings, rows.root.id, read.embeddings);
  }

  lemma NothingSelected(c: Chunk, rows: seq<EmbeddingRow>)
    requires rows == [] && c.embedding == None && c.embeddingModel == None
    ensures WithEmbedding(c, Selected(rows, Request(None, None))) == c
  {
  }

  lemma KeptTextSelectsEmbedding(t: Tables, c: Chunk, how: Recording, lib: Library, read: Rows)
    requires Valid(t) && Flattened(c, how).Some? && !TextChanges(t, Flattened(c, how).value.root)
    requires c.embedding.Some? && how.active
    requires Reads(Saved(t, Flattened(c, how).value, lib), Flattened(c, how).value.root.id, read)
    ensures WithEmbedding(Normal(c, false), Selected(read.embeddings, ReadBackRequest(Flattened(c, how).value)))
      == Normal(c, true)
  {
    var rows := Flattened(c, how).value;
    SaveWrites(t, rows, lib);
    SavedEmbeddingIsSelected(t.embeddings, c, rows.root.id, how, lib.embedding, read.embeddings);
  }

  /** A save that changes the text returns the chunk without anything derived. */
  lemma ChangedSaveReturns(t: Tables, c: Chunk, how: Recording, lib: Library, read: Rows)
    requires Valid(t) && Flattened(c, how).Some? && TextChanges(t, Flattened(c, how).value.root)
    requires Reads(Saved(t, Flattened(c, how).value, lib), Flattened(c, how).value.root.id, read)
    ensures Rebuilt(read, Request(None, None)) == Some(Cleared(Normal(c, false)))
  {
    SavedReadsBack(t, c, how, lib, read, Request(None, None));
    FlattenedIsOwned(c, how);
    ChangedTextLeavesNoEmbedding(t, Flattened(c, how).value, lib, read);
    NothingSelected(Cleared(Normal(c, false)), read.embeddings);
  }

  /** A save that keeps the text, with an active embedding, returns the chunk in normal form. */
  lemma KeptSaveReturns(t: Tables, c: Chunk, how: Recording, lib: Library, read: Rows)
    requires Valid(t) && Flattened(c, how).Some? && !TextChanges(t, Flattened(c, how).value.root)
    requires c.embedding.Some? && how.active
    requires Reads(Saved(t, Flattened(c, how).value, lib), Flattened(c, how).value.root.id, read)
    ensures Rebuilt(read, ReadBackRequest(Flattened(c, how).value)) == Some(Normal(c, true))
  {
    SavedReadsBack(t, c, how, lib, read, ReadBackRequest(Flattened(c, how).value));
    KeptTextSelectsEmbedding(t, c, how, lib, read);
  }

  // ---------- the repository ----------

  method Listing<T>(table: set<T>) returns (rows: seq<T>)
    ensures Lists(rows, table)
  {
    rows := [];
    var rest := table;
    while rest != {}
      invariant rest <= table && multiset(rows) == multiset(table - rest)
      decreases |rest|
    {
      ghost var _ := AnyMember(rest);
      var r :| r in rest;
      assert table - (rest - {r}) == (table - rest) + {r};
      rows, rest := rows + [r], rest - {r};
    }
    assert table - rest == table;
  }

  class Repository {
    var tables: Tables

    constructor (tables: Tables)
      ensures this.tables == tables
    {
      this.tables := tables;
    }

    method UpsertRoot(root: RootRow)
      modifies this
      ensures tables == old(tables).(roots := RootsUpserted(old(tables).roots, root))
    {
      var bare := root.(text := "");
      if root.id in tables.roots {
        tables := tables.(roots := tables.roots[root.id := tables.roots[root.id].(row := bare)]);
      } else {
        tables := tables.(roots := tables.roots[root.id := StoredRoot(bare, None, None)]);
      }
    }

    method UpsertText(root: RootRow, digest: string -> string)
      modifies this
      ensures tables == old(tables).(texts := old(tables).texts[root.id := TextRowOf(root, digest)])
    {
      var row := TextRow(root.text, digest(root.text), |root.text|, root.blockMeta);
      tables := tables.(texts := tables.texts[root.id := row]);
    }

    method SetProcessingRequired(id: Id, lib: Library)
      requires id in tables.roots
      modifies this
      ensures var statusIds := Entered(old(tables).statusIds, NEEDS_REVIEW, lib.newStatus);
        var categoryIds := Entered(old(tables).categoryIds, UNCATEGORIZED, lib.newCategory);
        var status, category := statusIds[NEEDS_REVIEW], categoryIds[UNCATEGORIZED];
        tables == old(tables).(
          statusIds := statusIds, categoryIds := categoryIds,
          roots := Marked(old(tables).roots, id, status, category),
          statusOf := old(tables).statusOf[id := status], categoryOf := old(tables).categoryOf[id := category])
    {
      var statusIds, status := DictionaryId(tables.statusIds, NEEDS_REVIEW, lib.newStatus);
      tables := tables.(statusIds := statusIds);
      var categoryIds, category := DictionaryId(tables.categoryIds, UNCATEGORIZED, lib.newCategory);
      tables := tables.(categoryIds := categoryIds);
      tables := tables.(roots := Marked(tables.roots, id, status, category));
      tables := tables.(statusOf := tables.statusOf[id := status]);
      tables := tables.(categoryOf := tables.categoryOf[id := category]);
    }

    /** The id of a dictionary word, which is entered under the new id if it is missing. */
    method DictionaryId(ids: map<string, Id>, word: string, id: Id) returns (entered: map<string, Id>, found: Id)
      ensures entered == Entered(ids, word, id) && found == entered[word]
    {
      if word in ids { return ids, ids[word]; }
      return ids[word := id], id;
    }

    method ReplaceMetrics(id: Id, metrics: Option<MetricsRow>, feedback: Option<FeedbackRow>)
      modifies this
      ensures tables == old(tables).(
        metrics := MetricsReplaced(old(tables).metrics, id, metrics),
        feedback := FeedbackReplaced(old(tables).feedback, id, metrics, feedback))
    {
      if metrics == None {
        tables := tables.(feedback := tables.feedback - {id});
        tables := tables.(metrics := tables.metrics - {id});
        return;
      }
      tables := tables.(metrics := tables.metrics[id := metrics.value.(owner := id)]);
      if feedback == None {
        tables := tables.(feedback := tables.feedback - {id});
      } else {
        tables := tables.(feedback := tables.feedback[id := feedback.value.(owner := id)]);
      }
    }

    method ReplaceOrderedChildren(rows: Rows)
      modifies this
      ensures tables == old(tables).(
        tokens := Replaced(old(tables).tokens, TokenOwner, rows.root.id, rows.tokens),
        tags := Replaced(old(tables).tags, TagOwner, rows.root.id, rows.tags),
        links := Replaced(old(tables).links, LinkOwner, rows.root.id, rows.links))
    {
      var id := rows.root.id;
      var tokens := set r | r in tables.tokens && r.owner != id;
      var tags := set r | r in tables.tags && r.owner != id;
      var links := set r | r in tables.links && r.owner != id;
      tokens := tokens + (set r | r in rows.tokens);
      tags := tags + (set r | r in rows.tags);
      links := links + (set r | r in rows.links);
      assert tokens == Replaced(tables.tokens, TokenOwner, id, rows.tokens);
      assert tags == Replaced(tables.tags, TagOwner, id, rows.tags);
      assert links == Replaced(tables.links, LinkOwner, id, rows.links);
      tables := tables.(tokens := tokens, tags := tags, links := links);
    }

    method DeleteEmbeddings(id: Id)
      modifies this
      ensures tables == old(tables).(embeddings := WithoutChunk(old(tables).embeddings, id))
    {
      tables := tables.(embeddings := WithoutChunk(tables.embeddings, id));
    }

    method UpsertEmbeddings(payloads: seq<EmbeddingRow>, supplies: seq<Supply>)
      requires |supplies| == |payloads|
      modifies this
      ensures tables == old(tables).(embeddings := RecordedAll(old(tables).embeddings, payloads, supplies))
    {
      for i := 0 to |payloads|
        invariant tables == old(tables).(embeddings := RecordedAll(old(tables).embeddings, payloads[..i], supplies[..i]))
      {
        assert payloads[..i + 1][..i] == payloads[..i] && supplies[..i + 1][..i] == supplies[..i];
        var payload, k := payloads[i], KeyOf(payloads[i]);
        var s := tables.embeddings;
        if payload.active { s := Deactivated(s, k); }
        if k in s {
          var created := if payload.createdAt.Some? then payload.createdAt.value else s[k].createdAt;
          s := s[k := s[k].(vector := payload.vector, createdAt := created, active := payload.active)];
        } else {
          var created := if payload.createdAt.Some? then payload.createdAt.value else supplies[i].now;
          var id := if payload.id.Some? then payload.id.value else supplies[i].id;
          s := s[k := Body(id, payload.vector, created, payload.active)];
        }
        assert s == Recorded(tables.embeddings, payload, supplies[i]);
        tables := tables.(embeddings := s);
      }
      assert payloads[..|payloads|] == payloads && supplies[..|supplies|] == supplies;
    }

    method ReadRows(id: Id) returns (rows: Rows)
      requires id in tables.roots
      ensures Reads(tables, id, rows)
    {
      var tokens := Listing(Mine(tables.tokens, TokenOwner, id));
      var tags := Listing(Mine(tables.tags, TagOwner, id));
      var links := Listing(Mine(tables.links, LinkOwner, id));
      var embeddings := Listing(EmbeddingRows(tables.embeddings, id));
      var root := tables.roots[id].row;
      var parts := Split(root.blockMeta);
      rows := Rows(root.(text := StoredText(tables, id)), Found(tables.metrics, id), Found(tables.feedback, id),
                   tokens, tags, links, embeddings, BlockMetaRow(id, parts.promoted, parts.extensions));
    }

    method Prepare(root: RootRow, changed: bool, lib: Library)
      modifies this
      ensures tables == Prepared(old(tables), root, changed, lib)
    {
      UpsertRoot(root);
      UpsertText(root, lib.digest);
      if changed { SetProcessingRequired(root.id, lib); }
    }

    method Exchange(written: Rows, changed: bool, lib: Library)
      modifies this
      ensures tables == Exchanged(old(tables), written, changed, lib)
    {
      ReplaceMetrics(written.root.id, written.metrics, written.feedback);
      ReplaceOrderedChildren(written);
      if changed { DeleteEmbeddings(written.root.id); }
      UpsertEmbeddings(written.embeddings, Supplies(|written.embeddings|, lib.embedding));
    }

    /** The writes of a save. */
    method Write(rows: Rows, lib: Library) returns (written: Rows)
      modifies this
      ensures written == Effective(old(tables), rows) && tables == Saved(old(tables), rows, lib)
    {
      var changed := rows.root.id in tables.roots && StoredText(tables, rows.root.id) != rows.root.text;
      written := if changed then ResetRows(rows) else rows;
      Prepare(written.root, changed, lib);
      Exchange(written, changed, lib);
    }

    /** What is stored about a chunk, or nothing when there is none or its rows are inconsistent. */
    method GetByUuid(id: Id, request: Request) returns (r: Option<Chunk>)
      ensures id !in tables.roots ==> r == None
      ensures id in tables.roots ==> exists read :: Reads(tables, id, read) && r == Rebuilt(read, request)
    {
      if id !in tables.roots { return None; }
      var rows := ReadRows(id);
      r := FromRows(rows, request);
    }

    /** Store a chunk and return what is stored; an unacceptable chunk changes nothing. */
    method Save(c: Chunk, how: Recording, lib: Library) returns (r: Option<Chunk>)
      requires Valid(tables)
      modifies this
      ensures Valid(tables)
      ensures var flat := Flattened(c, how);
        if flat == None then r == None && tables == old(tables)
        else
          && tables == Saved(old(tables), flat.value, lib)
          && TextAgrees(tables, flat.value.root.id, c.body, lib)
          && (TextChanges(old(tables), flat.value.root) ==> Invalidated(tables, flat.value.root.id))
          && (forall other :: other != flat.value.root.id ==> SameAggregate(old(tables), tables, other))
          && (exists read :: Reads(tables, flat.value.root.id, read)
                && r == Rebuilt(read, ReadBackRequest(Effective(old(tables), flat.value))))
          && (if TextChanges(old(tables), flat.value.root) then r == Some(Cleared(Normal(c, false)))
              else c.embedding.Some? && how.active ==> r == Some(Normal(c, true)))
    {
      var flat := ToRows(c, how);
      if flat == None { return None; }
      var rows := flat.value;
      var written := Write(rows, lib);
      SaveEstablishes(old(tables), c, how, lib);
      var stored := ReadRows(rows.root.id);
      ghost var changed := TextChanges(old(tables), rows.root);
      r := FromRows(stored, ReadBackRequest(written));
      if changed {
        ChangedSaveReturns(old(tables), c, how, lib, stored);
      } else if c.embedding.Some? && how.active {
        KeptSaveReturns(old(tables), c, how, lib, stored);
      }
    }
  }
}
