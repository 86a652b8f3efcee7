/**
  The document hierarchy, the registry that mirrors it and the runs that point into it.

  Deleting a row cascades over the hierarchy's foreign keys, unregisters every removed row
  and lets go of every run's reference to one, each through the guard on runs.
 */
module DocumentStore {
  import opened Prelude
  import opened ObjectRegistry
  import Runs = ProcessingRuns

  datatype Key = Key(table: Table, id: Uuid)

  /** The cascading references of a row; rows of the other tables have none. */
  datatype Row =
    | RootRow
    | ChapterRow(document: Uuid)
    | ParagraphRow(document: Uuid, chapter: Uuid)
    | ChunkRow(document: Uuid, paragraph: Uuid, chapter: Uuid)

  datatype Store = Store(rows: map<Key, Row>, registry: map<Uuid, Entry>, runs: map<Uuid, Runs.Run>)

  function Parents(r: Row): set<Key> {
    match r
    case RootRow => {}
    case ChapterRow(d) => {Key(Documents, d)}
    case ParagraphRow(d, c) => {Key(Documents, d), Key(Chapters, c)}
    case ChunkRow(d, p, c) => {Key(Documents, d), Key(Paragraphs, p), Key(Chapters, c)}
  }

  predicate Shaped(k: Key, r: Row) {
    match r
    case RootRow => k.table !in {Chapters, Paragraphs, SemanticChunks}
    case ChapterRow(_) => k.table == Chapters
    case ParagraphRow(_, _) => k.table == Paragraphs
    case ChunkRow(_, _, _) => k.table == SemanticChunks
  }

  function Depth(t: Table): nat {
    match t
    case SemanticChunks => 3
    case Paragraphs => 2
    case Chapters => 1
    case _ => 0
  }

  // ---------- scope references of runs ----------

  predicate Names(ref: Option<Uuid>, t: Table, gone: set<Key>) {
    ref.Some? && Key(t, ref.value) in gone
  }

  predicate PointsInto(r: Runs.Run, gone: set<Key>) {
    || Names(r.scope.documentId, Documents, gone)
    || Names(r.scope.chapterId, Chapters, gone)
    || Names(r.scope.chunkId, SemanticChunks, gone)
  }

  function Kept(ref: Option<Uuid>, t: Table, gone: set<Key>): Option<Uuid> {
    if Names(ref, t, gone) then None else ref
  }

  /** The run without its references into `gone`. */
  function Release(r: Runs.Run, gone: set<Key>): Runs.Run {
    r.(scope := Runs.Scope(Kept(r.scope.documentId, Documents, gone),
                           Kept(r.scope.chapterId, Chapters, gone),
                           Kept(r.scope.chunkId, SemanticChunks, gone)))
  }

  predicate RunReferences(rows: map<Key, Row>, r: Runs.Run) {
    && (r.scope.documentId.Some? ==> Key(Documents, r.scope.documentId.value) in rows)
    && (r.scope.chapterId.Some? ==> Key(Chapters, r.scope.chapterId.value) in rows)
    && (r.scope.chunkId.Some? ==> Key(SemanticChunks, r.scope.chunkId.value) in rows)
  }

  // ---------- the invariant ----------

  /** A row of a typed table is registered to exactly that table, and nothing else is. */
  ghost predicate Registered(s: Store) {
    && (forall t, id :: Key(t, id) in s.rows <==> id in s.registry && s.registry[id].table == t)
    && (forall id :: id in s.registry ==> Allowlisted(s.registry[id]))
  }

  /** The rows' ids by table, as the registry migration reads them. */
  function IdsByTable(rows: map<Key, Row>): (tables: map<Table, set<Uuid>>)
    ensures forall t :: t in ENTITY_TABLES ==> t in tables
    ensures forall t, id :: t in ENTITY_TABLES ==> (id in tables[t] <==> Key(t, id) in rows)
  {
    var tables := map t | t in ENTITY_TABLES :: set k | k in rows && k.table == t :: k.id;
    assert forall t, id :: Key(t, id) in rows ==> Key(t, id).table == t && Key(t, id).id == id;
    tables
  }

  lemma ClaimedTwiceIff(rows: map<Key, Row>, id: Uuid)
    requires forall k :: k in rows ==> k.table in ENTITY_TABLES
    ensures ClaimedTwice(IdsByTable(rows), id) <==> exists j, k :: j in rows && k in rows && j != k && j.id == id && k.id == id
  {
    var tables := IdsByTable(rows);
    if i, j :| 0 <= i < j < |ENTITY_TABLES| && id in tables[ENTITY_TABLES[i]] && id in tables[ENTITY_TABLES[j]] {
      assert Key(ENTITY_TABLES[i], id) in rows && Key(ENTITY_TABLES[j], id) in rows;
    }
    if j, k :| j in rows && k in rows && j != k && j.id == id && k.id == id {
      assert j == Key(j.table, id) && k == Key(k.table, id);
      var a :| 0 <= a < |ENTITY_TABLES| && ENTITY_TABLES[a] == j.table;
      var b :| 0 <= b < |ENTITY_TABLES| && ENTITY_TABLES[b] == k.table;
      assert id in tables[ENTITY_TABLES[a]] && id in tables[ENTITY_TABLES[b]];
    }
  }

  ghost predicate Locates(rows: map<Key, Row>, locators: map<Uuid, Table>) {
    forall t, id :: (id in locators && locators[id] == t) <==> Key(t, id) in rows
  }

  lemma AlignedIsRegistered(rows: map<Key, Row>, locators: map<Uuid, Table>, s: Store)
    requires Locates(rows, locators) && s.rows == rows && s.registry.Keys == locators.Keys
    requires forall id :: id in locators ==> s.registry[id].table == locators[id] && Allowlisted(s.registry[id])
    ensures Registered(s)
  {
    forall t, id ensures Key(t, id) in s.rows <==> id in s.registry && s.registry[id].table == t {
      assert (id in locators && locators[id] == t) <==> Key(t, id) in rows;
    }
  }

  /** From the legacy tables to the run-time registry: creation, then alignment.  It fails exactly
      when two tables claim one id, and otherwise every row is registered to its table with its
      table's kind, and nothing else is. */
  method MigrateRegistry(rows: map<Key, Row>, runs: map<Uuid, Runs.Run>) returns (r: Option<Store>)
    requires forall k :: k in rows ==> k.table in ENTITY_TABLES
    ensures r.None? <==> exists j, k :: j in rows && k in rows && j != k && j.id == k.id
    ensures r.Some? ==> r.value.rows == rows && r.value.runs == runs && Registered(r.value)
  {
    var tables := IdsByTable(rows);
    forall id ensures ClaimedTwice(tables, id) <==> exists j, k :: j in rows && k in rows && j != k && j.id == id && k.id == id {
      ClaimedTwiceIff(rows, id);
    }
    var created := CreateRegistry(tables);
    if created.Conflicts? {
      return None;
    }
    forall t, id ensures (id in created.locators && created.locators[id] == t) <==> Key(t, id) in rows {
      if Key(t, id) in rows { assert Key(t, id).table in ENTITY_TABLES; }
    }
    assert forall id :: id in created.locators ==> created.locators[id] in ENTITY_TABLES;
    var aligned := AlignKinds(created.locators);
    var store := Store(rows, aligned.entries, runs);
    AlignedIsRegistered(rows, created.locators, store);
    return Some(store);
  }

  ghost predicate RowsLinked(rows: map<Key, Row>) {
    forall k :: k in rows ==> Shaped(k, rows[k]) && Parents(rows[k]) <= rows.Keys
  }

  ghost predicate Linked(s: Store) {
    && RowsLinked(s.rows)
    && (forall i :: i in s.runs ==> RunReferences(s.rows, s.runs[i]))
  }

  ghost predicate Valid(s: Store) {
    && Registered(s) && Linked(s)
    && (forall i :: i in s.runs ==> s.runs[i].audit.runId == i && Runs.RunConstraints(s.runs[i]))
  }

  // ---------- what a delete takes ----------

  /** The row is the root or hangs from a row that is reached. */
  ghost predicate Reached(rows: map<Key, Row>, root: Key, k: Key)
    requires RowsLinked(rows)
    decreases Depth(k.table)
  {
    k == root || (k in rows && exists p :: p in Parents(rows[k]) && Reached(rows, root, p))
  }

  ghost function Closure(s: Store, root: Key): set<Key>
    requires Linked(s)
  {
    set k | k in s.rows && Reached(s.rows, root, k)
  }

  /** The closure goes, its ids are unregistered and every run lets go of it. */
  ghost function Deleted(s: Store, root: Key): Store
    requires Linked(s)
  {
    if root !in s.rows then s
    else
      var gone := Closure(s, root);
      Store(s.rows - gone,
            map id | id in s.registry && Key(s.registry[id].table, id) !in gone :: s.registry[id],
            map i | i in s.runs :: Release(s.runs[i], gone))
  }

  /** In a valid store every key of every row names a row, column by column. */
  lemma RowsDangleNowhere(s: Store, k: Key)
    requires Valid(s) && k in s.rows
    ensures s.rows[k].ChapterRow? ==> Key(Documents, s.rows[k].document) in s.rows
    ensures s.rows[k].ParagraphRow? ==>
      Key(Documents, s.rows[k].document) in s.rows && Key(Chapters, s.rows[k].chapter) in s.rows
    ensures s.rows[k].ChunkRow? ==>
      && Key(Documents, s.rows[k].document) in s.rows
      && Key(Paragraphs, s.rows[k].paragraph) in s.rows
      && Key(Chapters, s.rows[k].chapter) in s.rows
    ensures k.table == Chapters <==> s.rows[k].ChapterRow?
    ensures k.table == Paragraphs <==> s.rows[k].ParagraphRow?
    ensures k.table == SemanticChunks <==> s.rows[k].ChunkRow?
  {
    assert Parents(s.rows[k]) <= s.rows.Keys;
    match s.rows[k]
    case RootRow =>
    case ChapterRow(d) => assert Key(Documents, d) in Parents(s.rows[k]);
    case ParagraphRow(d, c) => assert Key(Documents, d) in Parents(s.rows[k]) && Key(Chapters, c) in Parents(s.rows[k]);
    case ChunkRow(d, p, c) =>
      assert Key(Documents, d) in Parents(s.rows[k]) && Key(Paragraphs, p) in Parents(s.rows[k]);
      assert Key(Chapters, c) in Parents(s.rows[k]);
  }

  /** And every reference of every run. */
  lemma RunsDangleNowhere(s: Store, i: Uuid)
    requires Valid(s) && i in s.runs
    ensures s.runs[i].scope.documentId.Some? ==> Key(Documents, s.runs[i].scope.documentId.value) in s.rows
    ensures s.runs[i].scope.chapterId.Some? ==> Key(Chapters, s.runs[i].scope.chapterId.value) in s.rows
    ensures s.runs[i].scope.chunkId.Some? ==> Key(SemanticChunks, s.runs[i].scope.chunkId.value) in s.rows
  {
    assert RunReferences(s.rows, s.runs[i]);
  }

  /** A row that was there and is there no longer. */
  predicate Gone(before: map<Key, Row>, after: map<Key, Row>, t: Table, id: Uuid) {
    Key(t, id) in before && Key(t, id) !in after
  }

  /** One of the row's own columns names a row that is gone. */
  predicate NamesGone(r: Row, before: map<Key, Row>, after: map<Key, Row>) {
    || (r.ChapterRow? && Gone(before, after, Documents, r.document))
    || (r.ParagraphRow? && (Gone(before, after, Documents, r.document) || Gone(before, after, Chapters, r.chapter)))
    || (r.ChunkRow? && (Gone(before, after, Documents, r.document) || Gone(before, after, Paragraphs, r.paragraph)
                        || Gone(before, after, Chapters, r.chapter)))
  }

  /** Besides the root a delete takes exactly the rows that name, in a column of theirs, a row
      it takes; what stays is as it was. */
  lemma DeletedRowsByColumn(s: Store, root: Key, k: Key)
    requires Valid(s) && root in s.rows
    ensures var after := Deleted(s, root).rows;
      && root !in after
      && (k in after ==> k in s.rows && after[k] == s.rows[k])
      && (k in s.rows && k != root ==> (k !in after <==> NamesGone(s.rows[k], s.rows, after)))
  {
    var after := Deleted(s, root).rows;
    assert root in Closure(s, root);
    if k in s.rows && k != root {
      RowsDangleNowhere(s, k);
      if k !in after {
        var p :| p in Parents(s.rows[k]) && Reached(s.rows, root, p);
        assert p in s.rows && p in Closure(s, root) && p == Key(p.table, p.id);
      }
      if NamesGone(s.rows[k], s.rows, after) {
        assert exists p :: p in Parents(s.rows[k]) && p in Closure(s, root);
      }
    }
  }

  lemma ClosureIsClosed(s: Store, root: Key, k: Key)
    requires Linked(s) && k in s.rows && k !in Closure(s, root)
    ensures Parents(s.rows[k]) <= s.rows.Keys - Closure(s, root)
  {
    forall p | p in Parents(s.rows[k]) ensures p in s.rows && p !in Closure(s, root) {
      assert p in s.rows;
    }
  }

  lemma DeletedKeepsRegistered(s: Store, root: Key)
    requires Linked(s) && Registered(s)
    ensures Registered(Deleted(s, root))
  {
  }

  lemma DeletedKeepsLinked(s: Store, root: Key)
    requires Linked(s)
    ensures Linked(Deleted(s, root))
  {
    if root in s.rows {
      var gone, after := Closure(s, root), Deleted(s, root);
      forall k | k in after.rows
        ensures Shaped(k, after.rows[k]) && Parents(after.rows[k]) <= after.rows.Keys
      {
        ClosureIsClosed(s, root, k);
      }
    }
  }

  /** Deleting a row keeps the registry exact, leaves nothing dangling and keeps every run
      with all of its columns except references into the closure. */
  lemma DeletedKeepsValid(s: Store, root: Key)
    requires Valid(s)
    ensures Valid(Deleted(s, root))
    ensures Deleted(s, root).runs.Keys == s.runs.Keys
    ensures forall i :: i in s.runs ==> Runs.ReleasesOnly(s.runs[i], Deleted(s, root).runs[i])
    ensures forall i :: i in s.runs ==> Runs.Accepted(s.runs[i], Deleted(s, root).runs[i])
  {
    DeletedKeepsRegistered(s, root);
    DeletedKeepsLinked(s, root);
  }
}
