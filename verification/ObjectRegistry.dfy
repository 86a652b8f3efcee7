/**
  The object registry: one UUID, one kind, one typed table.

  Covers the staging migration that creates the registry from the legacy tables, the
  migration that adds the kind column, and the trigger that registers a new row.
 */
module ObjectRegistry {
  import opened Prelude

  /** The typed tables of the allowlist, plus any table the allowlist does not name. */
  datatype Table =
    | Documents | Chapters | Paragraphs | SemanticChunks | Files | ContentAttachments | Projects
    | ChunkTypes | ChunkRoles | ChunkStatuses | BlockTypes | Languages | Categories
    | Unlisted(name: string)

  datatype ObjectKind =
    | Document | Chapter | Paragraph | SemanticChunk | File | ContentAttachment | Project
    | ChunkType | ChunkRole | ChunkStatus | BlockType | Language | Category

  datatype Entry = Entry(kind: ObjectKind, table: Table)

  function KindOf(t: Table): Option<ObjectKind> {
    match t
    case Documents => Some(Document)
    case Chapters => Some(Chapter)
    case Paragraphs => Some(Paragraph)
    case SemanticChunks => Some(SemanticChunk)
    case Files => Some(File)
    case ContentAttachments => Some(ContentAttachment)
    case Projects => Some(Project)
    case ChunkTypes => Some(ChunkType)
    case ChunkRoles => Some(ChunkRole)
    case ChunkStatuses => Some(ChunkStatus)
    case BlockTypes => Some(BlockType)
    case Languages => Some(Language)
    case Categories => Some(Category)
    case Unlisted(_) => None
  }

  /** The two allowlist checks on a registry row. */
  predicate Allowlisted(e: Entry) {
    KindOf(e.table) == Some(e.kind)
  }

  /** The allowlist, entry by entry. */
  lemma AllowlistByTable(e: Entry)
    ensures Allowlisted(e) <==>
      || (e.table == Documents && e.kind == Document)
      || (e.table == Chapters && e.kind == Chapter)
      || (e.table == Paragraphs && e.kind == Paragraph)
      || (e.table == SemanticChunks && e.kind == ObjectKind.SemanticChunk)
      || (e.table == Files && e.kind == File)
      || (e.table == ContentAttachments && e.kind == ObjectKind.ContentAttachment)
      || (e.table == Projects && e.kind == Project)
      || (e.table == ChunkTypes && e.kind == ChunkType)
      || (e.table == ChunkRoles && e.kind == ChunkRole)
      || (e.table == ChunkStatuses && e.kind == ChunkStatus)
      || (e.table == BlockTypes && e.kind == BlockType)
      || (e.table == Languages && e.kind == Language)
      || (e.table == Categories && e.kind == Category)
  {
  }

  // ---------- creating the registry from the legacy tables ----------

  const ENTITY_TABLES: seq<Table> := [Documents, Chapters, Paragraphs, SemanticChunks]

  lemma EntityTablesByName(t: Table)
    ensures t in ENTITY_TABLES <==> t == Documents || t == Chapters || t == Paragraphs || t == SemanticChunks
  {
    assert ENTITY_TABLES[0] == Documents && ENTITY_TABLES[1] == Chapters;
    assert ENTITY_TABLES[2] == Paragraphs && ENTITY_TABLES[3] == SemanticChunks;
  }

  datatype Creation = Conflicts(ids: set<Uuid>) | Created(locators: map<Uuid, Table>)

  ghost predicate ClaimedTwice(tables: map<Table, set<Uuid>>, id: Uuid)
    requires forall t :: t in ENTITY_TABLES ==> t in tables
  {
    exists i, j :: 0 <= i < j < |ENTITY_TABLES| && id in tables[ENTITY_TABLES[i]] && id in tables[ENTITY_TABLES[j]]
  }

  /** The preflight passes exactly when no id is claimed by two tables, and reports every
      such id.  The backfill then is the tagged union of the tables. */
  method CreateRegistry(tables: map<Table, set<Uuid>>) returns (r: Creation)
    requires forall t :: t in ENTITY_TABLES ==> t in tables
    ensures r.Created? <==> forall id :: !ClaimedTwice(tables, id)
    ensures r.Conflicts? ==> forall id :: id in r.ids <==> ClaimedTwice(tables, id)
    ensures r.Created? ==> forall id, t ::
      (id in r.locators && r.locators[id] == t) <==> (t in ENTITY_TABLES && id in tables[t])
  {
    var seen: set<Uuid>, duplicates: set<Uuid> := {}, {};
    for k := 0 to |ENTITY_TABLES|
      invariant forall id :: id in seen <==> exists i :: 0 <= i < k && id in tables[ENTITY_TABLES[i]]
      invariant forall id :: id in duplicates <==>
        exists i, j :: 0 <= i < j < k && id in tables[ENTITY_TABLES[i]] && id in tables[ENTITY_TABLES[j]]
    {
      duplicates := duplicates + seen * tables[ENTITY_TABLES[k]];
      seen := seen + tables[ENTITY_TABLES[k]];
    }
    assert forall id :: id in duplicates <==> ClaimedTwice(tables, id);
    if duplicates != {} {
      ghost var id := AnyMember(duplicates);
      assert ClaimedTwice(tables, id);
      return Conflicts(duplicates);
    }

    var locators: map<Uuid, Table> := map[];
    for k := 0 to |ENTITY_TABLES|
      invariant forall id :: id in locators <==> exists i :: 0 <= i < k && id in tables[ENTITY_TABLES[i]]
      invariant forall id, i :: 0 <= i < k && id in tables[ENTITY_TABLES[i]] ==> locators[id] == ENTITY_TABLES[i]
    {
      var table := ENTITY_TABLES[k];
      forall id | id in tables[table] ensures id !in locators {
        assert !ClaimedTwice(tables, id);
      }
      locators := locators + map id | id in tables[table] && id !in locators :: table;
    }
    return Created(locators);
  }

  // ---------- adding the kind column ----------

  datatype Alignment = UnknownLocators(tables: set<Table>) | Aligned(entries: map<Uuid, Entry>)

  /** All or nothing: a locator outside the allowlist refuses the whole migration. */
  method AlignKinds(locators: map<Uuid, Table>) returns (r: Alignment)
    ensures r.Aligned? <==> forall id :: id in locators ==> KindOf(locators[id]).Some?
    ensures r.UnknownLocators? ==>
      forall t :: t in r.tables <==> KindOf(t).None? && exists id :: id in locators && locators[id] == t
    ensures r.Aligned? ==> r.entries.Keys == locators.Keys
    ensures r.Aligned? ==>
      forall id :: id in locators ==> r.entries[id].table == locators[id] && Allowlisted(r.entries[id])
  {
    var unknown := set id | id in locators && KindOf(locators[id]).None? :: locators[id];
    assert forall id :: id in locators && KindOf(locators[id]).None? ==> locators[id] in unknown;
    if unknown != {} {
      ghost var t := AnyMember(unknown);
      return UnknownLocators(unknown);
    }
    var entries := map id | id in locators :: Entry(KindOf(locators[id]).value, locators[id]);
    return Aligned(entries);
  }

  // ---------- the registration triggers ----------

  /** Registering a new row: refused for a table without a kind and for an id already registered. */
  method RegisterTrigger(registry: map<Uuid, Entry>, table: Table, id: Uuid) returns (r: Option<map<Uuid, Entry>>)
    ensures r.Some? <==> KindOf(table).Some? && id !in registry
    ensures r.Some? ==> r.value == registry[id := Entry(KindOf(table).value, table)] && Allowlisted(r.value[id])
  {
    var newKind := KindOf(table);
    if newKind.None? {
      return None;
    }
    if id in registry {
      return None;
    }
    return Some(registry[id := Entry(newKind.value, table)]);
  }

  /** Unregistering names both the table and the id, so it never removes another table's entry. */
  function UnregisterTrigger(registry: map<Uuid, Entry>, table: Table, id: Uuid): map<Uuid, Entry> {
    if id in registry && registry[id].table == table then registry - {id} else registry
  }
}
