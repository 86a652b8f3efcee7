/**
  The mapping between a chunk and its rows.

  A chunk is flattened into a root row, ordered child rows and a metadata row, and rebuilt
  from them.  Rebuilding gives the chunk in its normal form, in whatever order the child
  rows come back.
 */
module ChunkMapper {
  import opened Prelude
  import opened UuidText
  import opened OrderedRows
  import opened BlockMeta
  import opened Embeddings

  // ---------- chunks ----------

  datatype Scores = Scores(
    quality: Option<real>,
    coverage: Option<real>,
    cohesion: Option<real>,
    boundaryPrev: Option<real>,
    boundaryNext: Option<real>,
    usedInGeneration: Option<bool>)

  datatype Feedback = Feedback(accepted: Option<int>, rejected: Option<int>, modifications: Option<int>)

  datatype Metrics = Metrics(
    scores: Scores,
    matches: Option<int>,
    usedAsInput: Option<bool>,
    usedAsContext: Option<bool>,
    feedback: Option<Feedback>,
    tokens: Option<seq<string>>,
    bm25Tokens: Option<seq<string>>)

  /** A chunk as it is serialised, with the compatibility aliases it carries beside the originals. */
  datatype Chunk = Chunk(
    uuid: string,
    sourceId: string,
    blockId: string,
    kind: Option<string>,
    body: string,
    text: string,
    ordinal: int,
    start: Option<int>,
    end: Option<int>,
    score: Option<real>,
    blockMeta: Meta,
    tags: Option<seq<string>>,
    tagsFlat: Option<string>,
    links: Option<seq<string>>,
    linkRelated: Option<string>,
    linkParent: Option<string>,
    metrics: Option<Metrics>,
    scoreAliases: Scores,
    feedbackAliases: Feedback,
    embedding: Option<seq<real>>,
    embeddingModel: Option<string>)

  const NO_SCORES := Scores(None, None, None, None, None, None)
  const NO_FEEDBACK := Feedback(None, None, None)

  // ---------- rows ----------

  datatype RootRow = RootRow(
    id: Id,
    documentId: Id,
    paragraphId: Id,
    chapterId: Id,
    orderIndex: int,
    text: string,
    sourceStart: int,
    sourceEnd: int,
    charCount: nat,
    chunkType: Option<string>,
    score: Option<real>,
    searchWeight: int,
    blockMeta: Meta)

  datatype MetricsRow = MetricsRow(
    owner: Id, scores: Scores, matches: Option<int>, usedAsInput: Option<bool>, usedAsContext: Option<bool>)

  datatype FeedbackRow = FeedbackRow(owner: Id, counts: Feedback)

  datatype TokenRow = TokenRow(owner: Id, kind: string, ordinal: int, value: string)

  datatype TagRow = TagRow(owner: Id, ordinal: int, value: string)

  datatype LinkRow = LinkRow(owner: Id, relation: string, target: Id, ordinal: int)

  datatype BlockMetaRow = BlockMetaRow(owner: Id, promoted: Meta, extensions: Meta)

  datatype Rows = Rows(
    root: RootRow,
    metrics: Option<MetricsRow>,
    feedback: Option<FeedbackRow>,
    tokens: seq<TokenRow>,
    tags: seq<TagRow>,
    links: seq<LinkRow>,
    embeddings: seq<EmbeddingRow>,
    blockMeta: BlockMetaRow)

  /** How a supplied embedding is recorded. */
  datatype Recording = Recording(provider: string, modelVersion: string, createdAt: Option<Instant>, active: bool)

  const TOKENS := "tokens"
  const BM25_TOKENS := "bm25_tokens"

  // ---------- links ----------

  datatype Link = Link(relation: string, target: Id)

  function ColonAt(t: string): (i: nat)
    ensures i <= |t| && (i < |t| ==> t[i] == ':') && forall k :: 0 <= k < i ==> t[k] != ':'
  {
    if t == "" || t[0] == ':' then 0 else 1 + ColonAt(t[1..])
  }

  /** `relation:uuid`, split at the first colon. */
  function ReadLink(t: string): Option<Link> {
    var i := ColonAt(t);
    if i == |t| then None
    else
      match Read(t[i + 1..])
      case None => None
      case Some(target) => Some(Link(t[..i], target))
  }

  function ShowLink(link: Link): string {
    link.relation + ":" + Show(link.target)
  }

  lemma ReadShownLink(t: string)
    requires ReadLink(t).Some?
    ensures ReadLink(ShowLink(ReadLink(t).value)) == ReadLink(t)
  {
    var link := ReadLink(t).value;
    ReadShown(link.target);
    var u := ShowLink(link);
    var i := |link.relation|;
    assert u[i] == ':' && u[..i] == link.relation && u[i + 1..] == Show(link.target);
    assert forall k :: 0 <= k < i ==> u[k] == t[k];
    assert ColonAt(u) == i;
  }

  function ReadLinks(links: seq<string>): (r: Option<seq<Link>>)
    ensures r.Some? ==> |r.value| == |links|
  {
    if links == [] then Some([])
    else
      var n := |links| - 1;
      match (ReadLinks(links[..n]), ReadLink(links[n]))
      case (Some(first), Some(last)) => Some(first + [last])
      case _ => None
  }

  function ShowLinks(links: seq<Link>): (texts: seq<string>)
    ensures |texts| == |links|
  {
    if links == [] then [] else ShowLinks(links[..|links| - 1]) + [ShowLink(links[|links| - 1])]
  }

  /** The text of the first target under a relation. */
  function FirstTarget(links: seq<Link>, relation: string): Option<string> {
    if links == [] then None
    else if links[0].relation == relation then Some(Show(links[0].target))
    else FirstTarget(links[1..], relation)
  }

  // ---------- what the child rows are ----------

  function TokenRows(owner: Id, kind: string, values: seq<string>): (rows: seq<TokenRow>)
    ensures |rows| == |values|
    ensures forall i :: 0 <= i < |rows| ==> rows[i] == TokenRow(owner, kind, i, values[i])
  {
    seq(|values|, i requires 0 <= i < |values| => TokenRow(owner, kind, i, values[i]))
  }

  function TagRows(owner: Id, values: seq<string>): (rows: seq<TagRow>)
    ensures |rows| == |values|
    ensures forall i :: 0 <= i < |rows| ==> rows[i] == TagRow(owner, i, values[i])
  {
    seq(|values|, i requires 0 <= i < |values| => TagRow(owner, i, values[i]))
  }

  function LinkRows(owner: Id, links: seq<Link>): (rows: seq<LinkRow>)
    ensures |rows| == |links|
    ensures forall i :: 0 <= i < |rows| ==> rows[i] == LinkRow(owner, links[i].relation, links[i].target, i)
  {
    seq(|links|, i requires 0 <= i < |links| => LinkRow(owner, links[i].relation, links[i].target, i))
  }

  function OrEmpty<T>(values: Option<seq<T>>): seq<T> {
    if values.Some? then values.value else []
  }

  function OrNone<T>(values: seq<T>): Option<seq<T>> {
    if values == [] then None else Some(values)
  }

  // ---------- flattening ----------

  predicate AliasAgrees<T(==)>(alias: Option<T>, canonical: Option<T>) {
    alias.Some? && canonical.Some? ==> alias == canonical
  }

  predicate ScoresAgree(aliases: Scores, scores: Scores) {
    && AliasAgrees(aliases.quality, scores.quality)
    && AliasAgrees(aliases.coverage, scores.coverage)
    && AliasAgrees(aliases.cohesion, scores.cohesion)
    && AliasAgrees(aliases.boundaryPrev, scores.boundaryPrev)
    && AliasAgrees(aliases.boundaryNext, scores.boundaryNext)
    && AliasAgrees(aliases.usedInGeneration, scores.usedInGeneration)
  }

  predicate FeedbackAgrees(aliases: Feedback, counts: Feedback) {
    && AliasAgrees(aliases.accepted, counts.accepted)
    && AliasAgrees(aliases.rejected, counts.rejected)
    && AliasAgrees(aliases.modifications, counts.modifications)
  }

  /** The aliases contradict nothing they stand for. */
  predicate AliasesAgree(c: Chunk) {
    match c.metrics
    case None => true
    case Some(m) =>
      ScoresAgree(c.scoreAliases, m.scores) && (m.feedback.Some? ==> FeedbackAgrees(c.feedbackAliases, m.feedback.value))
  }

  /** An embedding and a non-empty model name come together or not at all. */
  predicate EmbeddingComplete(c: Chunk) {
    if c.embedding.None? then c.embeddingModel.None? else c.embeddingModel.Some? && c.embeddingModel.value != ""
  }

  function ChapterText(c: Chunk): Option<string> {
    match ChapterOf(Split(c.blockMeta))
    case Nothing => None
    case Something(shown, _) => Some(shown)
  }

  function Root(c: Chunk): Option<RootRow> {
    match ChapterText(c)
    case None => None
    case Some(chapter) =>
      match (Read(c.uuid), Read(c.sourceId), Read(c.blockId), Read(chapter))
      case (Some(id), Some(document), Some(paragraph), Some(chapterId)) =>
        Some(RootRow(id, document, paragraph, chapterId, c.ordinal, c.body,
                     OrZero(c.start), OrZero(c.end), |c.body|, c.kind, c.score, 1, c.blockMeta))
      case _ => None
  }

  function OrZero(i: Option<int>): int {
    if i.Some? then i.value else 0
  }

  function TokensOf(c: Chunk, owner: Id): seq<TokenRow> {
    match c.metrics
    case None => []
    case Some(m) =>
      TokenRows(owner, TOKENS, OrEmpty(m.tokens)) + TokenRows(owner, BM25_TOKENS, OrEmpty(m.bm25Tokens))
  }

  function MetricsOf(c: Chunk, owner: Id): Option<MetricsRow> {
    match c.metrics
    case None => None
    case Some(m) => Some(MetricsRow(owner, m.scores, m.matches, m.usedAsInput, m.usedAsContext))
  }

  function FeedbackOf(c: Chunk, owner: Id): Option<FeedbackRow> {
    match c.metrics
    case None => None
    case Some(m) => if m.feedback.Some? then Some(FeedbackRow(owner, m.feedback.value)) else None
  }

  function EmbeddingsOf(c: Chunk, owner: Id, how: Recording): seq<EmbeddingRow> {
    if c.embedding.None? || c.embeddingModel.None? then []
    else
      [EmbeddingRow(None, owner, c.embedding.value, c.embeddingModel.value, |c.embedding.value|,
                    how.provider, how.modelVersion, how.createdAt, how.active)]
  }

  /** The rows of a chunk, if it is acceptable. */
  function Flattened(c: Chunk, how: Recording): Option<Rows> {
    match (Root(c), ReadLinks(OrEmpty(c.links)))
    case (Some(root), Some(links)) =>
      if !AliasesAgree(c) || !EmbeddingComplete(c) then None
      else
        var parts := Split(c.blockMeta);
        Some(Rows(root, MetricsOf(c, root.id), FeedbackOf(c, root.id), TokensOf(c, root.id),
                  TagRows(root.id, OrEmpty(c.tags)), LinkRows(root.id, links), EmbeddingsOf(c, root.id, how),
                  BlockMetaRow(root.id, parts.promoted, parts.extensions)))
    case _ => None
  }

  // ---------- rebuilding ----------

  function TokenOrdinal(row: TokenRow): int { row.ordinal }

  function TagOrdinal(row: TagRow): int { row.ordinal }

  function LinkOrdinal(row: LinkRow): int { row.ordinal }

  function OfKind(rows: seq<TokenRow>, kind: string): seq<TokenRow> {
    if rows == [] then []
    else
      var first := OfKind(rows[..|rows| - 1], kind);
      if rows[|rows| - 1].kind == kind then first + [rows[|rows| - 1]] else first
  }

  function TokenValue(row: TokenRow): string { row.value }

  function TagValue(row: TagRow): string { row.value }

  function Values<T>(rows: seq<T>, value: T -> string): (values: seq<string>)
    ensures |values| == |rows| && forall i :: 0 <= i < |rows| ==> values[i] == value(rows[i])
  {
    seq(|rows|, i requires 0 <= i < |rows| => value(rows[i]))
  }

  function LinkValues(rows: seq<LinkRow>): (links: seq<Link>)
    ensures |links| == |rows| && forall i :: 0 <= i < |rows| ==> links[i] == Link(rows[i].relation, rows[i].target)
  {
    seq(|rows|, i requires 0 <= i < |rows| => Link(rows[i].relation, rows[i].target))
  }

  /** Every child row belongs to the root. */
  predicate Owned(rows: Rows) {
    && rows.blockMeta.owner == rows.root.id
    && (forall row | row in rows.tokens :: row.owner == rows.root.id)
    && (forall row | row in rows.tags :: row.owner == rows.root.id)
    && (forall row | row in rows.links :: row.owner == rows.root.id)
    && (forall row | row in rows.embeddings :: row.owner == rows.root.id)
    && (rows.metrics.Some? && rows.feedback.Some? ==> rows.feedback.value.owner == rows.root.id)
  }

  predicate KnownKinds(rows: seq<TokenRow>) {
    forall row | row in rows :: row.kind == TOKENS || row.kind == BM25_TOKENS
  }

  /** Which embedding a reader asks for; a model and a dimension come together. */
  datatype Request = Request(model: Option<string>, dimension: Option<int>)

  function ActiveRows(rows: seq<EmbeddingRow>): seq<EmbeddingRow> {
    if rows == [] then []
    else if rows[0].active then [rows[0]] + ActiveRows(rows[1..])
    else ActiveRows(rows[1..])
  }

  function Selected(rows: seq<EmbeddingRow>, request: Request): Option<EmbeddingRow> {
    if request.model.Some? && request.dimension.Some? then
      SelectActive(rows, request.model.value, request.dimension.value)
    else if ActiveRows(rows) == [] then None
    else Some(Latest(ActiveRows(rows)))
  }

  function MetricsFrom(rows: Rows, tokens: seq<string>, bm25Tokens: seq<string>): Option<Metrics> {
    match rows.metrics
    case None => None
    case Some(m) =>
      Some(Metrics(m.scores, m.matches, m.usedAsInput, m.usedAsContext,
                   if rows.feedback.Some? then Some(rows.feedback.value.counts) else None,
                   Some(tokens), Some(bm25Tokens)))
  }

  function KindOrDefault(kind: Option<string>): string {
    if kind.Some? && kind.value != "" then kind.value else "DocBlock"
  }

  function JoinTags(tags: seq<string>): string {
    if tags == [] then ""
    else if |tags| == 1 then tags[0]
    else tags[0] + ", " + JoinTags(tags[1..])
  }

  function TagsFlat(tags: seq<string>): Option<string> {
    if JoinTags(tags) == "" then None else Some(JoinTags(tags))
  }

  function FeedbackOrNone(metrics: Option<Metrics>): Feedback {
    if metrics.Some? && metrics.value.feedback.Some? then metrics.value.feedback.value else NO_FEEDBACK
  }

  function ScoresOrNone(metrics: Option<Metrics>): Scores {
    if metrics.Some? then metrics.value.scores else NO_SCORES
  }

  /** The chunk assembled from its parts; every alias is derived. */
  function Assemble(root: RootRow, meta: Meta, tags: seq<string>, links: seq<Link>, metrics: Option<Metrics>,
                    selected: Option<EmbeddingRow>): Chunk {
    Chunk(Show(root.id), Show(root.documentId), Show(root.paragraphId), Some(KindOrDefault(root.chunkType)),
          root.text, root.text, root.orderIndex, Some(root.sourceStart), Some(root.sourceEnd), None, meta,
          OrNone(tags), TagsFlat(tags), OrNone(ShowLinks(links)), FirstTarget(links, "related"),
          FirstTarget(links, "parent"), metrics, ScoresOrNone(metrics), FeedbackOrNone(metrics),
          if selected.Some? then Some(selected.value.vector) else None,
          if selected.Some? then Some(selected.value.model) else None)
  }

  /** The chunk of a bundle of rows, if they are consistent. */
  ghost function Rebuilt(rows: Rows, request: Request): Option<Chunk> {
    if !Owned(rows) || !KnownKinds(rows.tokens) || request.model.Some? != request.dimension.Some? then None
    else
      match (Arrangement(multiset(OfKind(rows.tokens, TOKENS)), TokenOrdinal),
             Arrangement(multiset(OfKind(rows.tokens, BM25_TOKENS)), TokenOrdinal),
             Arrangement(multiset(rows.tags), TagOrdinal),
             Arrangement(multiset(rows.links), LinkOrdinal))
      case (Some(tokens), Some(bm25Tokens), Some(tags), Some(links)) =>
        Some(Assemble(rows.root, Merge(rows.blockMeta.promoted, rows.blockMeta.extensions),
                      Values(tags, TagValue), LinkValues(links),
                      MetricsFrom(rows, Values(tokens, TokenValue), Values(bm25Tokens, TokenValue)),
                      Selected(rows.embeddings, request)))
      case _ => None
  }

  // ---------- the loops ----------

  method CollectTokens(owner: Id, metrics: Metrics) returns (tokens: seq<TokenRow>)
    ensures tokens ==
      TokenRows(owner, TOKENS, OrEmpty(metrics.tokens)) + TokenRows(owner, BM25_TOKENS, OrEmpty(metrics.bm25Tokens))
  {
    tokens := [];
    var values := OrEmpty(metrics.tokens);
    for i := 0 to |values|
      invariant tokens == TokenRows(owner, TOKENS, values[..i])
    {
      tokens := tokens + [TokenRow(owner, TOKENS, i, values[i])];
    }
    assert values[..|values|] == values;
    var others := OrEmpty(metrics.bm25Tokens);
    for i := 0 to |others|
      invariant tokens == TokenRows(owner, TOKENS, values) + TokenRows(owner, BM25_TOKENS, others[..i])
    {
      tokens := tokens + [TokenRow(owner, BM25_TOKENS, i, others[i])];
    }
    assert others[..|others|] == others;
  }

  method CollectLinks(owner: Id, texts: seq<string>) returns (rows: Option<seq<LinkRow>>)
    ensures rows == match ReadLinks(texts)
                    case None => None
                    case Some(links) => Some(LinkRows(owner, links))
  {
    var links: seq<LinkRow> := [];
    for i := 0 to |texts|
      invariant ReadLinks(texts[..i]).Some? && links == LinkRows(owner, ReadLinks(texts[..i]).value)
    {
      assert texts[..i + 1][..i] == texts[..i];
      var link := ReadLink(texts[i]);
      if link == None {
        ReadLinksFails(texts, i);
        return None;
      }
      ghost var before := ReadLinks(texts[..i]).value;
      links := links + [LinkRow(owner, link.value.relation, link.value.target, i)];
      assert ReadLinks(texts[..i + 1]) == Some(before + [link.value]);
      assert |before| == i && links == LinkRows(owner, before + [link.value]);
    }
    assert texts[..|texts|] == texts;
    return Some(links);
  }

  lemma {:induction false} ReadLinksFails(texts: seq<string>, i: nat)
    requires i < |texts| && ReadLink(texts[i]) == None
    ensures ReadLinks(texts) == None
  {
    if i < |texts| - 1 { ReadLinksFails(texts[..|texts| - 1], i); }
  }

  method ToRows(c: Chunk, how: Recording) returns (rows: Option<Rows>)
    ensures rows == Flattened(c, how)
  {
    var root := Root(c);
    if root == None || !AliasesAgree(c) { return None; }
    var id := root.value.id;
    var tokens := [];
    if c.metrics.Some? { tokens := CollectTokens(id, c.metrics.value); }
    var links := CollectLinks(id, OrEmpty(c.links));
    if links == None || !EmbeddingComplete(c) { return None; }
    var parts := Split(c.blockMeta);
    return Some(Rows(root.value, MetricsOf(c, id), FeedbackOf(c, id), tokens, TagRows(id, OrEmpty(c.tags)),
                     links.value, EmbeddingsOf(c, id, how),
                     BlockMetaRow(id, parts.promoted, parts.extensions)));
  }

  /** Tokens grouped by kind; an unknown kind is refused. */
  method GroupTokens(rows: seq<TokenRow>) returns (ok: bool, tokens: seq<TokenRow>, bm25Tokens: seq<TokenRow>)
    ensures ok <==> KnownKinds(rows)
    ensures ok ==> tokens == OfKind(rows, TOKENS) && bm25Tokens == OfKind(rows, BM25_TOKENS)
  {
    tokens, bm25Tokens := [], [];
    for i := 0 to |rows|
      invariant forall k :: 0 <= k < i ==> rows[k].kind == TOKENS || rows[k].kind == BM25_TOKENS
      invariant tokens == OfKind(rows[..i], TOKENS) && bm25Tokens == OfKind(rows[..i], BM25_TOKENS)
    {
      assert rows[..i + 1][..i] == rows[..i];
      var row := rows[i];
      if row.kind == TOKENS {
        tokens := tokens + [row];
      } else if row.kind == BM25_TOKENS {
        bm25Tokens := bm25Tokens + [row];
      } else {
        assert row in rows;
        return false, [], [];
      }
    }
    assert rows[..|rows|] == rows;
    ok := true;
  }

  method FromRows(rows: Rows, request: Request) returns (c: Option<Chunk>)
    ensures c == Rebuilt(rows, request)
  {
    if !Owned(rows) { return None; }
    var ok, tokenRows, bm25Rows := GroupTokens(rows.tokens);
    if !ok { return None; }
    var tokens := Order(tokenRows, TokenOrdinal);
    var bm25Tokens := Order(bm25Rows, TokenOrdinal);
    var tags := Order(rows.tags, TagOrdinal);
    var links := Order(rows.links, LinkOrdinal);
    if tokens == None || bm25Tokens == None || tags == None || links == None { return None; }
    if request.model.Some? != request.dimension.Some? { return None; }
    return Some(Assemble(rows.root, Merge(rows.blockMeta.promoted, rows.blockMeta.extensions),
                         Values(tags.value, TagValue), LinkValues(links.value),
                         MetricsFrom(rows, Values(tokens.value, TokenValue), Values(bm25Tokens.value, TokenValue)),
                         Selected(rows.embeddings, request)));
  }

  // ---------- the rows, column by column ----------

  /** A link reads as what stands before and behind its first colon. */
  lemma ReadLinkIff(t: string, link: Link)
    ensures ReadLink(t) == Some(link) <==>
      && link.relation + ":" <= t && ':' !in link.relation
      && Read(t[|link.relation| + 1..]) == Some(link.target)
  {
    var i, n := ColonAt(t), |link.relation|;
    if link.relation + ":" <= t && ':' !in link.relation {
      assert forall k :: 0 <= k < n ==> t[k] == (link.relation + ":")[k];
      assert t[n] == (link.relation + ":")[n];
      assert t[..n] == link.relation && i == n;
    }
  }

  /** The metadata value that names the chapter: a chapter id, even a null one, hides the parent. */
  predicate NamesChapter(meta: Meta, chapter: string) {
    if "chapter_id" in meta then meta["chapter_id"].Something? && meta["chapter_id"].shown == chapter
    else "parent_id" in meta && meta["parent_id"].Something? && meta["parent_id"].shown == chapter
  }

  lemma ChapterIsNamed(c: Chunk, chapter: string)
    ensures ChapterText(c) == Some(chapter) <==> NamesChapter(c.blockMeta, chapter)
  {
    assert "chapter_id" !in KNOWN_KEYS && "parent_id" in KNOWN_KEYS;
  }

  /** The root row of an accepted chunk. */
  lemma RootByColumn(c: Chunk, how: Recording)
    requires Flattened(c, how).Some?
    ensures var root := Flattened(c, how).value.root;
      && Read(c.uuid) == Some(root.id) && Read(c.sourceId) == Some(root.documentId)
      && Read(c.blockId) == Some(root.paragraphId)
      && (exists chapter :: NamesChapter(c.blockMeta, chapter) && Read(chapter) == Some(root.chapterId))
      && root.orderIndex == c.ordinal && root.text == c.body && root.charCount == |c.body|
      && root.sourceStart == (if c.start.Some? then c.start.value else 0)
      && root.sourceEnd == (if c.end.Some? then c.end.value else 0)
      && root.chunkType == c.kind && root.score == c.score && root.searchWeight == 1
      && root.blockMeta == c.blockMeta
  {
    ChapterIsNamed(c, ChapterText(c).value);
  }

  /** Its metric, feedback, embedding and metadata rows. */
  lemma SatellitesByColumn(c: Chunk, how: Recording)
    requires Flattened(c, how).Some?
    ensures var rows := Flattened(c, how).value;
      && rows.metrics.Some? == c.metrics.Some?
      && (rows.metrics.Some? ==>
            && rows.metrics.value.owner == rows.root.id
            && rows.metrics.value.scores == c.metrics.value.scores
            && rows.metrics.value.matches == c.metrics.value.matches
            && rows.metrics.value.usedAsInput == c.metrics.value.usedAsInput
            && rows.metrics.value.usedAsContext == c.metrics.value.usedAsContext)
      && rows.feedback.Some? == (c.metrics.Some? && c.metrics.value.feedback.Some?)
      && (rows.feedback.Some? ==>
            rows.feedback.value.owner == rows.root.id && Some(rows.feedback.value.counts) == c.metrics.value.feedback)
      && |rows.embeddings| == (if c.embedding.Some? then 1 else 0)
      && (forall e :: e in rows.embeddings ==>
            && e.id == None && e.owner == rows.root.id
            && Some(e.vector) == c.embedding && Some(e.model) == c.embeddingModel && e.dimension == |e.vector|
            && e.provider == how.provider && e.modelVersion == how.modelVersion
            && e.createdAt == how.createdAt && e.active == how.active)
      && rows.blockMeta.owner == rows.root.id
      && rows.blockMeta.promoted.Keys == c.blockMeta.Keys * KNOWN_KEYS
      && rows.blockMeta.extensions.Keys == c.blockMeta.Keys - KNOWN_KEYS
  {
  }

  /** Its ordered rows: each value once, at its own position. */
  lemma ListsByColumn(c: Chunk, how: Recording, i: nat)
    requires Flattened(c, how).Some?
    ensures var rows := Flattened(c, how).value;
      && |rows.tags| == |OrEmpty(c.tags)| && |rows.links| == |OrEmpty(c.links)|
      && (i < |rows.tags| ==> rows.tags[i] == TagRow(rows.root.id, i, OrEmpty(c.tags)[i]))
      && (i < |rows.links| ==>
            && rows.links[i].owner == rows.root.id && rows.links[i].ordinal == i
            && ReadLink(OrEmpty(c.links)[i]) == Some(Link(rows.links[i].relation, rows.links[i].target)))
    ensures var tokens := Flattened(c, how).value.tokens;
      var owner := Flattened(c, how).value.root.id;
      && (c.metrics.None? ==> tokens == [])
      && (c.metrics.Some? ==>
            && var first, second := OrEmpty(c.metrics.value.tokens), OrEmpty(c.metrics.value.bm25Tokens);
            && |tokens| == |first| + |second|
            && (i < |first| ==> tokens[i] == TokenRow(owner, "tokens", i, first[i]))
            && (i < |second| ==> tokens[|first| + i] == TokenRow(owner, "bm25_tokens", i, second[i])))
  {
    if i < |OrEmpty(c.links)| { ReadLinksAt(OrEmpty(c.links), i); }
  }

  predicate Agrees<T(==)>(alias: Option<T>, canonical: Option<T>) {
    alias in {None, canonical} || canonical == None
  }

  /** Which chunks are accepted. */
  lemma FlattenedIff(c: Chunk, how: Recording)
    ensures Flattened(c, how).Some? <==>
      && Read(c.uuid).Some? && Read(c.sourceId).Some? && Read(c.blockId).Some?
      && (exists chapter :: NamesChapter(c.blockMeta, chapter) && Read(chapter).Some?)
      && (forall t :: t in OrEmpty(c.links) ==> ReadLink(t).Some?)
      && (c.metrics.Some? ==> NoConflict(c.scoreAliases, c.feedbackAliases, c.metrics.value))
      && (c.embedding.Some? || c.embeddingModel.Some? ==>
            c.embedding.Some? && c.embeddingModel.Some? && c.embeddingModel != Some(""))
  {
    if ChapterText(c).Some? { ChapterIsNamed(c, ChapterText(c).value); }
    if chapter :| NamesChapter(c.blockMeta, chapter) { ChapterIsNamed(c, chapter); }
    ReadLinksIff(OrEmpty(c.links));
    if c.metrics.Some? { NoConflictIff(c); }
  }

  predicate NoConflict(scores: Scores, counts: Feedback, m: Metrics) {
    && Agrees(scores.quality, m.scores.quality) && Agrees(scores.coverage, m.scores.coverage)
    && Agrees(scores.cohesion, m.scores.cohesion) && Agrees(scores.boundaryPrev, m.scores.boundaryPrev)
    && Agrees(scores.boundaryNext, m.scores.boundaryNext)
    && Agrees(scores.usedInGeneration, m.scores.usedInGeneration)
    && (m.feedback.Some? ==>
          && Agrees(counts.accepted, m.feedback.value.accepted)
          && Agrees(counts.rejected, m.feedback.value.rejected)
          && Agrees(counts.modifications, m.feedback.value.modifications))
  }

  lemma NoConflictIff(c: Chunk)
    requires c.metrics.Some?
    ensures AliasesAgree(c) <==> NoConflict(c.scoreAliases, c.feedbackAliases, c.metrics.value)
  {
  }

  lemma {:induction false} ReadLinksIff(texts: seq<string>)
    ensures ReadLinks(texts).Some? <==> forall t :: t in texts ==> ReadLink(t).Some?
  {
    if texts != [] {
      var n := |texts| - 1;
      ReadLinksIff(texts[..n]);
      assert forall t :: t in texts <==> t in texts[..n] || t == texts[n];
    }
  }

  // ---------- the rebuilt chunk, column by column ----------

  lemma {:induction false} ActiveRowsContents(rows: seq<EmbeddingRow>, row: EmbeddingRow)
    ensures row in ActiveRows(rows) <==> row in rows && row.active
  {
    if rows != [] {
      ActiveRowsContents(rows[1..], row);
      assert rows == [rows[0]] + rows[1..];
    }
  }

  /** An active row, of the model and dimension asked for if any are. */
  predicate Wanted(row: EmbeddingRow, request: Request) {
    && row.active
    && (request.model.Some? && request.dimension.Some? ==>
          row.model == request.model.value && row.dimension == request.dimension.value)
  }

  /** The reader gets the latest row it wants, and none exactly when there is none. */
  lemma SelectedIsLatest(rows: seq<EmbeddingRow>, request: Request)
    ensures Selected(rows, request) == None <==> forall row :: row in rows ==> !Wanted(row, request)
    ensures var r := Selected(rows, request);
      r.Some? ==>
        && r.value in rows && Wanted(r.value, request)
        && forall row :: row in rows && Wanted(row, request) ==> NoLater(row, r.value)
  {
    if request.model.Some? && request.dimension.Some? {
      SelectActiveIsLatest(rows, request.model.value, request.dimension.value);
      assert forall row :: Wanted(row, request) <==> Matches(row, request.model.value, request.dimension.value);
    } else {
      var active := ActiveRows(rows);
      forall row ensures row in active <==> row in rows && Wanted(row, request) {
        ActiveRowsContents(rows, row);
      }
      if active != [] {
        assert active[0] in active;
        LatestIsRow(active);
        forall row | row in active ensures NoLater(row, Latest(active)) { LatestIsLast(active, row); }
      }
    }
  }

  /** A bundle is refused for a row of another chunk, an unknown kind of token, ordinals that are
      not 0 to n-1, or a model asked for without a dimension; for nothing else. */
  lemma RebuiltIff(rows: Rows, request: Request)
    ensures Rebuilt(rows, request).Some? <==>
      && OwnedBy(rows, rows.root.id) && request.model.Some? == request.dimension.Some?
      && Numbered(OfKind(rows.tokens, "tokens"), TokenOrdinal)
      && Numbered(OfKind(rows.tokens, "bm25_tokens"), TokenOrdinal)
      && Numbered(rows.tags, TagOrdinal) && Numbered(rows.links, LinkOrdinal)
  {
    OwnedByIff(rows);
    ArrangementIffPermutation(OfKind(rows.tokens, TOKENS), TokenOrdinal);
    ArrangementIffPermutation(OfKind(rows.tokens, BM25_TOKENS), TokenOrdinal);
    ArrangementIffPermutation(rows.tags, TagOrdinal);
    ArrangementIffPermutation(rows.links, LinkOrdinal);
  }

  /** Every row names this chunk and every token is of one of the two kinds. */
  ghost predicate OwnedBy(rows: Rows, id: Id) {
    && rows.blockMeta.owner == id
    && (forall row :: row in rows.tokens ==> row.owner == id && row.kind in {"tokens", "bm25_tokens"})
    && (forall row :: row in rows.tags ==> row.owner == id)
    && (forall row :: row in rows.links ==> row.owner == id)
    && (forall row :: row in rows.embeddings ==> row.owner == id)
    && (rows.metrics.Some? && rows.feedback.Some? ==> rows.feedback.value.owner == id)
  }

  lemma OwnedByIff(rows: Rows)
    ensures OwnedBy(rows, rows.root.id) <==> Owned(rows) && KnownKinds(rows.tokens)
  {
  }

  /** The ordinals are 0 to n-1, each once. */
  ghost predicate Numbered<T>(rows: seq<T>, ordinal: T -> int) {
    multiset(Ordinals(rows, ordinal)) == multiset(Range(|rows|))
  }

  /** The columns of the root row as the rebuilt chunk carries them. */
  lemma RebuiltRoot(rows: Rows, request: Request)
    requires Rebuilt(rows, request).Some?
    ensures var c, root := Rebuilt(rows, request).value, rows.root;
      && c.uuid == Show(root.id) && c.sourceId == Show(root.documentId) && c.blockId == Show(root.paragraphId)
      && c.kind == (if root.chunkType in {None, Some("")} then Some("DocBlock") else root.chunkType)
      && c.body == root.text && c.text == root.text && c.ordinal == root.orderIndex
      && c.start == Some(root.sourceStart) && c.end == Some(root.sourceEnd) && c.score == None
    ensures var c, meta := Rebuilt(rows, request).value, rows.blockMeta;
      forall k :: (k in c.blockMeta <==> k in meta.extensions || (k in meta.promoted && k in KNOWN_KEYS)) &&
        (k in c.blockMeta ==>
           c.blockMeta[k] == if k in meta.promoted && k in KNOWN_KEYS then meta.promoted[k] else meta.extensions[k])
    ensures var c, e := Rebuilt(rows, request).value, Selected(rows.embeddings, request);
      && c.embedding == (if e.Some? then Some(e.value.vector) else None)
      && c.embeddingModel == (if e.Some? then Some(e.value.model) else None)
  {
  }

  lemma PlacedByOrdinal<T(!new)>(rows: seq<T>, row: T, ordinal: T -> int)
    requires Arrangement(multiset(rows), ordinal).Some? && row in rows
    ensures var r := Arrangement(multiset(rows), ordinal).value;
      |r| == |rows| && 0 <= ordinal(row) < |r| && r[ordinal(row)] == row
  {
    var r := Arrangement(multiset(rows), ordinal).value;
    SameContentsSameLength(r, rows);
    assert row in multiset(r);
  }

  /** Each tag stands in the chunk where its ordinal puts it. */
  lemma RebuiltTags(rows: Rows, request: Request, tag: TagRow)
    requires Rebuilt(rows, request).Some?
    ensures var c := Rebuilt(rows, request).value;
      && (c.tags == None <==> rows.tags == []) && |OrEmpty(c.tags)| == |rows.tags|
      && (tag in rows.tags ==> 0 <= tag.ordinal < |rows.tags| && OrEmpty(c.tags)[tag.ordinal] == tag.value)
      && c.tagsFlat == (if JoinTags(OrEmpty(c.tags)) == "" then None else Some(JoinTags(OrEmpty(c.tags))))
  {
    SameContentsSameLength(Arrangement(multiset(rows.tags), TagOrdinal).value, rows.tags);
    if tag in rows.tags { PlacedByOrdinal(rows.tags, tag, TagOrdinal); }
  }

  /** The flat text of tags separates them by a comma and a space. */
  lemma {:induction false} JoinedTags(tags: seq<string>, last: string)
    ensures JoinTags(tags + [last]) == if tags == [] then last else JoinTags(tags) + ", " + last
  {
    if tags != [] {
      JoinedTags(tags[1..], last);
      assert (tags + [last])[1..] == tags[1..] + [last];
      if |tags| > 1 {
        assert JoinTags(tags) == tags[0] + ", " + JoinTags(tags[1..]);
        assert (tags[0] + ", ") + (JoinTags(tags[1..]) + ", " + last) == tags[0] + ", " + JoinTags(tags[1..]) + ", " + last;
      }
    }
  }

  /** Each link stands in the chunk where its ordinal puts it. */
  lemma RebuiltLinks(rows: Rows, request: Request, link: LinkRow)
    requires Rebuilt(rows, request).Some?
    ensures var c := Rebuilt(rows, request).value;
      && (c.links == None <==> rows.links == []) && |OrEmpty(c.links)| == |rows.links|
      && (link in rows.links ==>
            && 0 <= link.ordinal < |rows.links|
            && OrEmpty(c.links)[link.ordinal] == link.relation + ":" + Show(link.target))
  {
    var links := Arrangement(multiset(rows.links), LinkOrdinal).value;
    SameContentsSameLength(links, rows.links);
    if link in rows.links {
      PlacedByOrdinal(rows.links, link, LinkOrdinal);
      ShowLinksAt(LinkValues(links), link.ordinal);
    }
  }

  /** The compatibility link is the first of its relation. */
  lemma {:induction false} FirstTargetFound(links: seq<Link>, relation: string, i: nat)
    requires i < |links| && links[i].relation == relation
    requires forall k :: 0 <= k < i ==> links[k].relation != relation
    ensures FirstTarget(links, relation) == Some(Show(links[i].target))
  {
    if i > 0 { FirstTargetFound(links[1..], relation, i - 1); }
  }

  // ---------- the normal form ----------

  function NormalId(t: string): string
    requires Read(t).Some?
  {
    Show(Read(t).value)
  }

  function NormalMetrics(metrics: Option<Metrics>): Option<Metrics> {
    match metrics
    case None => None
    case Some(m) => Some(m.(tokens := Some(OrEmpty(m.tokens)), bm25Tokens := Some(OrEmpty(m.bm25Tokens))))
  }

  /** The chunk that rebuilding gives: identities in lower case with hyphens, defaults filled
      in, empty lists dropped, every alias derived, and no score. */
  function Normal(c: Chunk, keepEmbedding: bool): Chunk
    requires Root(c).Some? && ReadLinks(OrEmpty(c.links)).Some?
  {
    var links := ReadLinks(OrEmpty(c.links)).value;
    Chunk(NormalId(c.uuid), NormalId(c.sourceId), NormalId(c.blockId), Some(KindOrDefault(c.kind)),
          c.body, c.body, c.ordinal, Some(OrZero(c.start)), Some(OrZero(c.end)), None, c.blockMeta,
          OrNone(OrEmpty(c.tags)), TagsFlat(OrEmpty(c.tags)), OrNone(ShowLinks(links)),
          FirstTarget(links, "related"), FirstTarget(links, "parent"),
          NormalMetrics(c.metrics), ScoresOrNone(c.metrics), FeedbackOrNone(c.metrics),
          if keepEmbedding then c.embedding else None, if keepEmbedding then c.embeddingModel else None)
  }

  predicate CanonicalIds(c: Chunk) {
    UuidText.Canonical(c.uuid) && UuidText.Canonical(c.sourceId) && UuidText.Canonical(c.blockId)
  }

  predicate CanonicalLink(t: string) {
    ReadLink(t).Some? && ShowLink(ReadLink(t).value) == t
  }

  predicate CanonicalLists(c: Chunk) {
    && c.tags != Some([]) && c.tagsFlat == TagsFlat(OrEmpty(c.tags))
    && c.links != Some([]) && (forall t | t in OrEmpty(c.links) :: CanonicalLink(t))
    && (ReadLinks(OrEmpty(c.links)).Some? ==>
          && c.linkRelated == FirstTarget(ReadLinks(OrEmpty(c.links)).value, "related")
          && c.linkParent == FirstTarget(ReadLinks(OrEmpty(c.links)).value, "parent"))
  }

  predicate CanonicalMetrics(c: Chunk) {
    && (c.metrics.Some? ==> c.metrics.value.tokens.Some? && c.metrics.value.bm25Tokens.Some?)
    && c.scoreAliases == ScoresOrNone(c.metrics) && c.feedbackAliases == FeedbackOrNone(c.metrics)
  }

  /** Consistent aliases, canonical identity text, and a kind, a start and an end. */
  predicate CanonicalChunk(c: Chunk) {
    && CanonicalIds(c) && CanonicalLists(c) && CanonicalMetrics(c)
    && c.kind.Some? && c.kind.value != "" && c.text == c.body
    && c.start.Some? && c.end.Some? && c.score.None?
  }

  lemma {:induction false} ShowLinksAt(links: seq<Link>, i: nat)
    requires i < |links|
    ensures ShowLinks(links)[i] == ShowLink(links[i])
  {
    if i < |links| - 1 { ShowLinksAt(links[..|links| - 1], i); }
  }

  lemma {:induction false} ReadLinksAt(texts: seq<string>, i: nat)
    requires ReadLinks(texts).Some? && i < |texts|
    ensures ReadLink(texts[i]) == Some(ReadLinks(texts).value[i])
    decreases |texts|
  {
    if |texts| > 1 { ReadLinksAt(texts[..|texts| - 1], if i < |texts| - 1 then i else 0); }
  }

  lemma ShownLinksIffCanonical(texts: seq<string>)
    requires ReadLinks(texts).Some?
    ensures ShowLinks(ReadLinks(texts).value) == texts <==> forall t | t in texts :: CanonicalLink(t)
  {
    var links := ReadLinks(texts).value;
    forall i | 0 <= i < |texts| ensures ShowLinks(links)[i] == texts[i] <==> CanonicalLink(texts[i]) {
      ReadLinksAt(texts, i);
      ShowLinksAt(links, i);
    }
  }

  lemma NormalMetricsIffCanonical(metrics: Option<Metrics>)
    ensures NormalMetrics(metrics) == metrics <==>
      (metrics.Some? ==> metrics.value.tokens.Some? && metrics.value.bm25Tokens.Some?)
  {
  }

  /** Filling in and dropping defaults leaves an optional list alone unless it is an empty one. */
  lemma NormalListIff<T>(list: Option<seq<T>>)
    ensures OrNone(OrEmpty(list)) == list <==> list != Some([])
  {
  }

  lemma NormalIdIffCanonical(t: string)
    requires Read(t).Some?
    ensures NormalId(t) == t <==> UuidText.Canonical(t)
  {
  }

  /** The canonical chunks are exactly those already in normal form. */
  lemma NormalIffCanonical(c: Chunk)
    requires Root(c).Some? && ReadLinks(OrEmpty(c.links)).Some?
    ensures Normal(c, true) == c <==> CanonicalChunk(c)
  {
    ShownLinksIffCanonical(OrEmpty(c.links));
    NormalMetricsIffCanonical(c.metrics);
    NormalListIff(c.tags);
    NormalListIff(c.links);
    NormalIdIffCanonical(c.uuid);
    NormalIdIffCanonical(c.sourceId);
    NormalIdIffCanonical(c.blockId);
  }

  // ---------- the round trip ----------

  /** The same rows, with the child rows in any order. */
  ghost predicate Shuffled(rows: Rows, other: Rows) {
    && other == rows.(tokens := other.tokens, tags := other.tags, links := other.links, embeddings := other.embeddings)
    && multiset(other.tokens) == multiset(rows.tokens) && multiset(other.tags) == multiset(rows.tags)
    && multiset(other.links) == multiset(rows.links) && multiset(other.embeddings) == multiset(rows.embeddings)
  }

  lemma {:induction false} OfKindContents(rows: seq<TokenRow>, kind: string, row: TokenRow)
    ensures multiset(OfKind(rows, kind))[row] == if row.kind == kind then multiset(rows)[row] else 0
  {
    if rows != [] {
      OfKindContents(rows[..|rows| - 1], kind, row);
      assert rows == rows[..|rows| - 1] + [rows[|rows| - 1]];
    }
  }

  lemma OfKindArranges(rows: seq<TokenRow>, all: seq<TokenRow>, some: seq<TokenRow>, kind: string)
    requires multiset(rows) == multiset(all)
    requires OfKind(all, kind) == some && forall i :: 0 <= i < |some| ==> some[i].ordinal == i
    ensures Arrangement(multiset(OfKind(rows, kind)), TokenOrdinal) == Some(some)
  {
    forall row ensures multiset(OfKind(rows, kind))[row] == multiset(some)[row] {
      OfKindContents(rows, kind, row);
      OfKindContents(all, kind, row);
    }
    assert multiset(OfKind(rows, kind)) == multiset(some);
    ArrangementIsUnique(multiset(some), some, TokenOrdinal);
  }

  lemma {:induction false} OfKindOfBoth(first: seq<TokenRow>, second: seq<TokenRow>, kind: string)
    requires forall row :: row in second ==> row.kind == kind
    requires forall row :: row in first ==> row.kind != kind
    ensures OfKind(first + second, kind) == second
    decreases |first| + |second|
  {
    var all := first + second;
    if second != [] {
      assert all[..|all| - 1] == first + second[..|second| - 1];
      OfKindOfBoth(first, second[..|second| - 1], kind);
    } else if first != [] {
      assert all[..|all| - 1] == first[..|first| - 1] + [];
      OfKindOfBoth(first[..|first| - 1], [], kind);
    }
  }

  lemma {:induction false} OfKindOfFirst(first: seq<TokenRow>, second: seq<TokenRow>, kind: string)
    requires forall row :: row in first ==> row.kind == kind
    requires forall row :: row in second ==> row.kind != kind
    ensures OfKind(first + second, kind) == first
    decreases |second|
  {
    var all := first + second;
    if second != [] {
      assert all[..|all| - 1] == first + second[..|second| - 1];
      OfKindOfFirst(first, second[..|second| - 1], kind);
    } else {
      assert all == [] + first;
      OfKindOfBoth([], first, kind);
    }
  }

  lemma TokensComeBack(c: Chunk, owner: Id, rows: seq<TokenRow>)
    requires multiset(rows) == multiset(TokensOf(c, owner)) && c.metrics.Some?
    ensures Arrangement(multiset(OfKind(rows, TOKENS)), TokenOrdinal) ==
      Some(TokenRows(owner, TOKENS, OrEmpty(c.metrics.value.tokens)))
    ensures Arrangement(multiset(OfKind(rows, BM25_TOKENS)), TokenOrdinal) ==
      Some(TokenRows(owner, BM25_TOKENS, OrEmpty(c.metrics.value.bm25Tokens)))
  {
    var first := TokenRows(owner, TOKENS, OrEmpty(c.metrics.value.tokens));
    var second := TokenRows(owner, BM25_TOKENS, OrEmpty(c.metrics.value.bm25Tokens));
    assert |TOKENS| != |BM25_TOKENS|;
    OfKindOfFirst(first, second, TOKENS);
    OfKindOfBoth(first, second, BM25_TOKENS);
    OfKindArranges(rows, first + second, first, TOKENS);
    OfKindArranges(rows, first + second, second, BM25_TOKENS);
  }

  lemma NoTokensComeBack(rows: seq<TokenRow>, kind: string)
    requires multiset(rows) == multiset([])
    ensures Arrangement(multiset(OfKind(rows, kind)), TokenOrdinal) == Some([])
  {
    SameContentsSameLength(rows, []);
    ArrangementIsUnique(multiset([]), [], TokenOrdinal);
  }

  /** The embedding that a reader of these rows gets. */
  predicate Keeps(c: Chunk, how: Recording, request: Request) {
    && c.embedding.Some? && how.active
    && (request.model.Some? ==> request == Request(c.embeddingModel, Some(|c.embedding.value|)))
  }

  lemma SingleComesBack<T>(rows: seq<T>, single: seq<T>)
    requires multiset(rows) == multiset(single) && |single| <= 1
    ensures rows == single
  {
    SameContentsSameLength(rows, single);
    if single != [] { assert rows[0] in multiset(single); }
  }

  lemma SelectedSingle(row: EmbeddingRow, request: Request)
    requires request.model.Some? == request.dimension.Some?
    ensures Selected([row], request) ==
      if row.active && (request.model.Some? ==> request == Request(Some(row.model), Some(row.dimension)))
      then Some(row) else None
  {
    assert [row][1..] == [];
    if request.model.Some? {
      var m, d := request.model.value, request.dimension.value;
      assert Compatible([row], m, d) == if Matches(row, m, d) then [row] else [];
    } else {
      assert ActiveRows([row]) == if row.active then [row] else [];
    }
  }

  lemma EmbeddingComesBack(c: Chunk, owner: Id, how: Recording, request: Request)
    requires EmbeddingComplete(c) && request.model.Some? == request.dimension.Some?
    ensures Selected(EmbeddingsOf(c, owner, how), request) ==
      if Keeps(c, how, request) then Some(EmbeddingsOf(c, owner, how)[0]) else None
  {
    if c.embedding.Some? {
      SelectedSingle(EmbeddingsOf(c, owner, how)[0], request);
    }
  }

  lemma OwnersSurvive(rows: Rows, other: Rows)
    requires Shuffled(rows, other) && Owned(rows) && KnownKinds(rows.tokens)
    ensures Owned(other) && KnownKinds(other.tokens)
  {
    forall row | row in other.tokens ensures row in rows.tokens { assert row in multiset(other.tokens); }
    forall row | row in other.tags ensures row in rows.tags { assert row in multiset(other.tags); }
    forall row | row in other.links ensures row in rows.links { assert row in multiset(other.links); }
    forall row | row in other.embeddings ensures row in rows.embeddings { assert row in multiset(other.embeddings); }
  }

  lemma TokensAreOwned(c: Chunk, owner: Id)
    ensures KnownKinds(TokensOf(c, owner))
    ensures forall row :: row in TokensOf(c, owner) ==> row.owner == owner
  {
  }

  lemma FlattenedIsOwned(c: Chunk, how: Recording)
    requires Flattened(c, how).Some?
    ensures Owned(Flattened(c, how).value) && KnownKinds(Flattened(c, how).value.tokens)
  {
    TokensAreOwned(c, Flattened(c, how).value.root.id);
  }

  lemma ListsComeBack(owner: Id, tags: seq<string>, links: seq<Link>, rows: Rows)
    requires multiset(rows.tags) == multiset(TagRows(owner, tags))
    requires multiset(rows.links) == multiset(LinkRows(owner, links))
    ensures Arrangement(multiset(rows.tags), TagOrdinal) == Some(TagRows(owner, tags))
    ensures Arrangement(multiset(rows.links), LinkOrdinal) == Some(LinkRows(owner, links))
    ensures Values(TagRows(owner, tags), TagValue) == tags && LinkValues(LinkRows(owner, links)) == links
  {
    ArrangementIsUnique(multiset(rows.tags), TagRows(owner, tags), TagOrdinal);
    ArrangementIsUnique(multiset(rows.links), LinkRows(owner, links), LinkOrdinal);
  }

  /** The token lists of the rows, and the metrics they complete. */
  lemma MetricsComeBack(c: Chunk, owner: Id, rows: Rows) returns (tokens: seq<TokenRow>, bm25Tokens: seq<TokenRow>)
    requires multiset(rows.tokens) == multiset(TokensOf(c, owner))
    requires rows.metrics == MetricsOf(c, owner) && rows.feedback == FeedbackOf(c, owner)
    ensures Arrangement(multiset(OfKind(rows.tokens, TOKENS)), TokenOrdinal) == Some(tokens)
    ensures Arrangement(multiset(OfKind(rows.tokens, BM25_TOKENS)), TokenOrdinal) == Some(bm25Tokens)
    ensures MetricsFrom(rows, Values(tokens, TokenValue), Values(bm25Tokens, TokenValue)) == NormalMetrics(c.metrics)
  {
    match c.metrics
    case None =>
      NoTokensComeBack(rows.tokens, TOKENS);
      NoTokensComeBack(rows.tokens, BM25_TOKENS);
      tokens, bm25Tokens := [], [];
    case Some(m) =>
      TokensComeBack(c, owner, rows.tokens);
      tokens := TokenRows(owner, TOKENS, OrEmpty(m.tokens));
      bm25Tokens := TokenRows(owner, BM25_TOKENS, OrEmpty(m.bm25Tokens));
      assert Values(tokens, TokenValue) == OrEmpty(m.tokens) && Values(bm25Tokens, TokenValue) == OrEmpty(m.bm25Tokens);
  }

  /** The chunk with the embedding that was selected for it. */
  function WithEmbedding(c: Chunk, selected: Option<EmbeddingRow>): Chunk {
    c.(embedding := if selected.Some? then Some(selected.value.vector) else None,
       embeddingModel := if selected.Some? then Some(selected.value.model) else None)
  }

  lemma AssembledIsNormal(c: Chunk, root: RootRow, links: seq<Link>, selected: Option<EmbeddingRow>)
    requires Root(c) == Some(root) && ReadLinks(OrEmpty(c.links)) == Some(links)
    ensures Assemble(root, c.blockMeta, OrEmpty(c.tags), links, NormalMetrics(c.metrics), selected) ==
      WithEmbedding(Normal(c, false), selected)
  {
  }

  lemma ArrangedRowsAssemble(rows: Rows, request: Request, tokens: seq<TokenRow>, bm25Tokens: seq<TokenRow>,
                             tags: seq<TagRow>, links: seq<LinkRow>)
    requires Owned(rows) && KnownKinds(rows.tokens) && request.model.Some? == request.dimension.Some?
    requires Arrangement(multiset(OfKind(rows.tokens, TOKENS)), TokenOrdinal) == Some(tokens)
    requires Arrangement(multiset(OfKind(rows.tokens, BM25_TOKENS)), TokenOrdinal) == Some(bm25Tokens)
    requires Arrangement(multiset(rows.tags), TagOrdinal) == Some(tags)
    requires Arrangement(multiset(rows.links), LinkOrdinal) == Some(links)
    ensures Rebuilt(rows, request) ==
      Some(Assemble(rows.root, Merge(rows.blockMeta.promoted, rows.blockMeta.extensions),
                    Values(tags, TagValue), LinkValues(links),
                    MetricsFrom(rows, Values(tokens, TokenValue), Values(bm25Tokens, TokenValue)),
                    Selected(rows.embeddings, request)))
  {
  }

  /** Rows that hold the parts of a chunk, in any order, rebuild it in its normal form, with
      the embedding the reader selects among the rows. */
  lemma PartsRebuildNormal(c: Chunk, links: seq<Link>, rows: Rows, request: Request)
    requires Root(c) == Some(rows.root) && ReadLinks(OrEmpty(c.links)) == Some(links)
    requires Owned(rows) && KnownKinds(rows.tokens) && request.model.Some? == request.dimension.Some?
    requires multiset(rows.tokens) == multiset(TokensOf(c, rows.root.id))
    requires rows.metrics == MetricsOf(c, rows.root.id) && rows.feedback == FeedbackOf(c, rows.root.id)
    requires multiset(rows.tags) == multiset(TagRows(rows.root.id, OrEmpty(c.tags)))
    requires multiset(rows.links) == multiset(LinkRows(rows.root.id, links))
    requires Merge(rows.blockMeta.promoted, rows.blockMeta.extensions) == c.blockMeta
    ensures Rebuilt(rows, request) == Some(WithEmbedding(Normal(c, false), Selected(rows.embeddings, request)))
  {
    ListsComeBack(rows.root.id, OrEmpty(c.tags), links, rows);
    var tokens, bm25Tokens := MetricsComeBack(c, rows.root.id, rows);
    ArrangedRowsAssemble(rows, request, tokens, bm25Tokens, TagRows(rows.root.id, OrEmpty(c.tags)),
                         LinkRows(rows.root.id, links));
    AssembledIsNormal(c, rows.root, links, Selected(rows.embeddings, request));
  }

  /** Whatever order the child rows come back in, an accepted chunk is rebuilt in its normal form. */
  lemma RowsRebuildNormal(c: Chunk, how: Recording, rows: Rows, request: Request)
    requires Flattened(c, how).Some? && Shuffled(Flattened(c, how).value, rows)
    requires request.model.Some? == request.dimension.Some?
    ensures Rebuilt(rows, request) == Some(Normal(c, Keeps(c, how, request)))
  {
    var flat := Flattened(c, how).value;
    FlattenedIsOwned(c, how);
    OwnersSurvive(flat, rows);
    MergeSplit(c.blockMeta);
    SingleComesBack(rows.embeddings, flat.embeddings);
    PartsRebuildNormal(c, ReadLinks(OrEmpty(c.links)).value, rows, request);
    EmbeddingComesBack(c, flat.root.id, how, request);
  }

  /** An accepted chunk survives its rows exactly when it is canonical. */
  lemma RoundTripIff(c: Chunk, how: Recording, rows: Rows, request: Request)
    requires Flattened(c, how).Some? && Shuffled(Flattened(c, how).value, rows)
    requires request.model.Some? == request.dimension.Some?
    requires c.embedding.Some? ==> Keeps(c, how, request)
    ensures Rebuilt(rows, request) == Some(c) <==> CanonicalChunk(c)
  {
    RowsRebuildNormal(c, how, rows, request);
    NormalIffCanonical(c);
  }
}
