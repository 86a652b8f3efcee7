/**
  Stored embeddings: one row per chunk, model, provider, version and dimension, of which at
  most one per chunk, model and dimension is active.
 */
module EmbeddingStore {
  import opened Prelude
  import opened UuidText
  import opened Embeddings

  datatype Key = Key(chunk: Id, model: string, provider: string, modelVersion: string, dimension: int)

  datatype Body = Body(id: Id, vector: seq<real>, createdAt: Instant, active: bool)

  type Store = map<Key, Body>

  function KeyOf(payload: EmbeddingRow): Key {
    Key(payload.owner, payload.model, payload.provider, payload.modelVersion, payload.dimension)
  }

  function RowOf(k: Key, b: Body): EmbeddingRow {
    EmbeddingRow(Some(b.id), k.chunk, b.vector, k.model, k.dimension, k.provider, k.modelVersion,
                 Some(b.createdAt), b.active)
  }

  /** The rows that compete for being active. */
  predicate Rivals(a: Key, b: Key) {
    a.chunk == b.chunk && a.model == b.model && a.dimension == b.dimension
  }

  ghost predicate OneActive(s: Store) {
    forall a, b :: a in s && b in s && Rivals(a, b) && s[a].active && s[b].active ==> a == b
  }

  function Deactivated(s: Store, k: Key): Store {
    map a | a in s :: if Rivals(a, k) then s[a].(active := false) else s[a]
  }

  /** What a library call supplies: the id for a new row and the server's clock. */
  datatype Supply = Supply(id: Id, now: Instant)

  /** An active payload retires its rivals; then the row under its key is added or overwritten,
      where a payload without a creation time keeps the stored one. */
  function Recorded(s: Store, payload: EmbeddingRow, supply: Supply): Store {
    var k := KeyOf(payload);
    var base := if payload.active then Deactivated(s, k) else s;
    var id := if k in s then s[k].id else if payload.id.Some? then payload.id.value else supply.id;
    var created :=
      if payload.createdAt.Some? then payload.createdAt.value else if k in s then s[k].createdAt else supply.now;
    base[k := Body(id, payload.vector, created, payload.active)]
  }

  /** What recording leaves under each key: the payload's own row, and every other row as it was
      but for the rivals that an active payload retires. */
  lemma RecordedByRow(s: Store, payload: EmbeddingRow, supply: Supply)
    ensures var r := Recorded(s, payload, supply);
      var k := Key(payload.owner, payload.model, payload.provider, payload.modelVersion, payload.dimension);
      && r.Keys == s.Keys + {k}
      && r[k].vector == payload.vector && r[k].active == payload.active
      && (k in s ==> r[k].id == s[k].id)
      && (k !in s ==> r[k].id == if payload.id.Some? then payload.id.value else supply.id)
      && (payload.createdAt.Some? ==> r[k].createdAt == payload.createdAt.value)
      && (payload.createdAt.None? ==> r[k].createdAt == if k in s then s[k].createdAt else supply.now)
      && forall a :: a in s && a != k ==>
           && r[a].id == s[a].id && r[a].vector == s[a].vector && r[a].createdAt == s[a].createdAt
           && (r[a].active <==>
                 && s[a].active
                 && !(payload.active
                      && a.chunk == payload.owner && a.model == payload.model && a.dimension == payload.dimension))
  {
  }

  /** A stored row shows its key and its body, column by column. */
  lemma RowOfByColumn(k: Key, b: Body)
    ensures KeyOf(RowOf(k, b)) == k
    ensures var row := RowOf(k, b);
      row.id == Some(b.id) && row.vector == b.vector && row.createdAt == Some(b.createdAt) && row.active == b.active
  {
  }

  function RecordedAll(s: Store, payloads: seq<EmbeddingRow>, supplies: seq<Supply>): Store
    requires |supplies| == |payloads|
  {
    if payloads == [] then s
    else
      var n := |payloads| - 1;
      Recorded(RecordedAll(s, payloads[..n], supplies[..n]), payloads[n], supplies[n])
  }

  lemma RecordedKeepsOneActive(s: Store, payload: EmbeddingRow, supply: Supply)
    requires OneActive(s)
    ensures OneActive(Recorded(s, payload, supply))
  {
    var k, r := KeyOf(payload), Recorded(s, payload, supply);
    forall a, b | a in r && b in r && Rivals(a, b) && r[a].active && r[b].active
      ensures a == b
    {
      if a != k && b != k {
        assert a in s && b in s && s[a].active && s[b].active;
      } else {
        assert a != k ==> Rivals(a, k);
        assert b != k ==> Rivals(b, k);
      }
    }
  }

  /** Rows of another chunk, model or dimension stay as they are. */
  lemma RecordedIsLocal(s: Store, payload: EmbeddingRow, supply: Supply, a: Key)
    requires !Rivals(a, KeyOf(payload))
    ensures a in Recorded(s, payload, supply) <==> a in s
    ensures a in s ==> Recorded(s, payload, supply)[a] == s[a]
  {
  }

  /** Any sequence of payloads keeps at most one row active per chunk, model and dimension. */
  lemma {:induction false} PayloadsKeepOneActive(s: Store, payloads: seq<EmbeddingRow>, supplies: seq<Supply>)
    requires OneActive(s) && |supplies| == |payloads|
    ensures OneActive(RecordedAll(s, payloads, supplies))
  {
    if payloads != [] {
      var n := |payloads| - 1;
      PayloadsKeepOneActive(s, payloads[..n], supplies[..n]);
      RecordedKeepsOneActive(RecordedAll(s, payloads[..n], supplies[..n]), payloads[n], supplies[n]);
    }
  }

  /** Any sequence of payloads leaves alone the rows none of them competes with. */
  lemma {:induction false} PayloadsAreLocal(s: Store, payloads: seq<EmbeddingRow>, supplies: seq<Supply>, a: Key)
    requires |supplies| == |payloads| && forall p :: p in payloads ==> !Rivals(a, KeyOf(p))
    ensures a in RecordedAll(s, payloads, supplies) <==> a in s
    ensures a in s ==> RecordedAll(s, payloads, supplies)[a] == s[a]
  {
    if payloads != [] {
      var n := |payloads| - 1;
      PayloadsAreLocal(s, payloads[..n], supplies[..n], a);
      RecordedIsLocal(RecordedAll(s, payloads[..n], supplies[..n]), payloads[n], supplies[n], a);
    }
  }

  function WithoutChunk(s: Store, chunk: Id): Store {
    map k | k in s && k.chunk != chunk :: s[k]
  }

  lemma WithoutChunkKeepsOneActive(s: Store, chunk: Id)
    requires OneActive(s)
    ensures OneActive(WithoutChunk(s, chunk))
  {
    var r := WithoutChunk(s, chunk);
    forall a, b | a in r && b in r && Rivals(a, b) && r[a].active && r[b].active ensures a == b {
      assert a in s && b in s && s[a].active && s[b].active;
    }
  }

  /** Rows are never dropped, and only the row written last among rivals can be active. */
  lemma {:induction false} LastActiveWins(s: Store, payloads: seq<EmbeddingRow>, supplies: seq<Supply>)
    requires |supplies| == |payloads|
    ensures s.Keys <= RecordedAll(s, payloads, supplies).Keys
    ensures payloads != [] && payloads[|payloads| - 1].active ==>
      var r, k := RecordedAll(s, payloads, supplies), KeyOf(payloads[|payloads| - 1]);
      && k in r && r[k].active && r[k].vector == payloads[|payloads| - 1].vector
      && forall a :: a in r && Rivals(a, k) && r[a].active ==> a == k
  {
    if payloads != [] {
      LastActiveWins(s, payloads[..|payloads| - 1], supplies[..|payloads| - 1]);
    }
  }

  // ---------- what a reader finds ----------

  /** The rows are the stored ones of the chunk, in some order. */
  ghost predicate Lists(rows: seq<EmbeddingRow>, s: Store, chunk: Id) {
    && (forall r :: r in rows ==> exists k :: k in s && k.chunk == chunk && r == RowOf(k, s[k]))
    && (forall k :: k in s && k.chunk == chunk ==> RowOf(k, s[k]) in rows)
  }

  /** With at most one rival active, selection returns that row, whatever the order, or none. */
  lemma SelectedIsTheActive(rows: seq<EmbeddingRow>, s: Store, k: Key)
    requires OneActive(s) && Lists(rows, s, k.chunk) && k in s && s[k].active
    ensures SelectActive(rows, k.model, k.dimension) == Some(RowOf(k, s[k]))
  {
    SelectActiveIsLatest(rows, k.model, k.dimension);
    var row := RowOf(k, s[k]);
    assert row in rows && Matches(row, k.model, k.dimension);
    var r := SelectActive(rows, k.model, k.dimension).value;
    var a :| a in s && a.chunk == k.chunk && r == RowOf(a, s[a]);
    assert Rivals(a, k);
  }

  lemma NoneActiveNoneSelected(rows: seq<EmbeddingRow>, s: Store, chunk: Id, model: string, dimension: int)
    requires Lists(rows, s, chunk)
    requires forall k :: k in s && k.chunk == chunk && k.model == model && k.dimension == dimension ==> !s[k].active
    ensures SelectActive(rows, model, dimension) == None
  {
    SelectActiveIsLatest(rows, model, dimension);
    forall r | r in rows ensures !Matches(r, model, dimension) {
      var k :| k in s && k.chunk == chunk && r == RowOf(k, s[k]);
    }
  }

  /** Selection finds a row exactly when one of the chunk is active for the model and dimension,
      and then that one, in whatever order the stored rows are listed. */
  lemma SelectionFollowsActivity(rows: seq<EmbeddingRow>, s: Store, chunk: Id, model: string, dimension: int)
    requires OneActive(s) && Lists(rows, s, chunk)
    ensures SelectActive(rows, model, dimension).Some? <==>
      exists k :: k in s && k.chunk == chunk && k.model == model && k.dimension == dimension && s[k].active
    ensures forall k :: k in s && k.chunk == chunk && k.model == model && k.dimension == dimension && s[k].active ==>
      SelectActive(rows, model, dimension) == Some(RowOf(k, s[k]))
  {
    forall k | k in s && k.chunk == chunk && k.model == model && k.dimension == dimension && s[k].active
      ensures SelectActive(rows, model, dimension) == Some(RowOf(k, s[k]))
    {
      SelectedIsTheActive(rows, s, k);
    }
    if forall k :: k in s && k.chunk == chunk && k.model == model && k.dimension == dimension ==> !s[k].active {
      NoneActiveNoneSelected(rows, s, chunk, model, dimension);
    }
  }
}
