/** Embedding rows and the choice of the active one. */
module Embeddings {
  import opened Prelude
  import opened UuidText

  datatype EmbeddingRow = EmbeddingRow(
    id: Option<Id>,
    owner: Id,
    vector: seq<real>,
    model: string,
    dimension: int,
    provider: string,
    modelVersion: string,
    createdAt: Option<Instant>,
    active: bool)

  // ---------- the order by creation time, then id text ----------

  predicate TextAtMost(s: string, t: string) {
    s == "" || (t != "" && (s[0] < t[0] || (s[0] == t[0] && TextAtMost(s[1..], t[1..]))))
  }

  lemma {:induction false} TextAtMostTotal(s: string, t: string)
    ensures TextAtMost(s, t) || TextAtMost(t, s)
  {
    if s != "" && t != "" && s[0] == t[0] { TextAtMostTotal(s[1..], t[1..]); }
  }

  lemma {:induction false} TextAtMostTransitive(s: string, t: string, u: string)
    requires TextAtMost(s, t) && TextAtMost(t, u)
    ensures TextAtMost(s, u)
  {
    if s != "" && s[0] == t[0] == u[0] { TextAtMostTransitive(s[1..], t[1..], u[1..]); }
  }

  /** The order of texts: a prefix first, else by the first difference. */
  lemma {:induction false} TextAtMostIff(s: string, t: string)
    ensures TextAtMost(s, t) <==>
      s <= t || exists i :: 0 <= i < |s| && i < |t| && s[..i] == t[..i] && s[i] < t[i]
  {
    if s != "" && t != "" {
      TextAtMostIff(s[1..], t[1..]);
      var x, y := s[1..], t[1..];
      assert s <= t <==> s[0] == t[0] && x <= y;
      if s[0] == t[0] {
        if i :| 0 <= i < |x| && i < |y| && x[..i] == y[..i] && x[i] < y[i] {
          assert s[..i + 1] == [s[0]] + x[..i] && t[..i + 1] == [t[0]] + y[..i];
          assert s[i + 1] < t[i + 1];
        }
        if i :| 0 <= i < |s| && i < |t| && s[..i] == t[..i] && s[i] < t[i] {
          assert x[..i - 1] == s[..i][1..] && y[..i - 1] == t[..i][1..];
          assert x[i - 1] < y[i - 1];
        }
      } else {
        assert s[0] < t[0] ==> s[..0] == t[..0];
        assert forall i :: 0 < i < |s| && i < |t| ==> s[..i][0] == s[0] && t[..i][0] == t[0];
      }
    }
  }

  function IdText(row: EmbeddingRow): string {
    if row.id.Some? then Show(row.id.value) else ""
  }

  /** A row without a creation time counts as the oldest. */
  predicate Before(a: Option<Instant>, b: Option<Instant>) {
    b.Some? && (a.None? || a.value < b.value)
  }

  /** The first row is no later than the second. */
  predicate NoLater(a: EmbeddingRow, b: EmbeddingRow) {
    Before(a.createdAt, b.createdAt) || (a.createdAt == b.createdAt && TextAtMost(IdText(a), IdText(b)))
  }

  lemma NoLaterTotal(a: EmbeddingRow, b: EmbeddingRow)
    ensures NoLater(a, b) || NoLater(b, a)
  {
    TextAtMostTotal(IdText(a), IdText(b));
  }

  lemma NoLaterTransitive(a: EmbeddingRow, b: EmbeddingRow, c: EmbeddingRow)
    requires NoLater(a, b) && NoLater(b, c)
    ensures NoLater(a, c)
  {
    if TextAtMost(IdText(a), IdText(b)) && TextAtMost(IdText(b), IdText(c)) {
      TextAtMostTransitive(IdText(a), IdText(b), IdText(c));
    }
  }

  // ---------- choosing ----------

  /** The latest row, the first of several equally late. */
  function Latest(rows: seq<EmbeddingRow>): EmbeddingRow
    requires rows != []
  {
    var last := rows[|rows| - 1];
    if |rows| == 1 then last
    else
      var best := Latest(rows[..|rows| - 1]);
      if NoLater(last, best) then best else last
  }

  function Compatible(rows: seq<EmbeddingRow>, model: string, dimension: int): seq<EmbeddingRow> {
    if rows == [] then []
    else
      var rest := Compatible(rows[1..], model, dimension);
      if Matches(rows[0], model, dimension) then [rows[0]] + rest else rest
  }

  predicate Matches(row: EmbeddingRow, model: string, dimension: int) {
    row.active && row.model == model && row.dimension == dimension
  }

  function SelectActive(rows: seq<EmbeddingRow>, model: string, dimension: int): Option<EmbeddingRow> {
    var compatible := Compatible(rows, model, dimension);
    if compatible == [] then None else Some(Latest(compatible))
  }

  lemma {:induction false} LatestIsRow(rows: seq<EmbeddingRow>)
    requires rows != []
    ensures Latest(rows) in rows
  {
    if |rows| > 1 { LatestIsRow(rows[..|rows| - 1]); }
  }

  lemma {:induction false} LatestIsLast(rows: seq<EmbeddingRow>, row: EmbeddingRow)
    requires row in rows
    ensures NoLater(row, Latest(rows))
  {
    var last := rows[|rows| - 1];
    var early := rows[..|rows| - 1];
    assert row == last || row in early;
    if |rows| == 1 {
      NoLaterTotal(last, last);
    } else {
      NoLaterTotal(last, Latest(early));
      if row in early {
        LatestIsLast(early, row);
        if !NoLater(last, Latest(early)) { NoLaterTransitive(row, Latest(early), last); }
      } else {
        NoLaterTotal(last, last);
      }
    }
  }

  lemma {:induction false} CompatibleContents(rows: seq<EmbeddingRow>, model: string, dimension: int, row: EmbeddingRow)
    ensures row in Compatible(rows, model, dimension) <==> row in rows && Matches(row, model, dimension)
  {
    if rows != [] {
      CompatibleContents(rows[1..], model, dimension, row);
      assert rows == [rows[0]] + rows[1..];
    }
  }

  /** Selection finds nothing exactly when no active row has the model and dimension, and
      otherwise an active row with them that no other such row is later than. */
  lemma SelectActiveIsLatest(rows: seq<EmbeddingRow>, model: string, dimension: int)
    ensures SelectActive(rows, model, dimension) == None <==>
      forall row :: row in rows ==> !Matches(row, model, dimension)
    ensures var r := SelectActive(rows, model, dimension);
      r.Some? ==>
        && r.value in rows && Matches(r.value, model, dimension)
        && forall row :: row in rows && Matches(row, model, dimension) ==> NoLater(row, r.value)
  {
    var compatible := Compatible(rows, model, dimension);
    forall row ensures row in compatible <==> row in rows && Matches(row, model, dimension) {
      CompatibleContents(rows, model, dimension, row);
    }
    if compatible != [] {
      assert compatible[0] in compatible;
      LatestIsRow(compatible);
      forall row | row in compatible ensures NoLater(row, Latest(compatible)) {
        LatestIsLast(compatible, row);
      }
    }
  }

  /** What being the latest means: no row it is chosen from was created later, one without a
      creation time counts as older than any other, and the text of the id decides a tie. */
  lemma LatestByColumn(rows: seq<EmbeddingRow>, row: EmbeddingRow)
    requires row in rows
    ensures var r := Latest(rows);
      && r in rows
      && (row.createdAt.Some? ==> r.createdAt.Some? && row.createdAt.value <= r.createdAt.value)
      && (row.createdAt == r.createdAt ==>
            TextAtMost(if row.id.Some? then Show(row.id.value) else "", if r.id.Some? then Show(r.id.value) else ""))
  {
    LatestIsRow(rows);
    LatestIsLast(rows, row);
  }

  /** Of rows that agree in both, the first is chosen. */
  lemma {:induction false} LatestIsFirst(rows: seq<EmbeddingRow>) returns (i: nat)
    requires rows != []
    ensures i < |rows| && rows[i] == Latest(rows)
    ensures forall j :: 0 <= j < i ==> !NoLater(rows[i], rows[j])
  {
    var n := |rows| - 1;
    if n == 0 { return 0; }
    var early := rows[..n];
    i := LatestIsFirst(early);
    assert forall j :: 0 <= j < i ==> early[j] == rows[j];
    if !NoLater(rows[n], early[i]) {
      forall j | 0 <= j < n ensures !NoLater(rows[n], rows[j]) {
        assert rows[j] == early[j] && early[j] in early;
        LatestIsLast(early, rows[j]);
        if NoLater(rows[n], rows[j]) { NoLaterTransitive(rows[n], rows[j], early[i]); }
      }
      i := n;
    }
  }
}
