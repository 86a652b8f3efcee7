/**
  The bitemporal resolver of the retrieval commands.

  An assertion speaks about one object over a half-open effective interval and is
  known from its transaction time on.  A later assertion may supersede it.  The
  resolver answers, for one (act date, known time) pair, which single assertion
  is in force, that none is, or that the evidence is ambiguous.
 */
module TemporalAssertions {
  import opened Prelude

  datatype Kind = Payload | IntervalBoundary | Supersession | Deletion | Restoration

  datatype Acceptance = Acceptance(
    acceptedBy: Option<string>, via: Option<string>, operation: Option<Uuid>, comment: Option<string>)

  /** One row.  The two required instants are optional because the resolver also meets
      rows whose timestamps are missing or unreadable; it treats them as never visible. */
  datatype Assertion = Assertion(
    id: Uuid, objectId: Uuid, family: string, kind: Kind, revision: int,
    supersedes: Option<Uuid>,
    effectiveFrom: Option<Instant>, effectiveUntil: Option<Instant>,
    recordedAt: Option<Instant>, acceptance: Acceptance)

  datatype TimePair = TimePair(actDate: Instant, knownAt: Instant)

  datatype Resolution = Ambiguous | Absent | Found(row: Assertion)

  predicate KnownBy(a: Assertion, known: Instant) {
    a.recordedAt.Some? && a.recordedAt.value <= known
  }

  predicate InForce(a: Assertion, act: Instant) {
    && a.effectiveFrom.Some? && a.effectiveFrom.value <= act
    && (a.effectiveUntil.None? || act < a.effectiveUntil.value)
  }

  predicate IsVisible(a: Assertion, pair: TimePair) {
    KnownBy(a, pair.knownAt) && InForce(a, pair.actDate)
  }

  // ---------- reference meaning, over a bag of rows ----------

  ghost predicate Superseded(h: multiset<Assertion>, id: Uuid, known: Instant) {
    exists s :: s in h && s.supersedes == Some(id) && KnownBy(s, known)
  }

  /** The assertion is visible at both times and nothing known by then replaces it. */
  ghost predicate Survives(h: multiset<Assertion>, a: Assertion, pair: TimePair) {
    a in h && IsVisible(a, pair) && !Superseded(h, a.id, pair.knownAt)
  }

  ghost predicate Conflict(h: multiset<Assertion>, pair: TimePair) {
    exists a, b :: Survives(h, a, pair) && Survives(h, b, pair) && (a != b || h[a] > 1)
  }

  /** What the evidence says at a pair of times.  Two survivors are a conflict, a
      surviving deletion hides the object, and otherwise the survivor is the answer. */
  ghost function Resolve(h: multiset<Assertion>, pair: TimePair): (r: Resolution)
    ensures r.Ambiguous? <==> Conflict(h, pair)
    ensures r.Found? ==> Survives(h, r.row, pair) && r.row.kind != Deletion
    ensures r.Absent? ==> forall a :: Survives(h, a, pair) ==> a.kind == Deletion
  {
    if Conflict(h, pair) then Ambiguous
    else if exists a :: Survives(h, a, pair) && a.kind != Deletion then
      var a :| Survives(h, a, pair) && a.kind != Deletion;
      Found(a)
    else Absent
  }

  /** Histories with the same survivors, each present equally often, give the same answer. */
  lemma ResolveCongruence(h: multiset<Assertion>, k: multiset<Assertion>, pair: TimePair)
    requires forall a :: Survives(h, a, pair) <==> Survives(k, a, pair)
    requires forall a :: Survives(h, a, pair) ==> h[a] == k[a]
    ensures Resolve(h, pair) == Resolve(k, pair)
  {
    assert Conflict(h, pair) <==> Conflict(k, pair);
    if !Conflict(h, pair) && Resolve(h, pair).Found? {
      assert Survives(k, Resolve(h, pair).row, pair);
    }
  }

  lemma SoleSurvivor(h: multiset<Assertion>, a: Assertion, pair: TimePair)
    requires Survives(h, a, pair) && a.kind != Deletion && !Conflict(h, pair)
    ensures Resolve(h, pair) == Found(a)
  {
    var r := Resolve(h, pair);
    assert r.Found? && Survives(h, r.row, pair);
  }

  // ---------- the single-object resolver ----------

  /** `superseded` holds exactly the ids that the rows name as superseded by the known time. */
  ghost predicate Collects(superseded: set<Uuid>, rows: seq<Assertion>, known: Instant) {
    forall id :: id in superseded <==> Superseded(multiset(rows), id, known)
  }

  /** `visible` holds the visible, unsuperseded rows, each as often as `rows` does. */
  ghost predicate Filters(visible: seq<Assertion>, rows: seq<Assertion>, superseded: set<Uuid>, pair: TimePair) {
    forall a :: multiset(visible)[a] ==
      (if IsVisible(a, pair) && a.id !in superseded then multiset(rows)[a] else 0)
  }

  lemma CollectsOneMore(superseded: set<Uuid>, rows: seq<Assertion>, row: Assertion, known: Instant)
    requires Collects(superseded, rows, known)
    ensures Collects(
      superseded + (if row.supersedes.Some? && KnownBy(row, known) then {row.supersedes.value} else {}),
      rows + [row], known)
  {
    assert multiset(rows + [row]) == multiset(rows) + multiset{row};
    forall id: Uuid
      ensures Superseded(multiset(rows + [row]), id, known) <==>
        Superseded(multiset(rows), id, known) || (row.supersedes == Some(id) && KnownBy(row, known))
    {
      if Superseded(multiset(rows), id, known) {
        var s :| s in multiset(rows) && s.supersedes == Some(id) && KnownBy(s, known);
        assert s in multiset(rows + [row]);
      }
      if row.supersedes == Some(id) && KnownBy(row, known) {
        assert row in multiset(rows + [row]);
      }
    }
  }

  lemma FiltersOneMore(visible: seq<Assertion>, rows: seq<Assertion>, superseded: set<Uuid>, row: Assertion, pair: TimePair)
    requires Filters(visible, rows, superseded, pair)
    ensures Filters(if IsVisible(row, pair) && row.id !in superseded then visible + [row] else visible,
                    rows + [row], superseded, pair)
  {
  }

  /** The number of filtered rows decides the answer. */
  lemma FilteredAnswer(visible: seq<Assertion>, rows: seq<Assertion>, superseded: set<Uuid>, pair: TimePair)
    requires Collects(superseded, rows, pair.knownAt)
    requires Filters(visible, rows, superseded, pair)
    ensures Resolve(multiset(rows), pair) ==
      if |visible| == 0 then Absent
      else if |visible| > 1 then Ambiguous
      else if visible[0].kind == Deletion then Absent else Found(visible[0])
  {
    var h := multiset(rows);
    assert forall a :: Survives(h, a, pair) <==> a in multiset(visible);
    if |visible| > 1 {
      assert visible[0] in multiset(visible) && visible[1] in multiset(visible);
      assert visible == [visible[0], visible[1]] + visible[2..];
      assert visible[0] != visible[1] || multiset(visible)[visible[0]] > 1;
      assert Conflict(h, pair);
    } else if |visible| == 1 {
      var w := visible[0];
      assert visible == [w];
      assert Survives(h, w, pair) && h[w] == 1;
    }
  }

  /** The ids that some row known by then names as superseded. */
  method SupersededIds(rows: seq<Assertion>, known: Instant) returns (superseded: set<Uuid>)
    ensures Collects(superseded, rows, known)
  {
    superseded := {};
    for i := 0 to |rows|
      invariant Collects(superseded, rows[..i], known)
    {
      CollectsOneMore(superseded, rows[..i], rows[i], known);
      assert rows[..i + 1] == rows[..i] + [rows[i]];
      var target := rows[i].supersedes;
      if target.Some? && KnownBy(rows[i], known) {
        superseded := superseded + {target.value};
      }
    }
    assert rows[..|rows|] == rows;
  }

  method VisibleRows(rows: seq<Assertion>, superseded: set<Uuid>, pair: TimePair) returns (visible: seq<Assertion>)
    ensures Filters(visible, rows, superseded, pair)
  {
    visible := [];
    for i := 0 to |rows|
      invariant Filters(visible, rows[..i], superseded, pair)
    {
      FiltersOneMore(visible, rows[..i], superseded, rows[i], pair);
      assert rows[..i + 1] == rows[..i] + [rows[i]];
      if IsVisible(rows[i], pair) && rows[i].id !in superseded {
        visible := visible + [rows[i]];
      }
    }
    assert rows[..|rows|] == rows;
  }

  /** The answer for the rows of one object. */
  method SelectVisibleAssertion(rows: seq<Assertion>, pair: TimePair) returns (r: Resolution)
    ensures r == Resolve(multiset(rows), pair)
  {
    var superseded := SupersededIds(rows, pair.knownAt);
    var visible := VisibleRows(rows, superseded, pair);
    FilteredAnswer(visible, rows, superseded, pair);
    if |visible| == 0 {
      return Absent;
    }
    if |visible| > 1 {
      return Ambiguous;
    }
    var winner := visible[0];
    return if winner.kind == Deletion then Absent else Found(winner);
  }

  // ---------- the batch resolver ----------

  /** The rows that speak about one object, in input order. */
  function RowsOf(rows: seq<Assertion>, o: Uuid): seq<Assertion> {
    if rows == [] then []
    else
      var init := RowsOf(rows[..|rows| - 1], o);
      var last := rows[|rows| - 1];
      if last.objectId == o then init + [last] else init
  }

  /** The answer for one object: the single-object answer over that object's rows alone. */
  ghost function ObjectAnswer(rows: seq<Assertion>, o: Uuid, pair: TimePair): Resolution {
    Resolve(multiset(RowsOf(rows, o)), pair)
  }

  lemma {:induction false} RowsOfIsBagFilter(rows: seq<Assertion>, o: Uuid)
    ensures forall a :: multiset(RowsOf(rows, o))[a] == if a.objectId == o then multiset(rows)[a] else 0
  {
    if rows != [] {
      var init, last := rows[..|rows| - 1], rows[|rows| - 1];
      RowsOfIsBagFilter(init, o);
      assert rows == init + [last];
    }
  }

  /** No answer depends on the order in which the rows arrive. */
  lemma AnswersIgnoreRowOrder(rows: seq<Assertion>, shuffled: seq<Assertion>, o: Uuid, pair: TimePair)
    requires multiset(rows) == multiset(shuffled)
    ensures ObjectAnswer(rows, o, pair) == ObjectAnswer(shuffled, o, pair)
  {
    RowsOfIsBagFilter(rows, o);
    RowsOfIsBagFilter(shuffled, o);
    assert multiset(RowsOf(rows, o)) == multiset(RowsOf(shuffled, o));
  }

  datatype Batch = Rejected(objectId: Uuid) | Resolved(versions: map<Uuid, Assertion>)

  ghost predicate Groups(grouped: map<Uuid, seq<Assertion>>, keys: seq<Uuid>, rows: seq<Assertion>) {
    && (forall o :: o in grouped <==> o in keys)
    && (forall o :: o in grouped ==> grouped[o] == RowsOf(rows, o))
    && (forall o :: o !in grouped ==> RowsOf(rows, o) == [])
  }

  lemma EmptyHistoryIsAbsent(pair: TimePair)
    ensures Resolve(multiset([]), pair) == Absent
  {
    assert forall a :: !Survives(multiset([]), a, pair);
  }

  /** Every object that resolves gets its own answer, hidden objects are left out, and the
      whole batch is refused exactly when some object is ambiguous. */
  method ResolveVisibleVersions(rows: seq<Assertion>, pair: TimePair) returns (b: Batch)
    ensures b.Rejected? <==> exists o :: ObjectAnswer(rows, o, pair).Ambiguous?
    ensures b.Rejected? ==> ObjectAnswer(rows, b.objectId, pair).Ambiguous?
    ensures b.Resolved? ==> forall o :: o in b.versions <==> ObjectAnswer(rows, o, pair).Found?
    ensures b.Resolved? ==> forall o :: o in b.versions ==> b.versions[o] == ObjectAnswer(rows, o, pair).row
  {
    var grouped: map<Uuid, seq<Assertion>> := map[];
    var keys: seq<Uuid> := [];  // insertion order of the grouping dictionary
    for i := 0 to |rows|
      invariant Groups(grouped, keys, rows[..i])
    {
      assert rows[..i + 1][..i] == rows[..i];
      var o := rows[i].objectId;
      if o !in grouped {
        grouped, keys := grouped[o := []], keys + [o];
      }
      grouped := grouped[o := grouped[o] + [rows[i]]];
    }
    assert rows[..|rows|] == rows;

    var resolved: map<Uuid, Assertion> := map[];
    for k := 0 to |keys|
      invariant forall o :: o in keys[..k] ==> !ObjectAnswer(rows, o, pair).Ambiguous?
      invariant forall o :: o in resolved <==> o in keys[..k] && ObjectAnswer(rows, o, pair).Found?
      invariant forall o :: o in resolved ==> resolved[o] == ObjectAnswer(rows, o, pair).row
    {
      assert keys[..k + 1] == keys[..k] + [keys[k]];
      var o := keys[k];
      var winner := SelectVisibleAssertion(grouped[o], pair);
      if winner.Ambiguous? {
        assert ObjectAnswer(rows, o, pair).Ambiguous?;
        return Rejected(o);
      }
      if winner.Found? {
        resolved := resolved[o := winner.row];
      }
    }
    EmptyHistoryIsAbsent(pair);
    return Resolved(resolved);
  }
}
